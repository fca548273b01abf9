/** The attachment file-name matcher: `*` is any run of characters, `?` any one
    character. Both strings are taken after case folding. */
module Glob {

  /** What a pattern means: the suffix of p at i matches the suffix of t at j. */
  ghost predicate MatchesFrom(p: string, t: string, i: nat, j: nat)
    requires i <= |p| && j <= |t|
    decreases |p| - i, 0
  {
    if i == |p| then j == |t|
    else if p[i] == '*' then MatchesLater(p, t, i + 1, j)
    else j < |t| && (p[i] == '?' || p[i] == t[j]) && MatchesFrom(p, t, i + 1, j + 1)
  }

  /** Some text position from j on matches: what a star leaves to the rest of p. */
  ghost predicate MatchesLater(p: string, t: string, i: nat, j: nat)
    requires i <= |p|
    decreases |p| - i, 1
  {
    exists k: nat :: j <= k <= |t| && MatchesFrom(p, t, i, k)
  }

  ghost predicate Matches(p: string, t: string) {
    MatchesFrom(p, t, 0, 0)
  }

  /** The last star passed, and the text position it was last tried from. */
  datatype Star = NoStar | LastStar(pi: nat, ti: nat)

  predicate Reached(p: string, t: string, pi: nat, ti: nat, star: Star) {
    pi <= |p| && ti <= |t| && (star.LastStar? ==> star.pi < pi && star.ti <= ti)
  }

  predicate OnlyStars(p: string, pi: nat)
    requires pi <= |p|
    decreases |p| - pi
  {
    pi == |p| || (p[pi] == '*' && OnlyStars(p, pi + 1))
  }

  /** The answer the loop reaches from a given state of its variables. The measure
      says why backtracking ends: each retry moves the last star's text position on. */
  predicate Search(p: string, t: string, pi: nat, ti: nat, star: Star)
    requires Reached(p, t, pi, ti, star)
    decreases if star.NoStar? then |t| + 1 else |t| - star.ti, |t| - ti + |p| - pi
  {
    if ti == |t| then OnlyStars(p, pi)
    else if pi < |p| && (p[pi] == '?' || p[pi] == t[ti]) then Search(p, t, pi + 1, ti + 1, star)
    else if pi < |p| && p[pi] == '*' then Search(p, t, pi + 1, ti, LastStar(pi, ti))
    else if star.LastStar? then
      Search(p, t, star.pi + 1, star.ti + 1, LastStar(star.pi, star.ti + 1))
    else false
  }

  predicate Accepts(p: string, t: string) {
    Search(p, t, 0, 0, NoStar)
  }

  /** The matcher: a loop that goes back to the last star, then one over the stars left. */
  method GlobMatch(pattern: string, text: string) returns (matched: bool)
    ensures matched == Accepts(pattern, text)
    ensures matched ==> Matches(pattern, text)
    ensures '*' !in pattern || '*' !in text ==> (matched <==> Matches(pattern, text))
  {
    SearchSound(pattern, text, 0, 0, NoStar);
    if '*' !in pattern {
      StarFreeExact(pattern, text, 0, 0);
    }
    if '*' !in text {
      SearchExact(pattern, text, 0, 0, NoStar);
    }
    var pi: nat, ti: nat, star := 0, 0, NoStar;
    while ti < |text|
      invariant Reached(pattern, text, pi, ti, star)
      invariant Search(pattern, text, pi, ti, star) == Accepts(pattern, text)
      decreases if star.NoStar? then |text| + 1 else |text| - star.ti, |text| - ti + |pattern| - pi
    {
      if pi < |pattern| && (pattern[pi] == '?' || pattern[pi] == text[ti]) {
        pi, ti := pi + 1, ti + 1;
      } else if pi < |pattern| && pattern[pi] == '*' {
        star := LastStar(pi, ti);
        pi := pi + 1;
      } else if star != NoStar {
        star := LastStar(star.pi, star.ti + 1);
        pi, ti := star.pi + 1, star.ti;
      } else {
        return false;
      }
    }
    while pi < |pattern| && pattern[pi] == '*'
      invariant pi <= |pattern| && OnlyStars(pattern, pi) == Accepts(pattern, text)
    {
      pi := pi + 1;
    }
    matched := pi == |pattern|;
  }

  /** The matches still open in a state: from here, or from a later start of the last star. */
  ghost predicate Open(p: string, t: string, pi: nat, ti: nat, star: Star)
    requires Reached(p, t, pi, ti, star)
  {
    MatchesFrom(p, t, pi, ti) || OpenAtStar(p, t, pi, ti, star)
  }

  ghost predicate OpenAtStar(p: string, t: string, pi: nat, ti: nat, star: Star)
    requires Reached(p, t, pi, ti, star)
  {
    star.LastStar? && MatchesLater(p, t, star.pi + 1, star.ti + 1)
  }

  lemma {:induction false} OnlyStarsMeaning(p: string, t: string, pi: nat)
    requires pi <= |p|
    ensures OnlyStars(p, pi) <==> MatchesFrom(p, t, pi, |t|)
    decreases |p| - pi
  {
    if pi == |p| {
    } else {
      OnlyStarsMeaning(p, t, pi + 1);
    }
  }

  /** Every accepted pair is a match, whatever the text holds. */
  lemma {:induction false} SearchSound(p: string, t: string, pi: nat, ti: nat, star: Star)
    requires Reached(p, t, pi, ti, star)
    ensures Search(p, t, pi, ti, star) ==> Open(p, t, pi, ti, star)
    decreases if star.NoStar? then |t| + 1 else |t| - star.ti, |t| - ti + |p| - pi
  {
    if ti == |t| {
      OnlyStarsMeaning(p, t, pi);
    } else if pi < |p| && (p[pi] == '?' || p[pi] == t[ti]) {
      SearchSound(p, t, pi + 1, ti + 1, star);
    } else if pi < |p| && p[pi] == '*' {
      SearchSound(p, t, pi + 1, ti, LastStar(pi, ti));
    } else if star.LastStar? {
      SearchSound(p, t, star.pi + 1, star.ti + 1, LastStar(star.pi, star.ti + 1));
    }
  }

  /** Between the last star and the current position the pattern is star-free, so it
      used up exactly one text character per pattern character. */
  ghost predicate OneForOne(p: string, pi: nat, ti: nat, star: Star)
    requires pi <= |p|
  {
    star.LastStar? ==>
      && star.pi < pi
      && p[star.pi] == '*'
      && ti - star.ti == pi - star.pi - 1
      && forall q :: star.pi < q < pi ==> p[q] != '*'
  }

  /** A star-free stretch of n pattern characters takes exactly n text characters. */
  lemma {:induction false} StarFreeStretch(p: string, t: string, i: nat, j: nat, n: nat)
    requires i + n <= |p| && j <= |t|
    requires forall q :: i <= q < i + n ==> p[q] != '*'
    requires MatchesFrom(p, t, i, j)
    ensures j + n <= |t| && MatchesFrom(p, t, i + n, j + n)
    decreases n
  {
    if n == 0 {
    } else {
      StarFreeStretch(p, t, i + 1, j + 1, n - 1);
    }
  }

  /** Why only the last star need be remembered: any match that starts an earlier
      star later is also a match from the position where the new star was met. */
  lemma EarlierStarAbsorbed(p: string, t: string, pi: nat, ti: nat, star: Star)
    requires Reached(p, t, pi, ti, star) && OneForOne(p, pi, ti, star)
    requires pi < |p| && p[pi] == '*'
    requires OpenAtStar(p, t, pi, ti, star)
    ensures MatchesFrom(p, t, pi, ti)
  {
    var k: nat :| star.ti < k <= |t| && MatchesFrom(p, t, star.pi + 1, k);
    StarFreeStretch(p, t, star.pi + 1, k, pi - star.pi - 1);
    var k': nat :| k + (pi - star.pi - 1) <= k' <= |t| && MatchesFrom(p, t, pi + 1, k');
  }

  lemma LaterSplits(p: string, t: string, i: nat, j: nat)
    requires i <= |p| && j < |t| && MatchesLater(p, t, i, j)
    ensures MatchesFrom(p, t, i, j) || MatchesLater(p, t, i, j + 1)
  {
  }

  /** Without a star in the text the search loses no match. */
  lemma {:induction false} SearchExact(p: string, t: string, pi: nat, ti: nat, star: Star)
    requires '*' !in t
    requires Reached(p, t, pi, ti, star) && OneForOne(p, pi, ti, star)
    ensures Search(p, t, pi, ti, star) <==> Open(p, t, pi, ti, star)
    decreases if star.NoStar? then |t| + 1 else |t| - star.ti, |t| - ti + |p| - pi
  {
    SearchSound(p, t, pi, ti, star);
    if !Open(p, t, pi, ti, star) {
    } else {
      if ti == |t| {
        OnlyStarsMeaning(p, t, pi);
        if OpenAtStar(p, t, pi, ti, star) {
          var k: nat :| star.ti < k <= |t| && MatchesFrom(p, t, star.pi + 1, k);
          StarFreeStretch(p, t, star.pi + 1, k, pi - star.pi - 1);
        }
      } else if pi < |p| && (p[pi] == '?' || p[pi] == t[ti]) {
        assert p[pi] != '*';
        SearchExact(p, t, pi + 1, ti + 1, star);
      } else if pi < |p| && p[pi] == '*' {
        if OpenAtStar(p, t, pi, ti, star) {
          EarlierStarAbsorbed(p, t, pi, ti, star);
        }
        LaterSplits(p, t, pi + 1, ti);
        SearchExact(p, t, pi + 1, ti, LastStar(pi, ti));
      } else {
        SearchExact(p, t, star.pi + 1, star.ti + 1, LastStar(star.pi, star.ti + 1));
      }
    }
  }

  function AnyChars(n: nat): (s: string)
    ensures |s| == n && forall q :: 0 <= q < n ==> s[q] == '?'
  {
    seq(n, _ => '?')
  }

  /** A pattern that misses the text: `?` up to a star of the text, a star, and one
      `?` for every character left. */
  function MissedPattern(t: string, i: nat): (p: string)
    requires i < |t|
    ensures |p| == |t| + 1 && p[i] == '*'
    ensures forall q :: 0 <= q < |p| && q != i ==> p[q] == '?'
  {
    AnyChars(i) + ['*'] + AnyChars(|t| - i)
  }

  lemma {:induction false} MissedPatternMatches(t: string, i: nat, at: nat)
    requires i < |t| && at <= |t| + 1
    ensures MatchesFrom(MissedPattern(t, i), t, at, if at <= i then at else at - 1)
    decreases |t| + 1 - at
  {
    if at > |t| {
    } else {
      MissedPatternMatches(t, i, at + 1);
    }
  }

  lemma {:induction false} MissedPatternRejected(t: string, i: nat, at: nat)
    requires i < |t| && t[i] == '*' && at <= |t|
    ensures !Search(MissedPattern(t, i), t, at, at, NoStar)
    decreases |t| - at
  {
    if at == |t| {
    } else {
      MissedPatternRejected(t, i, at + 1);
    }
  }

  /** Exactly when the matcher is right for every pattern: the text holds no `*`. Characters
      are compared before a star is looked for, so a pattern star that meets a `*` of the
      text is spent on that one character and never remembered. */
  lemma ExactIffNoStarInText(t: string)
    ensures (forall p :: Accepts(p, t) <==> Matches(p, t)) <==> '*' !in t
  {
    if '*' in t {
      var i :| 0 <= i < |t| && t[i] == '*';
      MissedPatternMatches(t, i, 0);
      MissedPatternRejected(t, i, 0);
      var p := MissedPattern(t, i);
      assert Matches(p, t) && !Accepts(p, t);
    } else {
      forall p ensures Accepts(p, t) <==> Matches(p, t) {
        SearchExact(p, t, 0, 0, NoStar);
      }
    }
  }

  /** Without a star in the pattern there is nothing to lose. */
  lemma {:induction false} StarFreeExact(p: string, t: string, pi: nat, ti: nat)
    requires pi <= |p| && ti <= |t| && forall q :: pi <= q < |p| ==> p[q] != '*'
    ensures Search(p, t, pi, ti, NoStar) <==> MatchesFrom(p, t, pi, ti)
    ensures Search(p, t, pi, ti, NoStar) ==> |t| - ti == |p| - pi
    decreases |p| - pi
  {
    if pi == |p| || ti == |t| {
    } else {
      StarFreeExact(p, t, pi + 1, ti + 1);
    }
  }

  /** A text that the pattern misses: the pattern itself, with one more character after its
      last star. The star is spent on itself, and nothing else can take the character. */
  function MissedText(p: string, i: nat): (t: string)
    requires i < |p|
    ensures |t| == |p| + 1
    ensures forall q :: 0 <= q <= i ==> t[q] == p[q]
    ensures forall q :: i < q < |p| ==> t[q + 1] == p[q]
  {
    p[..i + 1] + ['?'] + p[i + 1..]
  }

  lemma {:induction false} MissedTextMatches(p: string, i: nat, at: nat)
    requires i < |p| && p[i] == '*' && at <= |p|
    ensures MatchesFrom(p, MissedText(p, i), at, if at <= i then at else at + 1)
    decreases |p| - at
  {
    if at == |p| {
    } else {
      MissedTextMatches(p, i, at + 1);
    }
  }

  lemma {:induction false} MissedTextRejected(p: string, i: nat, at: nat)
    requires i < |p| && at <= i + 1 && forall q :: i < q < |p| ==> p[q] != '*'
    ensures !Search(p, MissedText(p, i), at, at, NoStar)
    decreases i + 1 - at
  {
    if at <= i {
      MissedTextRejected(p, i, at + 1);
    } else {
      StarFreeExact(p, MissedText(p, i), at, at);
    }
  }

  lemma {:induction false} LastStarOf(p: string, n: nat) returns (i: nat)
    requires n <= |p| && '*' in p[..n]
    ensures i < n && p[i] == '*' && forall q :: i < q < n ==> p[q] != '*'
  {
    if p[n - 1] == '*' {
      i := n - 1;
    } else {
      i := LastStarOf(p, n - 1);
    }
  }

  /** And exactly when it is right for every text: the pattern holds no `*`. */
  lemma ExactIffNoStarInPattern(p: string)
    ensures (forall t :: Accepts(p, t) <==> Matches(p, t)) <==> '*' !in p
  {
    if '*' in p {
      assert p[..|p|] == p;
      var i := LastStarOf(p, |p|);
      MissedTextMatches(p, i, 0);
      MissedTextRejected(p, i, 0);
      var t := MissedText(p, i);
      assert Matches(p, t) && !Accepts(p, t);
    } else {
      forall t ensures Accepts(p, t) <==> Matches(p, t) {
        StarFreeExact(p, t, 0, 0);
      }
    }
  }
}
