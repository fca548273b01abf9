/** Decimal numbers, splitting, joining and trimming, as the Rust standard library does them. */
module Text {
  import opened Wrappers

  // ---- decimal numbers -----------------------------------------------------

  predicate IsDigit(c: char) {
    '0' <= c <= '9'
  }

  predicate AllDigits(s: string) {
    forall i :: 0 <= i < |s| ==> IsDigit(s[i])
  }

  function Digit(d: nat): (c: char)
    requires d < 10
    ensures IsDigit(c) && DigitValue(c) == d
  {
    '0' + d as char
  }

  function DigitValue(c: char): nat
    requires IsDigit(c)
  {
    (c - '0') as nat
  }

  function Decimal(n: nat): (s: string)
    ensures s != [] && AllDigits(s)
    ensures s[0] == '0' <==> n == 0
  {
    if n < 10 then [Digit(n)] else Decimal(n / 10) + [Digit(n % 10)]
  }

  function DecimalValue(s: string): nat
    requires AllDigits(s)
  {
    if s == [] then 0
    else DecimalValue(s[..|s| - 1]) * 10 + DigitValue(s[|s| - 1])
  }

  lemma {:induction false} DecimalRoundTrip(n: nat)
    ensures DecimalValue(Decimal(n)) == n
  {
    var s := Decimal(n);
    if n < 10 {
      assert s[..0] == [];
    } else {
      assert s[..|s| - 1] == Decimal(n / 10);
      DecimalRoundTrip(n / 10);
    }
  }

  lemma DecimalInjective(m: nat, n: nat)
    ensures Decimal(m) == Decimal(n) <==> m == n
  {
    DecimalRoundTrip(m);
    DecimalRoundTrip(n);
  }

  // ---- characters and octets -----------------------------------------------

  type Byte = n: nat | n < 256

  predicate Alphanumeric(c: char) {
    IsDigit(c) || 'A' <= c <= 'Z' || 'a' <= c <= 'z'
  }

  function Upper(c: char): char {
    if 'a' <= c <= 'z' then (c as int - 0x20) as char else c
  }

  function UpperCase(s: string): (r: string)
    ensures |r| == |s|
  {
    seq(|s|, i requires 0 <= i < |s| => Upper(s[i]))
  }

  function HexDigit(c: char): Option<nat> {
    if '0' <= c <= '9' then Some((c - '0') as nat)
    else if 'A' <= c <= 'F' then Some((c - 'A') as nat + 10)
    else if 'a' <= c <= 'f' then Some((c - 'a') as nat + 10)
    else None
  }

  lemma HexDigitMeans(c: char, d: nat)
    ensures HexDigit(c) == Some(d) <==> d < 16 && (c == "0123456789abcdef"[d] || c == "0123456789ABCDEF"[d])
  {
  }

  /** Two characters read in base 16 as Rust reads them: a leading plus sign is allowed. */
  function HexPair(a: char, b: char): Option<Byte> {
    match (HexDigit(a), HexDigit(b))
    case (Some(x), Some(y)) => Some(16 * x + y)
    case (None, Some(y)) => if a == '+' then Some(y) else None
    case _ => None
  }

  /** One more character read before the rest. */
  function Prepend(c: char, r: Option<(string, string)>): Option<(string, string)> {
    match r case Some(read) => Some(([c] + read.0, read.1)) case None => None
  }

  lemma Regroup<T>(a: seq<T>, b: seq<T>, c: seq<T>)
    ensures (a + b) + c == a + (b + c)
  {
  }

  // ---- splitting and joining -----------------------------------------------

  function Join(parts: seq<string>, sep: string): string {
    if parts == [] then ""
    else if |parts| == 1 then parts[0]
    else parts[0] + sep + Join(parts[1..], sep)
  }

  function Split(s: string, c: char): (parts: seq<string>)
    ensures parts != []
    ensures forall i :: 0 <= i < |parts| ==> c !in parts[i]
  {
    if s == [] then [[]]
    else
      var rest := Split(s[1..], c);
      if s[0] == c then [[]] + rest else [[s[0]] + rest[0]] + rest[1..]
  }

  lemma {:induction false} JoinOfSplit(s: string, c: char)
    ensures Join(Split(s, c), [c]) == s
  {
    if s == [] {
    } else {
      var rest := Split(s[1..], c);
      JoinOfSplit(s[1..], c);
      if s[0] == c {
        assert ([[]] + rest)[1..] == rest;
      } else {
        var parts := [[s[0]] + rest[0]] + rest[1..];
        assert parts[1..] == rest[1..];
      }
    }
  }

  lemma {:induction false} SplitPrefix(s: string, t: string, c: char)
    requires c !in s
    ensures Split(s + [c] + t, c) == [s] + Split(t, c)
    decreases |s|
  {
    var u := s + [c] + t;
    if s == [] {
      assert u[1..] == t;
    } else {
      SplitPrefix(s[1..], t, c);
      assert u[1..] == s[1..] + [c] + t;
      assert [s[0]] + s[1..] == s;
    }
  }

  lemma {:induction false} SplitNone(s: string, c: char)
    requires c !in s
    ensures Split(s, c) == [s]
  {
    if s == [] {
    } else {
      SplitNone(s[1..], c);
      assert [s[0]] + s[1..] == s;
    }
  }

  lemma {:induction false} SplitOfJoin(parts: seq<string>, c: char)
    requires parts != []
    requires forall i :: 0 <= i < |parts| ==> c !in parts[i]
    ensures Split(Join(parts, [c]), c) == parts
  {
    if |parts| == 1 {
      SplitNone(parts[0], c);
    } else {
      SplitOfJoin(parts[1..], c);
      SplitPrefix(parts[0], Join(parts[1..], [c]), c);
      assert [parts[0]] + parts[1..] == parts;
    }
  }

  // ---- searching -----------------------------------------------------------

  predicate PairAt(s: string, i: nat, a: char, b: char) {
    i + 1 < |s| && s[i] == a && s[i + 1] == b
  }

  /** The first place where a is followed by b. */
  function FindPair(s: string, a: char, b: char): (r: Option<nat>)
    ensures r.Some? ==> PairAt(s, r.value, a, b) && forall j: nat :: j < r.value ==> !PairAt(s, j, a, b)
    ensures r.None? ==> forall j: nat :: !PairAt(s, j, a, b)
  {
    if |s| < 2 then None
    else if s[0] == a && s[1] == b then Some(0)
    else
      var r := FindPair(s[1..], a, b);
      assert forall j: nat :: j > 0 ==> (PairAt(s, j, a, b) <==> PairAt(s[1..], j - 1, a, b));
      match r
      case Some(i) => Some(i + 1)
      case None => None
  }

  function FindChar(s: string, a: char): (r: Option<nat>)
    ensures r.Some? ==> r.value < |s| && s[r.value] == a && forall j :: 0 <= j < r.value ==> s[j] != a
    ensures r.None? ==> forall j :: 0 <= j < |s| ==> s[j] != a
  {
    if s == [] then None
    else if s[0] == a then Some(0)
    else match FindChar(s[1..], a)
      case Some(i) => Some(i + 1)
      case None => None
  }

  predicate Without(s: string, c: char) {
    forall i :: 0 <= i < |s| ==> s[i] != c
  }

  lemma FindCharAfter(s: string, a: char, tail: string)
    requires Without(s, a) && tail != [] && tail[0] == a
    ensures FindChar(s + tail, a) == Some(|s|)
    ensures (s + tail)[..|s|] == s && (s + tail)[|s|..] == tail
  {
    var t := s + tail;
    assert t[|s|] == a;
    assert forall j :: 0 <= j < |s| ==> t[j] == s[j];
  }

  // ---- replacing -----------------------------------------------------------

  function Replace(s: string, from: set<char>, to: string): string {
    if s == [] then "" else (if s[0] in from then to else [s[0]]) + Replace(s[1..], from, to)
  }

  lemma {:induction false} ReplaceConcat(s: string, t: string, from: set<char>, to: string)
    ensures Replace(s + t, from, to) == Replace(s, from, to) + Replace(t, from, to)
  {
    if s == [] {
      assert s + t == t;
    } else {
      assert (s + t)[1..] == s[1..] + t;
      ReplaceConcat(s[1..], t, from, to);
    }
  }

  lemma ReplaceOne(c: char, from: set<char>, to: string)
    ensures Replace([c], from, to) == if c in from then to else [c]
  {
  }

  lemma {:induction false} Untouched(s: string, from: set<char>, to: string)
    requires forall i :: 0 <= i < |s| ==> s[i] !in from
    ensures Replace(s, from, to) == s
  {
    if s == [] {
    } else {
      Untouched(s[1..], from, to);
      assert [s[0]] + s[1..] == s;
    }
  }

  // ---- trimming ------------------------------------------------------------

  /** The White_Space characters of Unicode, which `str::trim` removes. */
  predicate IsWhite(c: char) {
    || '\t' <= c <= '\r'
    || c == ' '
    || c == '\U{85}' || c == '\U{A0}' || c == '\U{1680}'
    || c == '\U{2028}' || c == '\U{2029}' || c == '\U{202F}' || c == '\U{205F}' || c == '\U{3000}'
    || '\U{2000}' <= c <= '\U{200A}'
  }

  function TrimStart(s: string): (r: string)
    ensures |r| <= |s| && r == s[|s| - |r|..]
    ensures r != [] ==> !IsWhite(r[0])
    ensures forall i :: 0 <= i < |s| - |r| ==> IsWhite(s[i])
  {
    if s != [] && IsWhite(s[0]) then TrimStart(s[1..]) else s
  }

  function TrimEnd(s: string): (r: string)
    ensures |r| <= |s| && r == s[..|r|]
    ensures r != [] ==> !IsWhite(r[|r| - 1])
    ensures forall i :: |r| <= i < |s| ==> IsWhite(s[i])
  {
    if s != [] && IsWhite(s[|s| - 1]) then TrimEnd(s[..|s| - 1]) else s
  }

  function Trim(s: string): (r: string)
    ensures r != [] ==> !IsWhite(r[0]) && !IsWhite(r[|r| - 1])
    ensures r == [] <==> forall i :: 0 <= i < |s| ==> IsWhite(s[i])
  {
    TrimEnd(TrimStart(s))
  }

  predicate IsBlank(s: string) {
    forall i :: 0 <= i < |s| ==> IsWhite(s[i])
  }

  /** s[a..b] is s without the white space around it. */
  predicate IsTrimmed(s: string, a: nat, b: nat) {
    && a <= b <= |s| && IsBlank(s[..a]) && IsBlank(s[b..])
    && (a < b ==> !IsWhite(s[a]) && !IsWhite(s[b - 1]))
  }

  lemma TrimStartCuts(s: string) returns (a: nat)
    ensures a <= |s| && TrimStart(s) == s[a..] && IsBlank(s[..a]) && (a < |s| ==> !IsWhite(s[a]))
  {
    a := |s| - |TrimStart(s)|;
  }

  lemma TrimEndCuts(s: string) returns (b: nat)
    ensures b <= |s| && TrimEnd(s) == s[..b] && IsBlank(s[b..]) && (b > 0 ==> !IsWhite(s[b - 1]))
  {
    b := |TrimEnd(s)|;
  }

  lemma TrimParts(s: string, t: string, r: string, a: nat, n: nat)
    requires a <= |s| && t == s[a..] && n <= |t| && r == t[..n]
    requires IsBlank(s[..a]) && IsBlank(t[n..]) && (n > 0 ==> !IsWhite(t[0]) && !IsWhite(t[n - 1]))
    ensures IsTrimmed(s, a, a + n) && r == s[a..a + n]
  {
    assert t[n..] == s[a + n..] && t[..n] == s[a..a + n];
  }

  lemma TrimEndOf(s: string, t: string, a: nat) returns (b: nat)
    requires a <= |s| && t == s[a..] && IsBlank(s[..a]) && (t != [] ==> !IsWhite(t[0]))
    ensures IsTrimmed(s, a, b) && TrimEnd(t) == s[a..b]
  {
    var n := TrimEndCuts(t);
    b := a + n;
    TrimParts(s, t, TrimEnd(t), a, n);
  }

  lemma TrimSpan(s: string) returns (a: nat, b: nat)
    ensures IsTrimmed(s, a, b) && Trim(s) == s[a..b]
  {
    a := TrimStartCuts(s);
    b := TrimEndOf(s, TrimStart(s), a);
  }

  lemma TrimmedIsTrim(s: string, a: nat, b: nat)
    requires IsTrimmed(s, a, b)
    ensures Trim(s) == s[a..b]
  {
    var x, y := TrimSpan(s);
    if a < b {
      InsideTrimmed(s, a, b, x, y);
    }
    if x < y {
      InsideTrimmed(s, x, y, a, b);
    }
  }

  lemma InsideTrimmed(s: string, a: nat, b: nat, x: nat, y: nat)
    requires IsTrimmed(s, a, b) && IsTrimmed(s, x, y) && a < b
    ensures x <= a && b <= y
  {
  }

  lemma TrimIdempotent(s: string)
    ensures Trim(Trim(s)) == Trim(s)
  {
    var t := Trim(s);
    if t != [] {
      assert TrimStart(t) == t;
      assert TrimEnd(t) == t;
    }
  }
}
