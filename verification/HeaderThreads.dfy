/** Header-only thread expansion: from the matched messages up along References and
    In-Reply-To, and down to the replies, bounded and over a graph that may be cyclic. */
module HeaderThreads {
  import opened Wrappers
  import opened Text
  import opened Ordering

  datatype Message = Message(
    uid: nat, messageId: Option<string>, inReplyTo: Option<string>, references: seq<string>)

  datatype Mode = MatchedOnly | FullThread(maxMessages: nat)

  datatype Reason = QueryMatch | ThreadAncestor | ThreadDescendant

  datatype Expanded = Expanded(uid: nat, threadId: string, queryMatched: bool, reason: Reason)

  datatype Warning = LimitReached(max: nat) | MissingParent(uid: nat, messageId: string)

  datatype Expansion = Expansion(included: seq<Expanded>, warnings: seq<Warning>)

  // ---- Message-IDs in a header value ---------------------------------------

  /** value[s..e + 1] is an angle-bracketed id with no bracket inside. */
  predicate IsBracketed(value: string, s: nat, e: nat) {
    s < e < |value| && value[s] == '<' && value[e] == '>'
      && forall i :: s < i < e ==> value[i] != '<' && value[i] != '>'
  }

  /** The last `<` of value[..n] that no `>` has closed. */
  function OpenBracket(value: string, n: nat): (start: Option<nat>)
    requires n <= |value|
    ensures start.Some? ==> start.value < n && value[start.value] == '<'
    ensures start.Some? ==> forall i :: start.value < i < n ==> value[i] != '<' && value[i] != '>'
    ensures start.None? ==>
      forall s :: 0 <= s < n && value[s] == '<' ==> exists i :: s < i < n && value[i] == '>'
  {
    if n == 0 then None
    else if value[n - 1] == '<' then Some(n - 1)
    else if value[n - 1] == '>' then None
    else OpenBracket(value, n - 1)
  }

  /** The ids with the one that ends at n, if one does. */
  function IdsNext(value: string, n: nat, ids: seq<string>): seq<string>
    requires n < |value|
  {
    var start := OpenBracket(value, n);
    if value[n] == '>' && start.Some? then ids + [value[start.value..n + 1]] else ids
  }

  function BracketedIds(value: string, n: nat): seq<string>
    requires n <= |value|
  {
    if n == 0 then [] else IdsNext(value, n - 1, BracketedIds(value, n - 1))
  }

  function MessageIds(value: string): seq<string> {
    var ids := BracketedIds(value, |value|);
    if ids == [] && Trim(value) != "" then [Trim(value)] else ids
  }

  datatype Span = Span(start: nat, end: nat)

  /** All the bracketed stretches of the value, from left to right. */
  ghost predicate AreSpans(value: string, spans: seq<Span>) {
    && (forall k :: 0 <= k < |spans| ==> IsBracketed(value, spans[k].start, spans[k].end))
    && (forall j, k :: 0 <= j < k < |spans| ==> spans[j].end < spans[k].start)
    && (forall s: nat, e: nat :: IsBracketed(value, s, e) ==> Span(s, e) in spans)
  }

  ghost predicate TextsOf(value: string, spans: seq<Span>, ids: seq<string>) {
    && |ids| == |spans|
    && (forall k :: 0 <= k < |spans| ==>
         spans[k].start <= spans[k].end < |value| && ids[k] == value[spans[k].start..spans[k].end + 1])
  }

  /** The bracketed stretches that end before n. */
  ghost predicate AreSpansBefore(value: string, n: nat, spans: seq<Span>) {
    && (forall k :: 0 <= k < |spans| ==> IsBracketed(value, spans[k].start, spans[k].end) && spans[k].end < n)
    && (forall j, k :: 0 <= j < k < |spans| ==> spans[j].end < spans[k].start)
    && (forall s: nat, e: nat :: e < n && IsBracketed(value, s, e) ==> Span(s, e) in spans)
  }

  lemma SpanAdded(value: string, n: nat, spans: seq<Span>, s: nat)
    requires AreSpansBefore(value, n, spans) && IsBracketed(value, s, n)
    ensures AreSpansBefore(value, n + 1, spans + [Span(s, n)])
  {
    var all := spans + [Span(s, n)];
    forall k | 0 <= k < |spans| ensures spans[k].end < s {
      assert value[spans[k].end] == '>';
    }
    assert all[|spans|] == Span(s, n);
    forall x: nat, e: nat | e < n + 1 && IsBracketed(value, x, e) ensures Span(x, e) in all {
      if e < n {
        assert Span(x, e) in spans;
      } else {
        assert x == s;
      }
    }
  }

  /** The spans with the one that ends at n, if one does. */
  function SpansNext(value: string, n: nat, spans: seq<Span>): seq<Span>
    requires n < |value|
  {
    var start := OpenBracket(value, n);
    if value[n] == '>' && start.Some? then spans + [Span(start.value, n)] else spans
  }

  function Spans(value: string, n: nat): seq<Span>
    requires n <= |value|
  {
    if n == 0 then [] else SpansNext(value, n - 1, Spans(value, n - 1))
  }

  lemma SpansNextComplete(value: string, n: nat, spans: seq<Span>)
    requires 0 < n <= |value| && AreSpansBefore(value, n - 1, spans)
    ensures AreSpansBefore(value, n, SpansNext(value, n - 1, spans))
  {
    var start := OpenBracket(value, n - 1);
    if value[n - 1] == '>' && start.Some? {
      SpanAdded(value, n - 1, spans, start.value);
    } else {
      forall s: nat, e: nat | e < n && IsBracketed(value, s, e) ensures e < n - 1 {
      }
    }
  }

  lemma {:induction false} SpansComplete(value: string, n: nat)
    requires n <= |value|
    ensures AreSpansBefore(value, n, Spans(value, n))
  {
    if n == 0 {
    } else {
      SpansComplete(value, n - 1);
      SpansNextComplete(value, n, Spans(value, n - 1));
      assert Spans(value, n) == SpansNext(value, n - 1, Spans(value, n - 1));
    }
  }

  lemma TextsNext(value: string, n: nat, spans: seq<Span>, ids: seq<string>)
    requires 0 < n <= |value| && TextsOf(value, spans, ids)
    ensures TextsOf(value, SpansNext(value, n - 1, spans), IdsNext(value, n - 1, ids))
  {
  }

  lemma {:induction false} SpanTexts(value: string, n: nat)
    requires n <= |value|
    ensures TextsOf(value, Spans(value, n), BracketedIds(value, n))
  {
    if n == 0 {
    } else {
      SpanTexts(value, n - 1);
      TextsNext(value, n, Spans(value, n - 1), BracketedIds(value, n - 1));
      assert Spans(value, n) == SpansNext(value, n - 1, Spans(value, n - 1));
      assert BracketedIds(value, n) == IdsNext(value, n - 1, BracketedIds(value, n - 1));
    }
  }

  /** What a header value names: its bracketed stretches; if it has none, all of it but the
      white space around it; and nothing if it is blank. */
  ghost predicate NamesInOrder(value: string, ids: seq<string>) {
    exists spans: seq<Span>, a: nat, b: nat :: ReadAs(value, spans, a, b, ids)
  }

  ghost predicate ReadAs(value: string, spans: seq<Span>, a: nat, b: nat, ids: seq<string>) {
    && AreSpans(value, spans) && IsTrimmed(value, a, b)
    && (if spans != [] then TextsOf(value, spans, ids) else ids == if a < b then [value[a..b]] else [])
  }

  lemma MessageIdsInOrder(value: string)
    ensures NamesInOrder(value, MessageIds(value))
  {
    var spans := Spans(value, |value|);
    var a, b := TrimSpan(value);
    SpansComplete(value, |value|);
    SpanTexts(value, |value|);
    assert AreSpans(value, spans);
    assert ReadAs(value, spans, a, b, MessageIds(value));
  }

  ghost predicate Bracketless(value: string) {
    forall s: nat, e: nat :: !IsBracketed(value, s, e)
  }

  lemma BracketlessIds(value: string, ids: seq<string>)
    requires Bracketless(value) && NamesInOrder(value, ids)
    ensures IsBlank(value) ==> ids == []
    ensures !IsBlank(value) ==> exists a: nat, b: nat :: IsTrimmed(value, a, b) && a < b && ids == [value[a..b]]
  {
    var spans: seq<Span>, a: nat, b: nat :| ReadAs(value, spans, a, b, ids);
    assert |spans| > 0 ==> IsBracketed(value, spans[0].start, spans[0].end);
  }

  method ExtractMessageIds(value: string) returns (ids: seq<string>)
    ensures ids == MessageIds(value)
    ensures NamesInOrder(value, ids)
    ensures Bracketless(value) && IsBlank(value) ==> ids == []
    ensures Bracketless(value) && !IsBlank(value) ==>
      exists a: nat, b: nat :: IsTrimmed(value, a, b) && a < b && ids == [value[a..b]]
  {
    ids := [];
    var start: Option<nat> := None;
    for idx := 0 to |value|
      invariant ids == BracketedIds(value, idx)
      invariant start == OpenBracket(value, idx)
    {
      if value[idx] == '<' {
        start := Some(idx);
      } else if value[idx] == '>' {
        if start.Some? {
          ids := ids + [value[start.value..idx + 1]];
        }
        start := None;
      }
    }
    if ids == [] && Trim(value) != "" {
      ids := [Trim(value)];
    }
    MessageIdsInOrder(value);
    if Bracketless(value) {
      BracketlessIds(value, ids);
    }
  }

  /** The ids found are exactly the bracketed stretches of the header value. */
  lemma TextsAreSpans(value: string, n: nat, spans: seq<Span>, ids: seq<string>, id: string)
    requires AreSpansBefore(value, n, spans) && TextsOf(value, spans, ids)
    ensures id in ids <==> exists s: nat, e: nat :: e < n && IsBracketed(value, s, e) && value[s..e + 1] == id
  {
    if k :| 0 <= k < |ids| && ids[k] == id {
      assert IsBracketed(value, spans[k].start, spans[k].end);
    }
    if s: nat, e: nat :| e < n && IsBracketed(value, s, e) && value[s..e + 1] == id {
      var k :| 0 <= k < |spans| && spans[k] == Span(s, e);
      assert ids[k] == id;
    }
  }

  lemma BracketedIdsAreSpans(value: string, n: nat, id: string)
    requires n <= |value|
    ensures id in BracketedIds(value, n) <==>
      exists s: nat, e: nat :: e < n && IsBracketed(value, s, e) && value[s..e + 1] == id
  {
    SpansComplete(value, n);
    SpanTexts(value, n);
    TextsAreSpans(value, n, Spans(value, n), BracketedIds(value, n), id);
  }

  function Dedup<T(==,!new)>(s: seq<T>): (r: seq<T>)
    ensures forall x :: x in r <==> x in s
    ensures forall i, j :: 0 <= i < j < |r| ==> r[i] != r[j]
  {
    if s == [] then []
    else
      var rest := Dedup(s[..|s| - 1]);
      if s[|s| - 1] in rest then rest else rest + [s[|s| - 1]]
  }

  function AllIds(values: seq<string>): seq<string> {
    if values == [] then [] else AllIds(values[..|values| - 1]) + MessageIds(values[|values| - 1])
  }

  function ParentIds(m: Message): seq<string> {
    Dedup(AllIds(m.references) + match m.inReplyTo case Some(v) => MessageIds(v) case None => [])
  }

  ghost predicate TrimNames(value: string, id: string) {
    exists a: nat, b: nat :: IsTrimmed(value, a, b) && a < b && id == value[a..b]
  }

  /** A header value names an id. */
  ghost predicate ValueNames(value: string, id: string) {
    if Bracketless(value) then TrimNames(value, id)
    else exists s: nat, e: nat :: IsBracketed(value, s, e) && id == value[s..e + 1]
  }

  lemma TrimNamesTrim(value: string, id: string)
    ensures TrimNames(value, id) <==> id == Trim(value) != ""
  {
    var a, b := TrimSpan(value);
    if x: nat, y: nat :| IsTrimmed(value, x, y) && x < y && id == value[x..y] {
      TrimmedIsTrim(value, x, y);
    }
  }

  lemma BareValueNames(value: string, id: string)
    requires Bracketless(value)
    ensures id in MessageIds(value) <==> TrimNames(value, id)
  {
    var ids := BracketedIds(value, |value|);
    if ids != [] {
      BracketedIdsAreSpans(value, |value|, ids[0]);
    }
    TrimNamesTrim(value, id);
  }

  lemma BracketedValueNames(value: string, id: string)
    requires !Bracketless(value)
    ensures id in MessageIds(value) <==> exists s: nat, e: nat :: IsBracketed(value, s, e) && id == value[s..e + 1]
  {
    BracketedIdsAreSpans(value, |value|, id);
    var s: nat, e: nat :| IsBracketed(value, s, e);
    BracketedIdsAreSpans(value, |value|, value[s..e + 1]);
    assert MessageIds(value) == BracketedIds(value, |value|);
  }

  lemma ValueNamesIds(value: string, id: string)
    ensures id in MessageIds(value) <==> ValueNames(value, id)
  {
    if Bracketless(value) {
      BareValueNames(value, id);
    } else {
      BracketedValueNames(value, id);
    }
  }

  ghost predicate SomeNames(values: seq<string>, id: string) {
    exists value :: value in values && ValueNames(value, id)
  }

  /** Some value of the message's References, or its In-Reply-To, names the id. */
  ghost predicate MessageNames(m: Message, id: string) {
    SomeNames(m.references, id) || (m.inReplyTo.Some? && ValueNames(m.inReplyTo.value, id))
  }

  lemma SomeNamesLast(values: seq<string>, id: string)
    requires values != []
    ensures var n := |values| - 1;
      SomeNames(values, id) <==> SomeNames(values[..n], id) || ValueNames(values[n], id)
  {
    var n := |values| - 1;
    assert values == values[..n] + [values[n]];
  }

  lemma {:induction false} NamedByValues(values: seq<string>, id: string)
    ensures id in AllIds(values) <==> SomeNames(values, id)
  {
    if values == [] {
    } else {
      var n := |values| - 1;
      NamedByValues(values[..n], id);
      ValueNamesIds(values[n], id);
      SomeNamesLast(values, id);
    }
  }

  lemma ParentIdsAreNamed(m: Message, id: string)
    ensures id in ParentIds(m) <==> MessageNames(m, id)
  {
    NamedByValues(m.references, id);
    if m.inReplyTo.Some? {
      ValueNamesIds(m.inReplyTo.value, id);
    }
  }

  ghost predicate Precedes(ids: seq<string>, a: string, b: string) {
    exists p, q :: 0 <= p < q < |ids| && ids[p] == a && ids[q] == b
  }

  lemma {:induction false} DedupPrefix(s: seq<string>, n: nat)
    requires n <= |s|
    ensures Dedup(s[..n]) <= Dedup(s)
  {
    if n == |s| {
      assert s[..n] == s;
    } else {
      DedupPrefix(s[..|s| - 1], n);
      assert s[..|s| - 1][..n] == s[..n];
    }
  }

  lemma {:induction false} AllIdsPrefix(values: seq<string>, n: nat)
    requires n <= |values|
    ensures AllIds(values[..n]) <= AllIds(values)
  {
    if n == |values| {
      assert values[..n] == values;
    } else {
      AllIdsPrefix(values[..|values| - 1], n);
      assert values[..|values| - 1][..n] == values[..n];
    }
  }

  lemma DedupOrder(s: seq<string>, n: nat, a: string, b: string)
    requires n <= |s| && a in s[..n] && b !in s[..n] && b in s
    ensures Precedes(Dedup(s), a, b)
  {
    var before, all := Dedup(s[..n]), Dedup(s);
    DedupPrefix(s, n);
    var p :| 0 <= p < |before| && before[p] == a;
    var q :| 0 <= q < |all| && all[q] == b;
    assert forall i :: 0 <= i < |before| ==> before[i] == all[i];
  }

  /** Ids come in the order of the values that name them, those of In-Reply-To last. */
  lemma ParentIdsInOrder(m: Message, n: nat, a: string, b: string)
    requires n <= |m.references|
    requires SomeNames(m.references[..n], a) && !SomeNames(m.references[..n], b) && MessageNames(m, b)
    ensures Precedes(ParentIds(m), a, b)
  {
    var last := match m.inReplyTo case Some(v) => MessageIds(v) case None => [];
    NamedByValues(m.references[..n], a);
    NamedByValues(m.references[..n], b);
    AllIdsPrefix(m.references, n);
    ParentIdsAreNamed(m, b);
    DedupAppended(AllIds(m.references[..n]), AllIds(m.references), last, a, b);
  }

  lemma DedupAppended(first: seq<string>, ids: seq<string>, more: seq<string>, a: string, b: string)
    requires first <= ids && a in first && b !in first && b in Dedup(ids + more)
    ensures Precedes(Dedup(ids + more), a, b)
  {
    assert (ids + more)[..|first|] == first;
    DedupOrder(ids + more, |first|, a, b);
  }

  // ---- the link graph ------------------------------------------------------

  type Links = map<nat, seq<nat>>

  function Next(links: Links, u: nat): seq<nat> {
    if u in links then links[u] else []
  }

  /** The entry's list, created empty if absent, with v pushed. */
  function Push(links: Links, u: nat, v: nat): Links {
    links[u := Next(links, u) + [v]]
  }

  predicate Known(messages: seq<Message>, u: nat) {
    exists m :: m in messages && m.uid == u
  }

  /** The UID a Message-ID resolves to: its last bearer. */
  function Owner(messages: seq<Message>, id: string): Option<nat> {
    if messages == [] then None
    else
      var n := |messages| - 1;
      if messages[n].messageId == Some(id) then Some(messages[n].uid)
      else Owner(messages[..n], id)
  }

  /** The last message that bears the id has this UID. */
  ghost predicate Resolves(messages: seq<Message>, id: string, uid: nat) {
    exists i :: LastBearer(messages, id, i) && messages[i].uid == uid
  }

  ghost predicate LastBearer(messages: seq<Message>, id: string, i: int) {
    && 0 <= i < |messages| && messages[i].messageId == Some(id)
    && (forall j :: i < j < |messages| ==> messages[j].messageId != Some(id))
  }

  ghost predicate Borne(messages: seq<Message>, id: string) {
    exists m :: m in messages && m.messageId == Some(id)
  }

  lemma {:induction false} OwnerIsLast(messages: seq<Message>, id: string) returns (i: int)
    ensures Owner(messages, id).Some? ==> LastBearer(messages, id, i) && Owner(messages, id) == Some(messages[i].uid)
    ensures Owner(messages, id).None? ==> !Borne(messages, id)
  {
    i := |messages| - 1;
    if messages == [] || messages[i].messageId == Some(id) {
    } else {
      assert messages == messages[..i] + [messages[i]];
      i := OwnerIsLast(messages[..i], id);
    }
  }

  lemma OwnerResolves(messages: seq<Message>, id: string)
    ensures forall uid: nat :: Owner(messages, id) == Some(uid) <==> Resolves(messages, id, uid)
    ensures Owner(messages, id).Some? <==> Borne(messages, id)
  {
    var i := OwnerIsLast(messages, id);
    if Owner(messages, id).Some? {
      assert messages[i] in messages;
    }
  }

  lemma {:induction false} OwnerKnown(messages: seq<Message>, id: string)
    requires Owner(messages, id).Some?
    ensures Known(messages, Owner(messages, id).value)
  {
    var n := |messages| - 1;
    if messages[n].messageId == Some(id) {
      assert messages[n] in messages;
    } else {
      OwnerKnown(messages[..n], id);
    }
  }

  /** The header link: some message with UID child names an id that resolves to parent. */
  ghost predicate IsParent(messages: seq<Message>, child: nat, parent: nat) {
    exists id :: Names(messages, child, id) && Resolves(messages, id, parent)
  }

  ghost predicate Names(messages: seq<Message>, uid: nat, id: string) {
    exists m :: m in messages && m.uid == uid && MessageNames(m, id)
  }

  /** No message bears the id, and this is the first matched one to name it. */
  ghost predicate IsMissing(messages: seq<Message>, matched: set<nat>, uid: nat, id: string) {
    !Borne(messages, id) && FirstToName(messages, matched, uid, id)
  }

  ghost predicate FirstToName(messages: seq<Message>, matched: set<nat>, uid: nat, id: string) {
    exists i :: FirstNaming(messages, matched, id, i) && messages[i].uid == uid
  }

  ghost predicate FirstNaming(messages: seq<Message>, matched: set<nat>, id: string, i: int) {
    && 0 <= i < |messages| && messages[i].uid in matched && MessageNames(messages[i], id)
    && (forall j :: 0 <= j < i && messages[j].uid in matched ==> !MessageNames(messages[j], id))
  }

  /** One id named by one message. */
  datatype Ref = Ref(uid: nat, id: string)

  function RefsOf(uid: nat, ids: seq<string>): (r: seq<Ref>)
    ensures |r| == |ids| && forall k :: 0 <= k < |ids| ==> r[k] == Ref(uid, ids[k])
  {
    seq(|ids|, k requires 0 <= k < |ids| => Ref(uid, ids[k]))
  }

  function Refs(messages: seq<Message>): seq<Ref> {
    if messages == [] then []
    else
      var last := messages[|messages| - 1];
      Refs(messages[..|messages| - 1]) + RefsOf(last.uid, ParentIds(last))
  }

  lemma {:induction false} RefsAreNames(messages: seq<Message>, uid: nat, id: string)
    ensures Ref(uid, id) in Refs(messages) <==> Names(messages, uid, id)
  {
    if messages == [] {
    } else {
      var n := |messages| - 1;
      var last := messages[n];
      RefsAreNames(messages[..n], uid, id);
      NamesSplit(messages, uid, id);
      ParentIdsAreNamed(last, id);
      RefsOfMember(last.uid, ParentIds(last), uid, id);
    }
  }

  lemma NamesSplit(messages: seq<Message>, uid: nat, id: string)
    requires messages != []
    ensures var n := |messages| - 1;
      Names(messages, uid, id) <==>
        Names(messages[..n], uid, id) || (messages[n].uid == uid && MessageNames(messages[n], id))
  {
    var n := |messages| - 1;
    assert messages == messages[..n] + [messages[n]];
  }

  lemma RefsOfMember(of: nat, ids: seq<string>, uid: nat, id: string)
    ensures Ref(uid, id) in RefsOf(of, ids) <==> uid == of && id in ids
  {
  }

  /** What the three tables hold after the given references, in order. */
  function ParentLinks(messages: seq<Message>, refs: seq<Ref>): Links {
    if refs == [] then map[]
    else
      var links, r := ParentLinks(messages, refs[..|refs| - 1]), refs[|refs| - 1];
      match Owner(messages, r.id) case Some(p) => Push(links, r.uid, p) case None => links
  }

  function ChildLinks(messages: seq<Message>, refs: seq<Ref>): Links {
    if refs == [] then map[]
    else
      var links, r := ChildLinks(messages, refs[..|refs| - 1]), refs[|refs| - 1];
      match Owner(messages, r.id) case Some(p) => Push(links, p, r.uid) case None => links
  }

  function MissingIds(messages: seq<Message>, matched: set<nat>, refs: seq<Ref>): map<string, nat> {
    if refs == [] then map[]
    else
      var missing, r := MissingIds(messages, matched, refs[..|refs| - 1]), refs[|refs| - 1];
      if Owner(messages, r.id).None? && r.uid in matched && r.id !in missing
      then missing[r.id := r.uid] else missing
  }

  /** Some reference of c resolves to p. */
  ghost predicate Refers(messages: seq<Message>, refs: seq<Ref>, c: nat, p: nat) {
    exists id :: Ref(c, id) in refs && Owner(messages, id) == Some(p)
  }

  lemma RefersLast(messages: seq<Message>, refs: seq<Ref>, c: nat, p: nat)
    requires refs != []
    ensures var r := refs[|refs| - 1];
      Refers(messages, refs, c, p) <==>
        Refers(messages, refs[..|refs| - 1], c, p) || (r.uid == c && Owner(messages, r.id) == Some(p))
  {
    var n := |refs| - 1;
    assert refs == refs[..n] + [refs[n]];
    assert Ref(refs[n].uid, refs[n].id) == refs[n];
  }

  lemma {:induction false} LinksOfRefs(messages: seq<Message>, refs: seq<Ref>, c: nat, p: nat)
    ensures p in Next(ParentLinks(messages, refs), c) <==> Refers(messages, refs, c, p)
    ensures c in Next(ChildLinks(messages, refs), p) <==> Refers(messages, refs, c, p)
  {
    if refs == [] {
    } else {
      LinksOfRefs(messages, refs[..|refs| - 1], c, p);
      RefersLast(messages, refs, c, p);
    }
  }

  /** The references of one more message. */
  lemma {:induction false} MissingNext(messages: seq<Message>, matched: set<nat>, refs: seq<Ref>, uid: nat,
                                       ids: seq<string>)
    ensures var before, after := MissingIds(messages, matched, refs), MissingIds(messages, matched, refs + RefsOf(uid, ids));
      forall id :: if id in before then id in after && after[id] == before[id]
                   else (id in after <==> uid in matched && id in ids && Owner(messages, id).None?)
                        && (id in after ==> after[id] == uid)
  {
    if ids == [] {
      assert refs + RefsOf(uid, ids) == refs;
    } else {
      var n := |ids| - 1;
      MissingNext(messages, matched, refs, uid, ids[..n]);
      assert refs + RefsOf(uid, ids) == refs + RefsOf(uid, ids[..n]) + [Ref(uid, ids[n])];
      TablesNext(messages, matched, refs + RefsOf(uid, ids[..n]), Ref(uid, ids[n]));
      assert ids == ids[..n] + [ids[n]];
    }
  }

  /** The table of missing parents holds exactly the unresolved ids that matched messages
      name, each with the first such message. */
  lemma {:induction false} MissingOfRefs(messages: seq<Message>, matched: set<nat>, n: nat, id: string)
    requires n <= |messages|
    ensures var missing := MissingIds(messages, matched, Refs(messages[..n]));
      && (id in missing ==> Owner(messages, id).None? && FirstToName(messages[..n], matched, missing[id], id))
      && (id !in missing ==> Owner(messages, id).Some? || !NamedByMatch(messages[..n], matched, id))
  {
    if n == 0 {
    } else {
      var missing := MissingIds(messages, matched, Refs(messages[..n - 1]));
      MissingOfRefs(messages, matched, n - 1, id);
      RefsNext(messages, n - 1);
      MissingNext(messages, matched, Refs(messages[..n - 1]), messages[n - 1].uid, ParentIds(messages[n - 1]));
      ParentIdsAreNamed(messages[n - 1], id);
      if id in missing {
        FirstStays(messages, matched, n - 1, missing[id], id);
      } else if Owner(messages, id).None? {
        FirstAppears(messages, matched, n - 1, id);
      }
    }
  }

  ghost predicate NamedByMatch(messages: seq<Message>, matched: set<nat>, id: string) {
    exists m :: m in messages && m.uid in matched && MessageNames(m, id)
  }

  lemma FirstStays(messages: seq<Message>, matched: set<nat>, n: nat, uid: nat, id: string)
    requires n < |messages| && FirstToName(messages[..n], matched, uid, id)
    ensures FirstToName(messages[..n + 1], matched, uid, id)
  {
    var i :| FirstNaming(messages[..n], matched, id, i) && messages[..n][i].uid == uid;
    assert FirstNaming(messages[..n + 1], matched, id, i);
  }

  lemma FirstAppears(messages: seq<Message>, matched: set<nat>, n: nat, id: string)
    requires n < |messages| && !NamedByMatch(messages[..n], matched, id)
    ensures messages[n].uid in matched && MessageNames(messages[n], id) ==>
      FirstToName(messages[..n + 1], matched, messages[n].uid, id)
    ensures !(messages[n].uid in matched && MessageNames(messages[n], id)) ==>
      !NamedByMatch(messages[..n + 1], matched, id)
  {
    assert messages[..n + 1] == messages[..n] + [messages[n]];
    if messages[n].uid in matched && MessageNames(messages[n], id) {
      assert FirstNaming(messages[..n + 1], matched, id, n);
    }
  }

  lemma RefsNext(messages: seq<Message>, i: nat)
    requires i < |messages|
    ensures Refs(messages[..i + 1]) == Refs(messages[..i]) + RefsOf(messages[i].uid, ParentIds(messages[i]))
  {
    assert messages[..i + 1][..i] == messages[..i];
  }

  lemma RefsShift(refs: seq<Ref>, uid: nat, ids: seq<string>)
    requires ids != []
    ensures refs + RefsOf(uid, ids) == refs + [Ref(uid, ids[0])] + RefsOf(uid, ids[1..])
  {
  }

  lemma TablesNext(messages: seq<Message>, matched: set<nat>, refs: seq<Ref>, r: Ref)
    ensures ParentLinks(messages, refs + [r]) ==
      match Owner(messages, r.id) { case Some(p) => Push(ParentLinks(messages, refs), r.uid, p) case None => ParentLinks(messages, refs) }
    ensures ChildLinks(messages, refs + [r]) ==
      match Owner(messages, r.id) { case Some(p) => Push(ChildLinks(messages, refs), p, r.uid) case None => ChildLinks(messages, refs) }
    ensures MissingIds(messages, matched, refs + [r]) ==
      var missing := MissingIds(messages, matched, refs);
      if Owner(messages, r.id).None? && r.uid in matched && r.id !in missing then missing[r.id := r.uid] else missing
  {
  }

  method BuildLinks(messages: seq<Message>, matched: set<nat>)
    returns (parents: Links, children: Links, missing: map<string, nat>)
    ensures parents == ParentLinks(messages, Refs(messages))
    ensures children == ChildLinks(messages, Refs(messages))
    ensures forall c, p :: p in Next(parents, c) <==> IsParent(messages, c, p)
    ensures forall c, p :: c in Next(children, p) <==> IsParent(messages, c, p)
    ensures forall id :: id in missing ==> IsMissing(messages, matched, missing[id], id)
    ensures forall id :: NamedByMatch(messages, matched, id) && !Borne(messages, id) ==> id in missing
  {
    parents, children, missing := map[], map[], map[];
    ghost var refs := [];
    for i := 0 to |messages|
      invariant refs == Refs(messages[..i])
      invariant parents == ParentLinks(messages, refs)
      invariant children == ChildLinks(messages, refs)
      invariant missing == MissingIds(messages, matched, refs)
    {
      var uid, ids := messages[i].uid, ParentIds(messages[i]);
      RefsNext(messages, i);
      for j := 0 to |ids|
        invariant refs + RefsOf(uid, ids[j..]) == Refs(messages[..i + 1])
        invariant parents == ParentLinks(messages, refs)
        invariant children == ChildLinks(messages, refs)
        invariant missing == MissingIds(messages, matched, refs)
      {
        TablesNext(messages, matched, refs, Ref(uid, ids[j]));
        RefsShift(refs, uid, ids[j..]);
        assert ids[j..][1..] == ids[j + 1..];
        refs := refs + [Ref(uid, ids[j])];
        match Owner(messages, ids[j]) {
          case Some(parent) =>
            parents := Push(parents, uid, parent);
            children := Push(children, parent, uid);
          case None =>
            if uid in matched && ids[j] !in missing {
              missing := missing[ids[j] := uid];
            }
        }
      }
    }
    assert messages[..|messages|] == messages;
    TablesMeanLinks(messages, matched);
  }

  lemma TablesMeanLinks(messages: seq<Message>, matched: set<nat>)
    ensures forall c, p :: p in Next(ParentLinks(messages, Refs(messages)), c) <==> IsParent(messages, c, p)
    ensures forall c, p :: c in Next(ChildLinks(messages, Refs(messages)), p) <==> IsParent(messages, c, p)
    ensures forall id :: id in MissingIds(messages, matched, Refs(messages)) ==>
      IsMissing(messages, matched, MissingIds(messages, matched, Refs(messages))[id], id)
    ensures forall id :: NamedByMatch(messages, matched, id) && !Borne(messages, id) ==>
      id in MissingIds(messages, matched, Refs(messages))
  {
    var refs := Refs(messages);
    forall c, p
      ensures p in Next(ParentLinks(messages, refs), c) <==> IsParent(messages, c, p)
      ensures c in Next(ChildLinks(messages, refs), p) <==> IsParent(messages, c, p)
    {
      LinksOfRefs(messages, refs, c, p);
      RefersIsParent(messages, c, p);
    }
    forall id
      ensures id in MissingIds(messages, matched, refs) ==>
        IsMissing(messages, matched, MissingIds(messages, matched, refs)[id], id)
      ensures NamedByMatch(messages, matched, id) && !Borne(messages, id) ==> id in MissingIds(messages, matched, refs)
    {
      assert messages[..|messages|] == messages;
      MissingOfRefs(messages, matched, |messages|, id);
      OwnerResolves(messages, id);
    }
  }

  lemma RefersIsParent(messages: seq<Message>, c: nat, p: nat)
    ensures Refers(messages, Refs(messages), c, p) <==> IsParent(messages, c, p)
  {
    forall id
      ensures Ref(c, id) in Refs(messages) && Owner(messages, id) == Some(p) <==>
        Names(messages, c, id) && Resolves(messages, id, p)
    {
      RefsAreNames(messages, c, id);
      OwnerResolves(messages, id);
    }
  }

  // ---- the bounded walk ----------------------------------------------------

  /** A walk of at least one link from a source. */
  ghost predicate IsPath(links: Links, sources: set<nat>, path: seq<nat>) {
    && |path| >= 2
    && path[0] in sources
    && forall i :: 0 <= i < |path| - 1 ==> path[i + 1] in Next(links, path[i])
  }

  ghost predicate Reaches(links: Links, sources: set<nat>, v: nat) {
    exists path :: IsPath(links, sources, path) && path[|path| - 1] == v
  }

  lemma ReachesByOneMore(links: Links, sources: set<nat>, u: nat, v: nat)
    requires u in sources || Reaches(links, sources, u)
    requires v in Next(links, u)
    ensures Reaches(links, sources, v)
  {
    if u in sources {
      assert IsPath(links, sources, [u, v]);
    } else {
      var path :| IsPath(links, sources, path) && path[|path| - 1] == u;
      assert IsPath(links, sources, path + [v]);
    }
  }

  /** A set closed under the links holds the whole of every path. */
  lemma {:induction false} ClosedHoldsPaths(links: Links, sources: set<nat>, closed: set<nat>, path: seq<nat>)
    requires forall u, v :: (u in sources || u in closed) && v in Next(links, u) ==> v in closed
    requires IsPath(links, sources, path)
    ensures path[|path| - 1] in closed
    decreases |path|
  {
    if |path| <= 2 {
    } else {
      ClosedHoldsPaths(links, sources, closed, path[..|path| - 1]);
    }
  }

  function Targets(links: Links): set<nat> {
    set u, v | u in links && v in links[u] :: v
  }

  lemma NextInTargets(links: Links, u: nat)
    ensures forall v :: v in Next(links, u) ==> v in Targets(links)
  {
  }

  method SeedQueue(s: set<nat>) returns (queue: seq<nat>)
    ensures forall u :: u in queue <==> u in s
  {
    queue := [];
    var rest := s;
    while rest != {}
      invariant rest <= s
      invariant forall u :: u in queue <==> u in s && u !in rest
    {
      var u :| u in rest;
      rest := rest - {u};
      queue := queue + [u];
    }
  }

  predicate Full(max: Option<nat>, included: set<nat>) {
    max.Some? && |included| >= max.value
  }

  /** Every visited UID outside the queue has had its links followed, up to the limit. */
  ghost predicate Followed(links: Links, sources: set<nat>, reached: set<nat>, queue: seq<nat>) {
    forall u, v :: (u in sources || u in reached) && u !in queue && v in Next(links, u) ==> v in reached
  }

  /** A linked UID that the limit kept out. */
  ghost predicate Omits(links: Links, sources: set<nat>, reached: set<nat>, included: set<nat>) {
    exists u, v :: (u in sources || u in reached) && v in Next(links, u) && v !in included
  }

  function Bound(included: set<nat>, max: Option<nat>): nat {
    if max.Some? && max.value > |included| then max.value else |included|
  }

  /** What holds between the steps of a walk. */
  ghost predicate Walking(links: Links, matched: set<nat>, before: set<nat>, max: Option<nat>, limitBefore: bool,
                          reached: set<nat>, included: set<nat>, limit: bool, queue: seq<nat>)
  {
    && included == before + reached
    && reached <= Targets(links)
    && (forall u :: u in queue ==> u in matched || u in reached)
    && (forall v :: v in reached ==> Reaches(links, matched, v))
    && (!limit ==> !limitBefore && Followed(links, matched, reached, queue))
    && (limitBefore ==> limit)
    && (limit && !limitBefore ==> Full(max, included) && Omits(links, matched, reached, included))
    && (max.Some? ==> |included| <= Bound(before, max))
    && (Full(max, before) ==> included == before)
  }

  ghost predicate TakenTo(out: seq<nat>, i: nat, reached: set<nat>)
    requires i <= |out|
  {
    forall k :: 0 <= k < i ==> out[k] in reached
  }

  lemma TakenNext(out: seq<nat>, i: nat, reached: set<nat>, limit: bool)
    requires i < |out| && (!limit ==> TakenTo(out, i, reached))
    ensures !limit ==> TakenTo(out, i + 1, reached + {out[i]})
  {
  }

  lemma WalkOmits(links: Links, matched: set<nat>, before: set<nat>, max: Option<nat>, limitBefore: bool,
                  reached: set<nat>, included: set<nat>, limit: bool, queue: seq<nat>, u: nat, v: nat)
    requires Walking(links, matched, before, max, limitBefore, reached, included, limit, queue)
    requires u in queue && v in Next(links, u) && v !in included && Full(max, included)
    ensures Walking(links, matched, before, max, limitBefore, reached, included, true, queue)
  {
  }

  lemma WalkTakes(links: Links, matched: set<nat>, before: set<nat>, max: Option<nat>, limitBefore: bool,
                  reached: set<nat>, included: set<nat>, limit: bool, queue: seq<nat>, u: nat, v: nat)
    requires Walking(links, matched, before, max, limitBefore, reached, included, limit, [u] + queue)
    requires v in Next(links, u) && (v in included || !Full(max, included))
    ensures Walking(links, matched, before, max, limitBefore, reached + {v}, included + {v}, limit, [u] + (queue + [v]))
  {
    assert u in [u] + queue;
    ReachesByOneMore(links, matched, u, v);
    NextInTargets(links, u);
    assert before + reached + {v} == before + (reached + {v});
    if limit && !limitBefore {
      assert included + {v} == included;
      var x, y :| (x in matched || x in reached) && y in Next(links, x) && y !in included;
      assert Omits(links, matched, reached + {v}, included);
    }
    if v in included {
      assert included + {v} == included;
    }
  }

  lemma WalkPops(links: Links, matched: set<nat>, before: set<nat>, max: Option<nat>, limitBefore: bool,
                 reached: set<nat>, included: set<nat>, limit: bool, queue: seq<nat>, u: nat)
    requires Walking(links, matched, before, max, limitBefore, reached, included, limit, [u] + queue)
    requires !limit ==> forall v :: v in Next(links, u) ==> v in reached
    ensures Walking(links, matched, before, max, limitBefore, reached, included, limit, queue)
  {
  }

  lemma LessIsLeft(all: set<nat>, a: set<nat>, b: set<nat>)
    requires a <= b <= all
    ensures a == b || |all - b| < |all - a|
  {
    if a != b {
      var x :| x in b && x !in a;
      assert all - b <= all - a - {x};
      SubsetSize(all - b, all - a - {x});
    }
  }

  /** The inner loop of a walk: the links of one UID. */
  method FollowLinks(links: Links, matched: set<nat>, ghost before: set<nat>, max: Option<nat>, ghost limitBefore: bool,
                     uid: nat, reached0: set<nat>, included0: set<nat>, limit0: bool, queue0: seq<nat>)
    returns (reached: set<nat>, included: set<nat>, limit: bool, queue: seq<nat>)
    requires Walking(links, matched, before, max, limitBefore, reached0, included0, limit0, [uid] + queue0)
    ensures Walking(links, matched, before, max, limitBefore, reached, included, limit, queue)
    ensures |Targets(links) - reached| < |Targets(links) - reached0| || (reached == reached0 && queue == queue0)
  {
    reached, included, limit, queue := reached0, included0, limit0, queue0;
    var out := Next(links, uid);
    for i := 0 to |out|
      invariant reached0 <= reached && (reached == reached0 ==> queue == queue0)
      invariant Walking(links, matched, before, max, limitBefore, reached, included, limit, [uid] + queue)
      invariant !limit ==> TakenTo(out, i, reached)
    {
      var v := out[i];
      if v in reached {
      } else if v !in included && Full(max, included) {
        WalkOmits(links, matched, before, max, limitBefore, reached, included, limit, [uid] + queue, uid, v);
        limit := true;
      } else {
        WalkTakes(links, matched, before, max, limitBefore, reached, included, limit, queue, uid, v);
        TakenNext(out, i, reached, limit);
        reached, included, queue := reached + {v}, included + {v}, queue + [v];
      }
    }
    WalkPops(links, matched, before, max, limitBefore, reached, included, limit, queue, uid);
    LessIsLeft(Targets(links), reached0, reached);
  }

  lemma WalkReachesAll(links: Links, matched: set<nat>, reached: set<nat>)
    requires Followed(links, matched, reached, [])
    ensures forall v :: Reaches(links, matched, v) ==> v in reached
  {
    forall v | Reaches(links, matched, v) ensures v in reached {
      var path :| IsPath(links, matched, path) && path[|path| - 1] == v;
      ClosedHoldsPaths(links, matched, reached, path);
    }
  }

  lemma WalkStarts(links: Links, matched: set<nat>, before: set<nat>, max: Option<nat>, limitBefore: bool, queue: seq<nat>)
    requires forall u :: u in queue <==> u in matched
    ensures Walking(links, matched, before, max, limitBefore, {}, before, limitBefore, queue)
  {
    assert before + {} == before;
  }

  method DrainQueue(links: Links, matched: set<nat>, before: set<nat>, max: Option<nat>, limitBefore: bool)
    returns (reached: set<nat>, included: set<nat>, limit: bool)
    requires matched <= before
    ensures Walking(links, matched, before, max, limitBefore, reached, included, limit, [])
  {
    reached, included, limit := {}, before, limitBefore;
    var queue := SeedQueue(matched);
    WalkStarts(links, matched, before, max, limitBefore, queue);
    while queue != []
      invariant Walking(links, matched, before, max, limitBefore, reached, included, limit, queue)
      decreases |Targets(links) - reached|, |queue|
    {
      var uid := queue[0];
      assert queue == [uid] + queue[1..];
      reached, included, limit, queue :=
        FollowLinks(links, matched, before, max, limitBefore, uid, reached, included, limit, queue[1..]);
    }
  }

  lemma WalkEnds(links: Links, matched: set<nat>, before: set<nat>, max: Option<nat>, limitBefore: bool,
                 reached: set<nat>, included: set<nat>, limit: bool)
    requires Walking(links, matched, before, max, limitBefore, reached, included, limit, [])
    ensures included == before + reached
    ensures forall v :: v in reached ==> Reaches(links, matched, v)
    ensures !limit ==> !limitBefore && forall v :: Reaches(links, matched, v) ==> v in reached
    ensures limit && !limitBefore ==> Full(max, included) && Omits(links, matched, reached, included)
    ensures limitBefore ==> limit
    ensures max.None? ==> limit == limitBefore
    ensures max.Some? ==> |included| <= Bound(before, max)
    ensures Full(max, before) ==> included == before
  {
    if !limit {
      WalkReachesAll(links, matched, reached);
    }
  }

  /** One breadth-first walk; it runs up the parent links, then down the
      child links. The seeds come out of a hash set, so in any order. */
  method Walk(links: Links, matched: set<nat>, before: set<nat>, max: Option<nat>, limitBefore: bool)
    returns (reached: set<nat>, included: set<nat>, limit: bool)
    requires matched <= before
    ensures included == before + reached
    ensures forall v :: v in reached ==> Reaches(links, matched, v)
    ensures !limit ==> !limitBefore && forall v :: Reaches(links, matched, v) ==> v in reached
    ensures limit && !limitBefore ==> Full(max, included) && Omits(links, matched, reached, included)
    ensures limitBefore ==> limit
    ensures max.None? ==> limit == limitBefore
    ensures max.Some? ==> |included| <= Bound(before, max)
    ensures Full(max, before) ==> included == before
  {
    reached, included, limit := DrainQueue(links, matched, before, max, limitBefore);
    WalkEnds(links, matched, before, max, limitBefore, reached, included, limit);
  }

  // ---- thread ids ----------------------------------------------------------

  function FirstParent(parents: Links, u: nat): Option<nat> {
    if Next(parents, u) == [] then None else Some(Next(parents, u)[0])
  }

  /** Where following first parents stops: at a message without one, or at the first
      message met twice. */
  function Settle(parents: Links, u: nat, visited: set<nat>): nat
    decreases parents.Keys - visited
  {
    if u in visited then u
    else match FirstParent(parents, u)
      case Some(p) => Settle(parents, p, visited + {u})
      case None => u
  }

  function ByUid(messages: seq<Message>, u: nat): (r: Option<Message>)
    ensures r.Some? <==> Known(messages, u)
    ensures r.Some? ==> r.value in messages && r.value.uid == u
  {
    if messages == [] then None
    else
      var n := |messages| - 1;
      assert messages == messages[..n] + [messages[n]];
      if messages[n].uid == u then Some(messages[n]) else ByUid(messages[..n], u)
  }

  function MessageIdAt(messages: seq<Message>, u: nat): Option<string> {
    match ByUid(messages, u) case Some(m) => m.messageId case None => None
  }

  ghost predicate LastOf(messages: seq<Message>, u: nat, i: int) {
    && 0 <= i < |messages| && messages[i].uid == u
    && (forall j :: i < j < |messages| ==> messages[j].uid != u)
  }

  /** The last message with this UID has this Message-ID. */
  ghost predicate BearsId(messages: seq<Message>, u: nat, id: string) {
    exists i :: LastOf(messages, u, i) && messages[i].messageId == Some(id)
  }

  ghost predicate Anonymous(messages: seq<Message>, u: nat) {
    forall id :: !BearsId(messages, u, id)
  }

  lemma {:induction false} ByUidIsLast(messages: seq<Message>, u: nat) returns (i: int)
    ensures ByUid(messages, u).Some? ==> LastOf(messages, u, i) && ByUid(messages, u) == Some(messages[i])
    ensures ByUid(messages, u).None? ==> forall j :: 0 <= j < |messages| ==> messages[j].uid != u
  {
    i := |messages| - 1;
    if messages == [] || messages[i].uid == u {
    } else {
      i := ByUidIsLast(messages[..i], u);
    }
  }

  lemma MessageIdIsBorne(messages: seq<Message>, u: nat)
    ensures forall id :: MessageIdAt(messages, u) == Some(id) <==> BearsId(messages, u, id)
  {
    var i := ByUidIsLast(messages, u);
  }

  function ThreadId(messages: seq<Message>, parents: Links, u: nat): string {
    match MessageIdAt(messages, Settle(parents, u, {}))
    case Some(id) => id
    case None =>
      match MessageIdAt(messages, u)
      case Some(id) => id
      case None => "uid:" + Decimal(u)
  }

  method ThreadIdFor(messages: seq<Message>, parents: Links, uid: nat) returns (id: string)
    ensures id == ThreadId(messages, parents, uid)
    ensures var top := Settle(parents, uid, {});
      && (forall own :: BearsId(messages, top, own) ==> id == own)
      && (Anonymous(messages, top) ==> forall own :: BearsId(messages, uid, own) ==> id == own)
      && (Anonymous(messages, top) && Anonymous(messages, uid) ==> id == "uid:" + Decimal(uid))
  {
    MessageIdIsBorne(messages, Settle(parents, uid, {}));
    MessageIdIsBorne(messages, uid);
    var current, visited := uid, {};
    while current !in visited
      invariant Settle(parents, current, visited) == Settle(parents, uid, {})
      decreases parents.Keys - visited, current !in visited
    {
      visited := visited + {current};
      match FirstParent(parents, current) {
        case Some(p) => current := p;
        case None => break;
      }
    }
    match MessageIdAt(messages, current) {
      case Some(own) => return own;
      case None =>
        match MessageIdAt(messages, uid) {
          case Some(own) => return own;
          case None => return "uid:" + Decimal(uid);
        }
    }
  }

  // ---- the expansion -------------------------------------------------------

  /** Each message of the path is a parent of the one before. */
  ghost predicate Ascends(messages: seq<Message>, path: seq<nat>) {
    |path| >= 2 && forall i :: 0 <= i < |path| - 1 ==> IsParent(messages, path[i], path[i + 1])
  }

  /** Each message of the path is a reply to the one before. */
  ghost predicate Descends(messages: seq<Message>, path: seq<nat>) {
    |path| >= 2 && forall i :: 0 <= i < |path| - 1 ==> IsParent(messages, path[i + 1], path[i])
  }

  ghost predicate Ancestor(messages: seq<Message>, matched: set<nat>, u: nat) {
    exists path :: Ascends(messages, path) && path[0] in matched && path[|path| - 1] == u
  }

  ghost predicate Descendant(messages: seq<Message>, matched: set<nat>, u: nat) {
    exists path :: Descends(messages, path) && path[0] in matched && path[|path| - 1] == u
  }

  lemma KinByLinks(messages: seq<Message>, matched: set<nat>)
    ensures forall u :: Reaches(ParentLinks(messages, Refs(messages)), matched, u) <==> Ancestor(messages, matched, u)
    ensures forall u :: Reaches(ChildLinks(messages, Refs(messages)), matched, u) <==> Descendant(messages, matched, u)
  {
    TablesMeanLinks(messages, matched);
    forall path
      ensures IsPath(ParentLinks(messages, Refs(messages)), matched, path) <==> Ascends(messages, path) && path[0] in matched
      ensures IsPath(ChildLinks(messages, Refs(messages)), matched, path) <==> Descends(messages, path) && path[0] in matched
    {
    }
  }

  // ---- the thread id of a message with at most one parent -------------------------

  ghost predicate IsRoot(messages: seq<Message>, u: nat) {
    forall p :: !IsParent(messages, u, p)
  }

  ghost predicate OnlyParent(messages: seq<Message>, u: nat, p: nat) {
    u != p && IsParent(messages, u, p) && forall q :: IsParent(messages, u, q) ==> q == p
  }

  /** A message that names no other has its own id, or else one made of its UID; a reply to
      such a message has the id of that message. */
  ghost predicate Threaded(messages: seq<Message>, u: nat, threadId: string) {
    && (IsRoot(messages, u) ==>
         && (forall id :: BearsId(messages, u, id) ==> threadId == id)
         && (Anonymous(messages, u) ==> threadId == "uid:" + Decimal(u)))
    && (forall p, id :: OnlyParent(messages, u, p) && IsRoot(messages, p) && BearsId(messages, p, id) ==> threadId == id)
  }

  lemma NoneIn<T>(s: seq<T>)
    ensures s == [] || s[0] in s
  {
  }

  lemma RootSettles(messages: seq<Message>, u: nat, visited: set<nat>)
    requires IsRoot(messages, u)
    ensures Settle(ParentLinks(messages, Refs(messages)), u, visited) == u
  {
    TablesMeanLinks(messages, {});
    NoneIn(Next(ParentLinks(messages, Refs(messages)), u));
  }

  lemma OnlyParentSettles(messages: seq<Message>, u: nat, p: nat)
    requires OnlyParent(messages, u, p) && IsRoot(messages, p)
    ensures Settle(ParentLinks(messages, Refs(messages)), u, {}) == p
  {
    var parents := ParentLinks(messages, Refs(messages));
    TablesMeanLinks(messages, {});
    assert p in Next(parents, u);
    assert Next(parents, u)[0] in Next(parents, u);
    RootSettles(messages, p, {} + {u});
  }

  lemma ThreadIdThreads(messages: seq<Message>, u: nat)
    ensures Threaded(messages, u, ThreadId(messages, ParentLinks(messages, Refs(messages)), u))
  {
    MessageIdIsBorne(messages, u);
    if IsRoot(messages, u) {
      RootSettles(messages, u, {});
    }
    forall p, id | OnlyParent(messages, u, p) && IsRoot(messages, p) && BearsId(messages, p, id)
      ensures ThreadId(messages, ParentLinks(messages, Refs(messages)), u) == id
    {
      OnlyParentSettles(messages, u, p);
      MessageIdIsBorne(messages, p);
    }
  }

  ghost predicate Listed(items: seq<Expanded>, u: nat) {
    exists i :: 0 <= i < |items| && items[i].uid == u
  }

  function MaxMessages(mode: Mode): Option<nat> {
    match mode case MatchedOnly => None case FullThread(n) => Some(n)
  }

  function Tag(matched: set<nat>, ancestors: set<nat>, u: nat): Reason {
    if u in matched then QueryMatch else if u in ancestors then ThreadAncestor else ThreadDescendant
  }

  function Item(messages: seq<Message>, parents: Links, matched: set<nat>, ancestors: set<nat>, u: nat): Expanded {
    Expanded(u, ThreadId(messages, parents, u), u in matched, Tag(matched, ancestors, u))
  }

  function Items(messages: seq<Message>, parents: Links, matched: set<nat>, ancestors: set<nat>, order: seq<nat>)
    : seq<Expanded>
  {
    if order == [] then []
    else
      var n := |order| - 1;
      var items := Items(messages, parents, matched, ancestors, order[..n]);
      if Known(messages, order[n]) then items + [Item(messages, parents, matched, ancestors, order[n])] else items
  }

  /** A listing of the known UIDs among some, in increasing order. */
  ghost predicate IsListing(items: seq<Expanded>, messages: seq<Message>, parents: Links, matched: set<nat>,
                            ancestors: set<nat>, order: seq<nat>)
  {
    && |items| <= |order|
    && (forall i, j :: 0 <= i < j < |items| ==> items[i].uid < items[j].uid)
    && (forall i :: 0 <= i < |items| ==> items[i].uid in order)
    && (forall i :: 0 <= i < |items| ==> items[i] == Item(messages, parents, matched, ancestors, items[i].uid))
    && (forall u :: Listed(items, u) <==> u in order && Known(messages, u))
  }

  lemma ListedGrows(items: seq<Expanded>, item: Expanded, u: nat)
    ensures Listed(items + [item], u) <==> Listed(items, u) || u == item.uid
  {
    var all := items + [item];
    assert all[|items|] == item;
    if i :| 0 <= i < |items| && items[i].uid == u {
      assert all[i].uid == u;
    }
  }

  lemma ListingGrows(items: seq<Expanded>, messages: seq<Message>, parents: Links, matched: set<nat>,
                     ancestors: set<nat>, order: seq<nat>, u: nat)
    requires IsListing(items, messages, parents, matched, ancestors, order) && forall v :: v in order ==> v < u
    requires Known(messages, u)
    ensures IsListing(items + [Item(messages, parents, matched, ancestors, u)], messages, parents, matched, ancestors,
      order + [u])
  {
    var item := Item(messages, parents, matched, ancestors, u);
    forall v ensures Listed(items + [item], v) <==> v in order + [u] && Known(messages, v) {
      ListedGrows(items, item, v);
    }
  }

  lemma {:induction false} ItemsListed(messages: seq<Message>, parents: Links, matched: set<nat>, ancestors: set<nat>,
                                       order: seq<nat>)
    requires Increasing(order)
    ensures IsListing(Items(messages, parents, matched, ancestors, order), messages, parents, matched, ancestors, order)
  {
    if order == [] {
    } else {
      var n := |order| - 1;
      var before := Items(messages, parents, matched, ancestors, order[..n]);
      ItemsListed(messages, parents, matched, ancestors, order[..n]);
      assert order == order[..n] + [order[n]];
      if Known(messages, order[n]) {
        ListingGrows(before, messages, parents, matched, ancestors, order[..n], order[n]);
      }
    }
  }

  method Listing(messages: seq<Message>, matched: set<nat>, parents: Links, ancestors: set<nat>, included: set<nat>)
    returns (items: seq<Expanded>)
    ensures forall i, j :: 0 <= i < j < |items| ==> items[i].uid < items[j].uid
    ensures forall u :: Listed(items, u) <==> u in included && Known(messages, u)
    ensures forall i :: 0 <= i < |items| ==> items[i] == Item(messages, parents, matched, ancestors, items[i].uid)
    ensures |items| <= |included|
  {
    items := [];
    var order := SeedQueue(included);
    order := SortNats(order);
    for k := 0 to |order|
      invariant items == Items(messages, parents, matched, ancestors, order[..k])
    {
      var uid := order[k];
      assert order[..k + 1][..k] == order[..k];
      if ByUid(messages, uid).Some? {
        var id := ThreadIdFor(messages, parents, uid);
        items := items + [Expanded(uid, id, uid in matched, Tag(matched, ancestors, uid))];
      }
    }
    assert order[..|order|] == order;
    ItemsListed(messages, parents, matched, ancestors, order);
    IncreasingSize(order, included);
  }

  ghost predicate LimitWarned(r: Expansion) {
    exists n :: LimitReached(n) in r.warnings
  }

  /** A message linked to a listed one that is not listed itself. */
  ghost predicate LeftOut(messages: seq<Message>, items: seq<Expanded>, u: nat, v: nat) {
    (IsParent(messages, u, v) || IsParent(messages, v, u)) && Listed(items, u) && Known(messages, v) && !Listed(items, v)
  }

  lemma IsParentKnown(messages: seq<Message>, child: nat, parent: nat)
    requires IsParent(messages, child, parent)
    ensures Known(messages, child) && Known(messages, parent)
  {
    var id :| Names(messages, child, id) && Resolves(messages, id, parent);
    OwnerResolves(messages, id);
    OwnerKnown(messages, id);
  }

  lemma OmittedIsLeftOut(messages: seq<Message>, matched: set<nat>, links: Links, reached: set<nat>, included: set<nat>,
                         items: seq<Expanded>)
    requires links == ParentLinks(messages, Refs(messages)) || links == ChildLinks(messages, Refs(messages))
    requires matched <= included && reached <= included
    requires forall u :: Listed(items, u) <==> u in included && Known(messages, u)
    requires Omits(links, matched, reached, included)
    ensures exists u, v :: LeftOut(messages, items, u, v)
  {
    TablesMeanLinks(messages, matched);
    var u, v :| (u in matched || u in reached) && v in Next(links, u) && v !in included;
    if links == ParentLinks(messages, Refs(messages)) {
      IsParentKnown(messages, u, v);
    } else {
      IsParentKnown(messages, v, u);
    }
    assert LeftOut(messages, items, u, v);
  }

  method MissingWarnings(missing: map<string, nat>) returns (warnings: seq<Warning>)
    ensures forall w :: w in warnings <==>
      w.MissingParent? && w.messageId in missing && w.uid == missing[w.messageId]
    ensures forall i :: 0 <= i < |warnings| ==> warnings[i].MissingParent?
    ensures forall i, j :: 0 <= i < j < |warnings| ==> StringLess(warnings[i].messageId, warnings[j].messageId)
  {
    var ids: seq<string> := [];
    var rest := missing.Keys;
    while rest != {}
      invariant rest <= missing.Keys
      invariant forall id :: id in ids <==> id in missing && id !in rest
    {
      var id :| id in rest;
      rest := rest - {id};
      ids := ids + [id];
    }
    ids := SortStrings(ids);
    warnings := [];
    for k := 0 to |ids|
      invariant forall w :: w in warnings <==>
        w.MissingParent? && w.messageId in ids[..k] && w.uid == missing[w.messageId]
      invariant |warnings| == k
      invariant forall i :: 0 <= i < k ==> warnings[i].MissingParent? && warnings[i].messageId == ids[i]
    {
      warnings := warnings + [MissingParent(missing[ids[k]], ids[k])];
    }
  }

  /** An item carries its thread id and the tags the walks justify. */
  ghost predicate Tagged(messages: seq<Message>, matched: set<nat>, complete: bool, item: Expanded) {
    && item.threadId == ThreadId(messages, ParentLinks(messages, Refs(messages)), item.uid)
    && Threaded(messages, item.uid, item.threadId)
    && (item.queryMatched <==> item.uid in matched)
    && (item.reason == QueryMatch <==> item.uid in matched)
    && (item.reason == ThreadAncestor ==> Ancestor(messages, matched, item.uid))
    && (item.reason == ThreadDescendant ==> Descendant(messages, matched, item.uid))
    && (item.reason == ThreadDescendant && complete ==> !Ancestor(messages, matched, item.uid))
  }

  ghost predicate Related(messages: seq<Message>, matched: set<nat>, u: nat) {
    Ancestor(messages, matched, u) || Descendant(messages, matched, u)
  }

  /** What the listing holds; limit says whether the bound cut a walk short. */
  ghost predicate Collected(messages: seq<Message>, matched: set<nat>, mode: Mode, limit: bool, items: seq<Expanded>) {
    && (forall i, j :: 0 <= i < j < |items| ==> items[i].uid < items[j].uid)
    && |items| <= Bound(matched, MaxMessages(mode))
    && (forall u :: u in matched && Known(messages, u) ==> Listed(items, u))
    && (forall u :: Listed(items, u) ==> Known(messages, u))
    && (forall u :: Listed(items, u) ==> u in matched || (mode.FullThread? && Related(messages, matched, u)))
    && (mode.FullThread? && !limit ==>
         forall u :: Known(messages, u) && Related(messages, matched, u) ==> Listed(items, u))
    && (forall i :: 0 <= i < |items| ==> Tagged(messages, matched, !limit, items[i]))
    && (mode.FullThread? && |matched| > mode.maxMessages ==> limit)
    && (mode.FullThread? && limit ==> |matched| > mode.maxMessages || exists u, v :: LeftOut(messages, items, u, v))
  }

  lemma AllTagged(messages: seq<Message>, matched: set<nat>, ancestors: set<nat>, descendants: set<nat>,
                  complete: bool, items: seq<Expanded>)
    requires forall i :: 0 <= i < |items| ==>
      items[i] == Item(messages, ParentLinks(messages, Refs(messages)), matched, ancestors, items[i].uid)
    requires forall u :: Listed(items, u) ==> u in matched || u in ancestors || u in descendants
    requires forall u :: u in ancestors ==> Ancestor(messages, matched, u)
    requires forall u :: u in descendants ==> Descendant(messages, matched, u)
    requires complete && (ancestors != {} || descendants != {}) ==>
      forall u :: Ancestor(messages, matched, u) ==> u in ancestors
    ensures forall i :: 0 <= i < |items| ==> Tagged(messages, matched, complete, items[i])
  {
    forall i | 0 <= i < |items| ensures Threaded(messages, items[i].uid, items[i].threadId) {
      ThreadIdThreads(messages, items[i].uid);
    }
  }

  /** What the two walks leave. */
  ghost predicate Walked(messages: seq<Message>, matched: set<nat>, mode: Mode, ancestors: set<nat>, descendants: set<nat>,
                         included: set<nat>, limit: bool)
  {
    && included == matched + ancestors + descendants
    && |included| <= Bound(matched, MaxMessages(mode))
    && (forall u :: u in ancestors ==> Ancestor(messages, matched, u))
    && (forall u :: u in descendants ==> Descendant(messages, matched, u))
    && (mode.MatchedOnly? ==> ancestors == {} && descendants == {} && !limit)
    && (mode.FullThread? && !limit ==>
         forall u :: (Ancestor(messages, matched, u) ==> u in ancestors) && (Descendant(messages, matched, u) ==> u in descendants))
    && (mode.FullThread? && |matched| > mode.maxMessages ==> limit)
    && (mode.FullThread? && limit && |matched| <= mode.maxMessages ==>
         || Omits(ParentLinks(messages, Refs(messages)), matched, ancestors, included)
         || Omits(ChildLinks(messages, Refs(messages)), matched, descendants, included))
  }

  method WalkBoth(messages: seq<Message>, matched: set<nat>, mode: Mode, parents: Links, children: Links)
    returns (ancestors: set<nat>, descendants: set<nat>, included: set<nat>, limit: bool)
    requires parents == ParentLinks(messages, Refs(messages)) && children == ChildLinks(messages, Refs(messages))
    ensures Walked(messages, matched, mode, ancestors, descendants, included, limit)
  {
    included, ancestors, descendants := matched, {}, {};
    var max := MaxMessages(mode);
    limit := max.Some? && |matched| > max.value;
    if mode.FullThread? {
      ancestors, included, limit := Walk(parents, matched, included, max, limit);
      descendants, included, limit := Walk(children, matched, included, max, limit);
      KinByLinks(messages, matched);
    }
  }

  lemma LimitLeavesOut(messages: seq<Message>, matched: set<nat>, mode: Mode, ancestors: set<nat>, descendants: set<nat>,
                       included: set<nat>, items: seq<Expanded>)
    requires Walked(messages, matched, mode, ancestors, descendants, included, true)
    requires forall u :: Listed(items, u) <==> u in included && Known(messages, u)
    ensures mode.FullThread? && (|matched| > mode.maxMessages || exists u, v :: LeftOut(messages, items, u, v))
  {
    if |matched| <= mode.maxMessages {
      var parents, children := ParentLinks(messages, Refs(messages)), ChildLinks(messages, Refs(messages));
      if Omits(parents, matched, ancestors, included) {
        OmittedIsLeftOut(messages, matched, parents, ancestors, included, items);
      } else {
        OmittedIsLeftOut(messages, matched, children, descendants, included, items);
      }
    }
  }

  method Collect(messages: seq<Message>, matched: set<nat>, mode: Mode, parents: Links, children: Links)
    returns (items: seq<Expanded>, limit: bool)
    requires parents == ParentLinks(messages, Refs(messages)) && children == ChildLinks(messages, Refs(messages))
    ensures Collected(messages, matched, mode, limit, items)
  {
    var ancestors, descendants, included;
    ancestors, descendants, included, limit := WalkBoth(messages, matched, mode, parents, children);
    items := Listing(messages, matched, parents, ancestors, included);
    if limit {
      LimitLeavesOut(messages, matched, mode, ancestors, descendants, included, items);
    }
    AllTagged(messages, matched, ancestors, descendants, !limit, items);
  }

  /** The limit warning comes first, the missing ids follow in order. */
  ghost predicate WarningsOrdered(warnings: seq<Warning>) {
    && (forall i :: 0 < i < |warnings| ==> warnings[i].MissingParent?)
    && (forall i, j :: 0 <= i < j < |warnings| && warnings[i].MissingParent? && warnings[j].MissingParent? ==>
         StringLess(warnings[i].messageId, warnings[j].messageId))
  }

  method ExpansionWarnings(mode: Mode, limit: bool, missing: map<string, nat>) returns (warnings: seq<Warning>)
    ensures forall w :: w in warnings <==> mode.FullThread? && match w
      case LimitReached(n) => limit && n == mode.maxMessages
      case MissingParent(uid, id) => id in missing && uid == missing[id]
    ensures mode.MatchedOnly? ==> warnings == []
    ensures WarningsOrdered(warnings)
  {
    warnings := [];
    if mode.FullThread? {
      var gaps := MissingWarnings(missing);
      warnings := if limit then [LimitReached(mode.maxMessages)] + gaps else gaps;
    }
  }

  /** The expansion lists this message, with this thread id and for this reason. */
  ghost predicate Shows(r: Expansion, uid: nat, threadId: string, reason: Reason) {
    exists i :: 0 <= i < |r.included| && r.included[i] == Expanded(uid, threadId, reason == QueryMatch, reason)
  }

  ghost predicate OnlyOne(messages: seq<Message>, m: Message) {
    m in messages && forall other :: other in messages && other.uid == m.uid ==> other == m
  }

  /** The reply's In-Reply-To is, up to white space, an id without brackets, which the parent
      and no other message bears. */
  ghost predicate BareReply(messages: seq<Message>, reply: Message, parent: Message, id: string) {
    && OnlyOne(messages, reply) && OnlyOne(messages, parent) && reply.uid != parent.uid
    && reply.references == [] && reply.inReplyTo.Some?
    && '<' !in reply.inReplyTo.value && TrimNames(reply.inReplyTo.value, id)
    && parent.messageId == Some(id) && parent.references == [] && parent.inReplyTo == None
    && (forall m :: m in messages && m.messageId == Some(id) ==> m == parent)
  }

  lemma BareReplyNames(messages: seq<Message>, reply: Message, parent: Message, id: string)
    requires BareReply(messages, reply, parent, id)
    ensures forall x :: Names(messages, reply.uid, x) <==> x == id
    ensures forall x :: !Names(messages, parent.uid, x)
  {
    assert Bracketless(reply.inReplyTo.value);
    forall x ensures TrimNames(reply.inReplyTo.value, x) <==> x == id {
      TrimNamesTrim(reply.inReplyTo.value, x);
      TrimNamesTrim(reply.inReplyTo.value, id);
    }
  }

  lemma BareReplyLinks(messages: seq<Message>, reply: Message, parent: Message, id: string)
    requires BareReply(messages, reply, parent, id)
    ensures OnlyParent(messages, reply.uid, parent.uid) && IsRoot(messages, parent.uid)
    ensures BearsId(messages, parent.uid, id)
  {
    BareReplyNames(messages, reply, parent, id);
    OwnerResolves(messages, id);
    assert Borne(messages, id);
    var i := ByUidIsLast(messages, parent.uid);
  }

  /** What a listing that is complete says of a matched bare reply and its parent. */
  lemma BareReplyShown(messages: seq<Message>, matched: set<nat>, mode: Mode, r: Expansion,
                       reply: Message, parent: Message, id: string)
    requires Collected(messages, matched, mode, false, r.included) && mode.FullThread?
    requires BareReply(messages, reply, parent, id) && reply.uid in matched
    ensures Shows(r, reply.uid, id, QueryMatch)
    ensures Shows(r, parent.uid, id, if parent.uid in matched then QueryMatch else ThreadAncestor)
  {
    BareReplyLinks(messages, reply, parent, id);
    assert Ascends(messages, [reply.uid, parent.uid]);
    assert Ancestor(messages, matched, parent.uid);
    assert Known(messages, reply.uid) && Known(messages, parent.uid);
    assert Listed(r.included, reply.uid) && Listed(r.included, parent.uid);
    var i :| 0 <= i < |r.included| && r.included[i].uid == reply.uid;
    var j :| 0 <= j < |r.included| && r.included[j].uid == parent.uid;
    assert Tagged(messages, matched, true, r.included[i]) && Tagged(messages, matched, true, r.included[j]);
  }

  /** Messages that name no other and have no Message-ID get ids of their own. */
  ghost predicate StrangersApart(messages: seq<Message>, items: seq<Expanded>) {
    forall i, j :: 0 <= i < j < |items|
      && IsRoot(messages, items[i].uid) && Anonymous(messages, items[i].uid)
      && IsRoot(messages, items[j].uid) && Anonymous(messages, items[j].uid)
      ==> items[i].threadId == "uid:" + Decimal(items[i].uid) && items[i].threadId != items[j].threadId
  }

  lemma StrangersGetTheirOwn(messages: seq<Message>, matched: set<nat>, complete: bool, items: seq<Expanded>)
    requires forall i, j :: 0 <= i < j < |items| ==> items[i].uid < items[j].uid
    requires forall i :: 0 <= i < |items| ==> Tagged(messages, matched, complete, items[i])
    ensures StrangersApart(messages, items)
  {
    forall i, j | 0 <= i < j < |items| ensures "uid:" + Decimal(items[i].uid) != "uid:" + Decimal(items[j].uid) {
      DecimalInjective(items[i].uid, items[j].uid);
      SamePrefix("uid:", Decimal(items[i].uid), Decimal(items[j].uid));
    }
  }

  lemma SamePrefix(prefix: string, s: string, t: string)
    ensures prefix + s == prefix + t <==> s == t
  {
    assert (prefix + s)[|prefix|..] == s && (prefix + t)[|prefix|..] == t;
  }

  method ExpandHeaderThreads(messages: seq<Message>, matched: set<nat>, mode: Mode) returns (r: Expansion)
    ensures Collected(messages, matched, mode, LimitWarned(r), r.included)
    // the limit warning first, then one for every unresolved id a matched message names
    ensures WarningsOrdered(r.warnings)
    ensures forall n :: LimitReached(n) in r.warnings ==> mode == FullThread(n)
    ensures forall uid, id :: MissingParent(uid, id) in r.warnings ==>
      mode.FullThread? && IsMissing(messages, matched, uid, id)
    ensures forall id :: mode.FullThread? && NamedByMatch(messages, matched, id) && !Borne(messages, id) ==>
      exists first :: MissingParent(first, id) in r.warnings
    ensures mode.MatchedOnly? ==> r.warnings == []
    // a match that replies to a bare id brings in its parent, and they share the parent's id
    ensures mode.FullThread? && !LimitWarned(r) ==>
      forall reply, parent, id :: BareReply(messages, reply, parent, id) && reply.uid in matched ==>
        && Shows(r, reply.uid, id, QueryMatch)
        && Shows(r, parent.uid, id, if parent.uid in matched then QueryMatch else ThreadAncestor)
    ensures StrangersApart(messages, r.included)
  {
    var parents, children, missing := BuildLinks(messages, matched);
    var items, limit := Collect(messages, matched, mode, parents, children);
    var warnings := ExpansionWarnings(mode, limit, missing);
    r := Expansion(items, warnings);
    LimitIsWarned(mode, limit, r);
    MissingAreWarned(missing, mode, r);
    StrangersGetTheirOwn(messages, matched, !limit, items);
    if mode.FullThread? && !limit {
      BareRepliesShown(messages, matched, mode, r);
    }
  }

  lemma MissingAreWarned(missing: map<string, nat>, mode: Mode, r: Expansion)
    requires mode.FullThread? ==> forall uid, id :: MissingParent(uid, id) in r.warnings <==> id in missing && uid == missing[id]
    ensures mode.FullThread? ==> forall id :: id in missing ==> exists first :: MissingParent(first, id) in r.warnings
  {
    if mode.FullThread? {
      forall id | id in missing ensures exists first :: MissingParent(first, id) in r.warnings {
        assert MissingParent(missing[id], id) in r.warnings;
      }
    }
  }

  lemma BareRepliesShown(messages: seq<Message>, matched: set<nat>, mode: Mode, r: Expansion)
    requires Collected(messages, matched, mode, false, r.included) && mode.FullThread?
    ensures forall reply, parent, id :: BareReply(messages, reply, parent, id) && reply.uid in matched ==>
      && Shows(r, reply.uid, id, QueryMatch)
      && Shows(r, parent.uid, id, if parent.uid in matched then QueryMatch else ThreadAncestor)
  {
    forall reply, parent, id | BareReply(messages, reply, parent, id) && reply.uid in matched
      ensures Shows(r, reply.uid, id, QueryMatch)
      ensures Shows(r, parent.uid, id, if parent.uid in matched then QueryMatch else ThreadAncestor)
    {
      BareReplyShown(messages, matched, mode, r, reply, parent, id);
    }
  }

  lemma LimitIsWarned(mode: Mode, limit: bool, r: Expansion)
    requires forall n :: LimitReached(n) in r.warnings <==> mode.FullThread? && limit && n == mode.maxMessages
    ensures LimitWarned(r) <==> mode.FullThread? && limit
  {
    if mode.FullThread? && limit {
      assert LimitReached(mode.maxMessages) in r.warnings;
    }
  }

  // ---- fetching in bounds --------------------------------------------------

  lemma IncreasingPrefix(s: seq<nat>, n: nat)
    requires Increasing(s) && n <= |s|
    ensures Increasing(s[..n]) && forall u, v :: u in s[..n] && v in s && v !in s[..n] ==> u < v
  {
  }

  /** The discovered UIDs not loaded yet, the smallest first and as many as the bound still
      allows; the flag says exactly whether some were left out. */
  method BoundedThreadFetchCandidates(discovered: seq<nat>, loaded: set<nat>, max: nat)
    returns (uids: seq<nat>, limitReached: bool)
    ensures Increasing(uids)
    ensures forall u :: u in uids ==> u in discovered && u !in loaded
    ensures limitReached <==> exists v :: v in discovered && v !in loaded && v !in uids
    ensures forall u, v :: u in uids && v in discovered && v !in loaded && v !in uids ==> u < v
    ensures limitReached ==> |loaded| + |uids| == if max > |loaded| then max else |loaded|
    ensures |loaded| + |uids| <= if max > |loaded| then max else |loaded|
  {
    var candidates: seq<nat> := [];
    for i := 0 to |discovered|
      invariant forall u :: u in candidates <==> u in discovered[..i] && u !in loaded
    {
      assert discovered[..i + 1] == discovered[..i] + [discovered[i]];
      if discovered[i] !in loaded {
        candidates := candidates + [discovered[i]];
      }
    }
    assert discovered[..|discovered|] == discovered;
    var sorted := SortNats(candidates);
    var available := if max > |loaded| then max - |loaded| else 0;
    limitReached := |sorted| > available;
    uids := if limitReached then sorted[..available] else sorted;
    IncreasingPrefix(sorted, |uids|);
    assert sorted[..|uids|] == uids;
    if limitReached {
      NextIsLeftOut(sorted, available);
    }
  }

  lemma NextIsLeftOut(s: seq<nat>, n: nat)
    requires Increasing(s) && n < |s|
    ensures s[n] in s && s[n] !in s[..n]
  {
  }
}
