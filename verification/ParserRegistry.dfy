/** The registry of learned receipt parsers: versions that must replay their fixtures, one
    active version per name, and the literal layout that decides whether a parser applies.
    Patterns, matchers, dates and the digest that names a version are parameters. */
module ParserRegistry {
  import opened Text
  import opened Wrappers

  datatype Rule = Rule(field: string, pattern: string)

  datatype Package = Package(name: string, sender: string, subjectPattern: string, kind: string, fields: seq<Rule>)

  type Record = map<string, string>

  datatype Fixture = Fixture(sender: string, subject: string, body: string, expected: Record)

  datatype Span = Span(start: nat, end: nat)

  /** The first capture group of each match of a pattern, or nothing where it took no part. */
  datatype Engine = Engine(
    validates: Package -> bool,
    matches: (Package, string, string) -> bool,
    captures: (string, string) -> seq<Option<Span>>,
    fits: string -> bool,
    coherent: Record -> bool)

  /** A pattern's captures lie within the body. */
  ghost predicate Sane(g: Engine) {
    forall pattern, body, i :: 0 <= i < |g.captures(pattern, body)| && g.captures(pattern, body)[i].Some? ==>
      g.captures(pattern, body)[i].value.start <= g.captures(pattern, body)[i].value.end <= |body|
  }

  // ---- extraction --------------------------------------------------------------

  /** The one capture of a rule; none when the field is missing or ambiguous. */
  function OnlyCapture(g: Engine, rule: Rule, body: string): Option<Span> {
    var found := g.captures(rule.pattern, body);
    if |found| == 1 then found[0] else None
  }

  function FieldValue(g: Engine, rule: Rule, body: string): Option<string>
    requires Sane(g)
  {
    match OnlyCapture(g, rule, body)
    case None => None
    case Some(span) =>
      var value := Trim(body[span.start..span.end]);
      if value == "" || |value| > 2048 then None else Some(value)
  }

  function Reader(g: Engine, body: string): Rule -> Option<string>
    requires Sane(g)
  {
    rule => FieldValue(g, rule, body)
  }

  /** The first n fields over what every record holds. */
  function Fields(p: Package, read: Rule -> Option<string>, n: nat): Option<Record>
    requires n <= |p.fields|
  {
    if n == 0 then Some(map["kind" := p.kind, "status" := "confirmed"])
    else
      match Fields(p, read, n - 1)
      case None => None
      case Some(record) =>
        match read(p.fields[n - 1])
        case None => None
        case Some(value) => Some(record[p.fields[n - 1].field := value])
  }

  function Extract(g: Engine, p: Package, sender: string, subject: string, body: string): Option<Record>
    requires Sane(g)
  {
    if !g.validates(p) || !g.fits(body) || !g.matches(p, sender, subject) then None
    else
      match Fields(p, Reader(g, body), |p.fields|)
      case None => None
      case Some(record) => if g.coherent(record) then Some(record) else None
  }

  predicate Replays(g: Engine, p: Package, f: Fixture)
    requires Sane(g)
  {
    Extract(g, p, f.sender, f.subject, f.body) == Some(f.expected)
  }

  /** The rule's pattern matches once and captures this text, white space aside. */
  ghost predicate CapturesOnce(g: Engine, rule: Rule, body: string, value: string)
    requires Sane(g)
  {
    var found := g.captures(rule.pattern, body);
    && |found| == 1 && found[0].Some?
    && value == Trim(body[found[0].value.start..found[0].value.end])
    && 0 < |value| <= 2048
  }

  lemma ReadIsCaptured(g: Engine, rule: Rule, body: string, value: string)
    requires Sane(g)
    ensures Reader(g, body)(rule) == Some(value) <==> CapturesOnce(g, rule, body, value)
  {
  }

  ghost predicate NamesApart(fields: seq<Rule>) {
    && (forall i, j :: 0 <= i < j < |fields| ==> fields[i].field != fields[j].field)
    && (forall i :: 0 <= i < |fields| ==> fields[i].field != "kind" && fields[i].field != "status")
  }

  ghost predicate FieldNamed(p: Package, n: nat, key: string)
    requires n <= |p.fields|
  {
    exists i :: 0 <= i < n && p.fields[i].field == key
  }

  /** The record holds the parser's kind, that the booking is confirmed, and each field as
      read, and nothing else. */
  ghost predicate Recorded(p: Package, read: Rule -> Option<string>, n: nat, record: Record)
    requires n <= |p.fields|
  {
    && (forall key :: key in record <==> key == "kind" || key == "status" || FieldNamed(p, n, key))
    && "kind" in record && record["kind"] == p.kind && "status" in record && record["status"] == "confirmed"
    && (forall i :: 0 <= i < n ==> ReadAs(read, p.fields[i], record))
  }

  ghost predicate ReadAs(read: Rule -> Option<string>, rule: Rule, record: Record) {
    rule.field in record && read(rule) == Some(record[rule.field])
  }

  lemma StartRecorded(p: Package, read: Rule -> Option<string>)
    ensures Recorded(p, read, 0, map["kind" := p.kind, "status" := "confirmed"])
  {
  }

  lemma RecordedNext(p: Package, read: Rule -> Option<string>, n: nat, record: Record)
    requires n < |p.fields| && NamesApart(p.fields) && Recorded(p, read, n, record) && read(p.fields[n]).Some?
    ensures Recorded(p, read, n + 1, record[p.fields[n].field := read(p.fields[n]).value])
  {
    var more := record[p.fields[n].field := read(p.fields[n]).value];
    forall key ensures FieldNamed(p, n + 1, key) <==> FieldNamed(p, n, key) || key == p.fields[n].field {
    }
    forall i | 0 <= i < n ensures ReadAs(read, p.fields[i], more) {
      assert ReadAs(read, p.fields[i], record);
    }
  }

  ghost predicate SomeUnread(p: Package, read: Rule -> Option<string>, n: nat)
    requires n <= |p.fields|
  {
    exists i :: 0 <= i < n && read(p.fields[i]).None?
  }

  lemma {:induction false} FieldsRecorded(p: Package, read: Rule -> Option<string>, n: nat)
    requires n <= |p.fields| && NamesApart(p.fields)
    ensures match Fields(p, read, n)
      case None => SomeUnread(p, read, n)
      case Some(record) => !SomeUnread(p, read, n) && Recorded(p, read, n, record)
  {
    if n == 0 {
      StartRecorded(p, read);
    } else {
      FieldsRecorded(p, read, n - 1);
      if Fields(p, read, n).Some? {
        RecordedNext(p, read, n - 1, Fields(p, read, n - 1).value);
      }
    }
  }

  lemma SameRecord(p: Package, read: Rule -> Option<string>, n: nat, a: Record, b: Record)
    requires n <= |p.fields| && Recorded(p, read, n, a) && Recorded(p, read, n, b)
    ensures a == b
  {
    assert a.Keys == b.Keys;
    forall key | key in a ensures a[key] == b[key] {
      if key != "kind" && key != "status" {
        var i :| 0 <= i < n && p.fields[i].field == key;
        assert ReadAs(read, p.fields[i], a) && ReadAs(read, p.fields[i], b);
      }
    }
  }

  /** What a parser makes of a message, validation seeing to it that its fields have distinct
      names: it must match, every field must be read, and the record must be coherent. */
  lemma ExtractMeans(g: Engine, p: Package, sender: string, subject: string, body: string, record: Record)
    requires Sane(g) && (g.validates(p) ==> NamesApart(p.fields))
    ensures Extract(g, p, sender, subject, body) == Some(record) <==>
      && g.validates(p) && g.fits(body) && g.matches(p, sender, subject)
      && Recorded(p, Reader(g, body), |p.fields|, record) && g.coherent(record)
  {
    if !g.validates(p) {
      return;
    }
    var read := Reader(g, body);
    var made := Fields(p, read, |p.fields|);
    FieldsRecorded(p, read, |p.fields|);
    if Recorded(p, read, |p.fields|, record) {
      forall i | 0 <= i < |p.fields| ensures read(p.fields[i]).Some? {
        assert ReadAs(read, p.fields[i], record);
      }
      SameRecord(p, read, |p.fields|, made.value, record);
    }
  }

  // ---- layouts -------------------------------------------------------------------

  datatype Mark = Mark(start: nat, end: nat, field: string)

  /** The spans of the first n rules, or nothing when one has not exactly one. */
  function Marks(g: Engine, p: Package, body: string, n: nat): Option<seq<Mark>>
    requires n <= |p.fields|
  {
    if n == 0 then Some([])
    else
      match Marks(g, p, body, n - 1)
      case None => None
      case Some(marks) =>
        match OnlyCapture(g, p.fields[n - 1], body)
        case None => None
        case Some(span) => Some(marks + [Mark(span.start, span.end, p.fields[n - 1].field)])
  }

  ghost predicate Ordered(marks: seq<Mark>) {
    forall i, j :: 0 <= i < j < |marks| ==> marks[i].start <= marks[j].start
  }

  /** After the marks that start no later: the sort is stable. */
  function InsertMark(marks: seq<Mark>, m: Mark): (r: seq<Mark>)
    ensures multiset(r) == multiset(marks) + multiset{m}
  {
    if marks == [] then [m]
    else
      var n := |marks| - 1;
      assert marks == marks[..n] + [marks[n]];
      if marks[n].start <= m.start then marks + [m] else InsertMark(marks[..n], m) + [marks[n]]
  }

  lemma {:induction false} InsertKeepsOrder(marks: seq<Mark>, m: Mark)
    requires Ordered(marks)
    ensures Ordered(InsertMark(marks, m))
  {
    if marks == [] {
    } else {
      var n := |marks| - 1;
      if marks[n].start > m.start {
        InsertKeepsOrder(marks[..n], m);
        var rest := InsertMark(marks[..n], m);
        forall i | 0 <= i < |rest| ensures rest[i].start <= marks[n].start {
          InsertedOrThere(marks[..n], m, rest[i]);
        }
      }
    }
  }

  lemma InsertedOrThere(marks: seq<Mark>, m: Mark, x: Mark)
    requires x in InsertMark(marks, m)
    ensures x == m || x in marks
  {
  }

  function SortMarks(marks: seq<Mark>): (r: seq<Mark>)
    ensures multiset(r) == multiset(marks)
  {
    if marks == [] then []
    else
      var n := |marks| - 1;
      assert marks == marks[..n] + [marks[n]];
      InsertMark(SortMarks(marks[..n]), marks[n])
  }

  lemma {:induction false} SortedMarks(marks: seq<Mark>)
    ensures Ordered(SortMarks(marks))
  {
    if marks == [] {
    } else {
      SortedMarks(marks[..|marks| - 1]);
      InsertKeepsOrder(SortMarks(marks[..|marks| - 1]), marks[|marks| - 1]);
    }
  }

  function StartingAt(marks: seq<Mark>, start: nat): seq<Mark> {
    if marks == [] then []
    else
      var n := |marks| - 1;
      StartingAt(marks[..n], start) + IfStarts(marks[n], start)
  }

  function IfStarts(m: Mark, start: nat): seq<Mark> {
    if m.start == start then [m] else []
  }

  lemma StartingAfter(marks: seq<Mark>, m: Mark, start: nat)
    ensures StartingAt(marks + [m], start) == StartingAt(marks, start) + IfStarts(m, start)
  {
    assert (marks + [m])[..|marks|] == marks;
  }

  lemma SwapOne<T>(a: seq<T>, b: seq<T>, c: seq<T>)
    requires b == [] || c == []
    ensures (a + b) + c == (a + c) + b
  {
    assert a + [] == a && (a + b) + [] == a + b && (a + c) + [] == a + c;
  }

  lemma {:induction false} InsertIsStable(marks: seq<Mark>, m: Mark, start: nat)
    ensures StartingAt(InsertMark(marks, m), start) == StartingAt(marks, start) + IfStarts(m, start)
  {
    if marks == [] {
      StartingAfter([], m, start);
      assert [] + [m] == [m];
    } else {
      var before, last := marks[..|marks| - 1], marks[|marks| - 1];
      if last.start <= m.start {
        StartingAfter(marks, m, start);
      } else {
        InsertIsStable(before, m, start);
        StartingAfter(InsertMark(before, m), last, start);
        SwapOne(StartingAt(before, start), IfStarts(m, start), IfStarts(last, start));
      }
    }
  }

  /** Spans that start at one place keep their order. */
  lemma {:induction false} SortIsStable(marks: seq<Mark>, start: nat)
    ensures StartingAt(SortMarks(marks), start) == StartingAt(marks, start)
  {
    if marks == [] {
    } else {
      SortIsStable(marks[..|marks| - 1], start);
      InsertIsStable(SortMarks(marks[..|marks| - 1]), marks[|marks| - 1], start);
    }
  }

  predicate Overlaps(marks: seq<Mark>) {
    exists i: nat :: i + 1 < |marks| && OverlapAt(marks, i)
  }

  predicate OverlapAt(marks: seq<Mark>, i: nat)
    requires i + 1 < |marks|
  {
    marks[i].end > marks[i + 1].start
  }

  function Placeholder(field: string): string {
    "{" + field + "}"
  }

  lemma PlaceholderNames(field: string)
    ensures var r := Placeholder(field);
      |r| == |field| + 2 && r[0] == '{' && r[1..|field| + 1] == field && r[|field| + 1] == '}'
  {
  }

  /** The marks lie in the body one after another. */
  predicate InBody(marks: seq<Mark>, body: string) {
    && (forall i :: 0 <= i < |marks| ==> marks[i].start <= marks[i].end <= |body|)
    && !Overlaps(marks)
  }

  /** From a position on: the gaps between the marks from the k-th, with placeholders. */
  function Gaps(body: string, marks: seq<Mark>, k: nat, from: nat): string
    requires k <= |marks| && InBody(marks, body) && from <= |body|
    requires k < |marks| ==> from <= marks[k].start
    decreases |marks| - k
  {
    if k == |marks| then body[from..]
    else
      assert k + 1 < |marks| ==> !OverlapAt(marks, k);
      body[from..marks[k].start] + Placeholder(marks[k].field) + Gaps(body, marks, k + 1, marks[k].end)
  }

  lemma GapsFrom(body: string, marks: seq<Mark>, k: nat, from: nat)
    requires k <= |marks| && InBody(marks, body) && from <= |body|
    requires k < |marks| ==> from <= marks[k].start
    ensures from <= |Gaps(body, marks, k, 0)|
    ensures Gaps(body, marks, k, 0)[..from] == body[..from]
    ensures Gaps(body, marks, k, 0)[from..] == Gaps(body, marks, k, from)
  {
  }

  /** Splicing in the placeholders from the last mark to the first. */
  method Splice(body: string, marks: seq<Mark>) returns (layout: string)
    requires InBody(marks, body)
    ensures layout == Gaps(body, marks, 0, 0)
  {
    layout := body;
    var k := |marks|;
    while k > 0
      invariant 0 <= k <= |marks| && layout == Gaps(body, marks, k, 0)
    {
      k := k - 1;
      var m := marks[k];
      assert k + 1 < |marks| ==> !OverlapAt(marks, k);
      GapsFrom(body, marks, k + 1, m.start);
      GapsFrom(body, marks, k + 1, m.end);
      layout := layout[..m.start] + Placeholder(m.field) + layout[m.end..];
    }
  }

  lemma {:induction false} MarksInBody(g: Engine, p: Package, body: string, n: nat)
    requires Sane(g) && n <= |p.fields|
    ensures Marks(g, p, body, n).Some? ==>
      forall m :: m in Marks(g, p, body, n).value ==> m.start <= m.end <= |body|
  {
    if n == 0 {
    } else {
      MarksInBody(g, p, body, n - 1);
    }
  }

  lemma SortedInBody(marks: seq<Mark>, body: string)
    requires forall m :: m in marks ==> m.start <= m.end <= |body|
    requires !Overlaps(SortMarks(marks))
    ensures InBody(SortMarks(marks), body)
  {
    var sorted := SortMarks(marks);
    forall i | 0 <= i < |sorted| ensures sorted[i].start <= sorted[i].end <= |body| {
      assert sorted[i] in multiset(sorted);
      assert sorted[i] in marks;
    }
  }

  /** The literal layout: the text between the captured spans, in order, with each span
      replaced by its field's name. */
  function Layout(g: Engine, p: Package, body: string): Option<string>
    requires Sane(g)
  {
    match Marks(g, p, body, |p.fields|)
    case None => None
    case Some(marks) =>
      var sorted := SortMarks(marks);
      if Overlaps(sorted) then None
      else
        MarksInBody(g, p, body, |p.fields|);
        SortedInBody(marks, body);
        Some(Gaps(body, sorted, 0, 0))
  }

  method CollectMarks(g: Engine, p: Package, body: string) returns (r: Option<seq<Mark>>)
    ensures r == Marks(g, p, body, |p.fields|)
  {
    var spans: seq<Mark> := [];
    for i := 0 to |p.fields|
      invariant Marks(g, p, body, i) == Some(spans)
    {
      var found := g.captures(p.fields[i].pattern, body);
      if |found| != 1 || found[0].None? {
        NoMarks(g, p, body, i + 1, |p.fields|);
        return None;
      }
      spans := spans + [Mark(found[0].value.start, found[0].value.end, p.fields[i].field)];
    }
    r := Some(spans);
  }

  lemma {:induction false} NoMarks(g: Engine, p: Package, body: string, i: nat, n: nat)
    requires i <= n <= |p.fields| && Marks(g, p, body, i).None?
    ensures Marks(g, p, body, n).None?
  {
    if i >= n {
    } else {
      NoMarks(g, p, body, i, n - 1);
    }
  }

  ghost predicate CapturedOnce(g: Engine, rule: Rule, body: string) {
    |g.captures(rule.pattern, body)| == 1 && g.captures(rule.pattern, body)[0].Some?
  }

  ghost predicate EachOnce(g: Engine, p: Package, body: string) {
    forall i :: 0 <= i < |p.fields| ==> CapturedOnce(g, p.fields[i], body)
  }

  ghost function MarkOf(g: Engine, rule: Rule, body: string): Mark
    requires CapturedOnce(g, rule, body)
  {
    var span := g.captures(rule.pattern, body)[0].value;
    Mark(span.start, span.end, rule.field)
  }

  /** The marks are those of the fields, in this or another order. */
  ghost predicate MarksThem(g: Engine, p: Package, body: string, marks: seq<Mark>) {
    EachOnce(g, p, body)
    && multiset(marks) == multiset(seq(|p.fields|, i requires 0 <= i < |p.fields| => MarkOf(g, p.fields[i], body)))
  }

  lemma {:induction false} MarksAre(g: Engine, p: Package, body: string, n: nat)
    requires n <= |p.fields|
    ensures match Marks(g, p, body, n)
      case None => exists i :: 0 <= i < n && !CapturedOnce(g, p.fields[i], body)
      case Some(marks) => |marks| == n && forall i :: 0 <= i < n ==>
        CapturedOnce(g, p.fields[i], body) && marks[i] == MarkOf(g, p.fields[i], body)
  {
    if n == 0 {
    } else {
      MarksAre(g, p, body, n - 1);
    }
  }

  lemma AllMarksAre(g: Engine, p: Package, body: string)
    ensures match Marks(g, p, body, |p.fields|)
      case None => !EachOnce(g, p, body)
      case Some(marks) => MarksThem(g, p, body, marks)
  {
    MarksAre(g, p, body, |p.fields|);
    var made := Marks(g, p, body, |p.fields|);
    if made.Some? {
      assert made.value == seq(|p.fields|, i requires 0 <= i < |p.fields| => MarkOf(g, p.fields[i], body));
    }
  }

  /** No span ends after the next one starts; spans may touch. */
  ghost predicate Apart(marks: seq<Mark>) {
    forall i :: 0 < i < |marks| ==> marks[i - 1].end <= marks[i].start
  }

  ghost predicate SplicedFrom(body: string, marks: seq<Mark>, layout: string) {
    InBody(marks, body) && Apart(marks) && layout == Gaps(body, marks, 0, 0)
  }

  lemma ApartMeans(marks: seq<Mark>)
    ensures Apart(marks) <==> !Overlaps(marks)
  {
    if !Apart(marks) {
      var i :| 0 < i < |marks| && marks[i - 1].end > marks[i].start;
      assert OverlapAt(marks, i - 1);
    }
    if i: nat :| i + 1 < |marks| && OverlapAt(marks, i) {
      assert 0 < i + 1 < |marks| && marks[i + 1 - 1].end > marks[i + 1].start;
    }
  }

  method EvidenceLayout(g: Engine, p: Package, body: string) returns (r: Option<string>)
    requires Sane(g)
    ensures r == Layout(g, p, body)
    ensures r.Some? ==>
      exists marks :: MarksThem(g, p, body, marks) && Ordered(marks) && SplicedFrom(body, marks, r.value)
    ensures r.None? ==>
      !EachOnce(g, p, body) || exists marks :: MarksThem(g, p, body, marks) && Ordered(marks) && !Apart(marks)
  {
    AllMarksAre(g, p, body);
    var marks := CollectMarks(g, p, body);
    if marks.None? {
      return None;
    }
    var sorted := SortMarks(marks.value);
    SortedMarks(marks.value);
    assert MarksThem(g, p, body, sorted);
    ApartMeans(sorted);
    if Overlaps(sorted) {
      return None;
    }
    MarksInBody(g, p, body, |p.fields|);
    SortedInBody(marks.value, body);
    var layout := Splice(body, sorted);
    r := Some(layout);
  }

  // ---- promotion's checks ----------------------------------------------------------

  /** Every occurrence removed, from the left. */
  function Remove(s: string, v: string): string
    requires v != ""
  {
    if |s| < |v| then s
    else if s[..|v|] == v then Remove(s[|v|..], v)
    else [s[0]] + Remove(s[1..], v)
  }

  predicate OccursAt(s: string, v: string, i: nat) {
    i + |v| <= |s| && s[i..i + |v|] == v
  }

  lemma OccursInTail(s: string, v: string, i: nat)
    requires s != ""
    ensures OccursAt(s[1..], v, i) <==> OccursAt(s, v, i + 1)
  {
    if i + |v| <= |s[1..]| {
      assert s[1..][i..i + |v|] == s[i + 1..i + 1 + |v|];
    }
  }

  lemma RemoveAtHead(s: string, v: string)
    requires v != ""
    ensures OccursAt(s, v, 0) ==> Remove(s, v) == Remove(s[|v|..], v)
    ensures s != "" && !OccursAt(s, v, 0) ==> Remove(s, v) == [s[0]] + Remove(s[1..], v)
  {
    if |v| <= |s| {
      assert s[0..|v|] == s[..|v|];
    } else if s != "" {
      assert [s[0]] + s[1..] == s;
    }
  }

  /** The first occurrence goes, and those after it. */
  lemma {:induction false} RemoveFirst(s: string, v: string, i: nat)
    requires v != "" && OccursAt(s, v, i) && forall j: nat :: j < i ==> !OccursAt(s, v, j)
    ensures Remove(s, v) == s[..i] + Remove(s[i + |v|..], v)
    decreases i
  {
    if i == 0 {
      RemoveAtHead(s, v);
      HeadOf(s, 0, Remove(s, v), Remove(s, v), Remove(s[|v|..], v));
    } else {
      FirstInTail(s, v, i);
      RemoveFirst(s[1..], v, i - 1);
      assert !OccursAt(s, v, 0);
      RemoveAtHead(s, v);
      HeadOf(s, i, Remove(s, v), Remove(s[1..], v), Remove(s[i + |v|..], v));
    }
  }

  lemma FirstInTail(s: string, v: string, i: nat)
    requires 0 < i && OccursAt(s, v, i) && forall j: nat :: j < i ==> !OccursAt(s, v, j)
    ensures OccursAt(s[1..], v, i - 1) && forall j: nat :: j < i - 1 ==> !OccursAt(s[1..], v, j)
    ensures s[1..][i - 1 + |v|..] == s[i + |v|..]
  {
    OccursInTail(s, v, i - 1);
    forall j: nat | j < i - 1 ensures !OccursAt(s[1..], v, j) {
      OccursInTail(s, v, j);
    }
  }

  lemma HeadOf(s: string, i: nat, all: string, tail: string, rest: string)
    requires i <= |s|
    requires if i == 0 then all == rest else all == [s[0]] + tail && tail == s[1..][..i - 1] + rest
    ensures all == s[..i] + rest
  {
    if i == 0 {
      assert s[..0] + rest == rest;
    } else {
      assert [s[0]] + s[1..][..i - 1] == s[..i];
    }
  }

  lemma {:induction false} RemoveNone(s: string, v: string)
    requires v != "" && forall i: nat :: !OccursAt(s, v, i)
    ensures Remove(s, v) == s
  {
    if |s| < |v| {
    } else {
      RemoveAtHead(s, v);
      forall i: nat ensures !OccursAt(s[1..], v, i) {
        OccursInTail(s, v, i);
      }
      RemoveNone(s[1..], v);
      assert [s[0]] + s[1..] == s;
    }
  }

  /** Without the captured value the parser fails or captures something else. */
  predicate Depends(g: Engine, p: Package, f: Fixture, record: Record, field: string)
    requires Sane(g)
  {
    field in record && record[field] != "" &&
    (match Extract(g, p, f.sender, f.subject, Remove(f.body, record[field]))
     case Some(other) => field !in other || other[field] != record[field]
     case None => true)
  }

  /** The first n fields depend on what they capture. */
  predicate FieldsDepend(g: Engine, p: Package, f: Fixture, n: nat)
    requires Sane(g) && n <= |p.fields|
  {
    n == 0 || (FieldsDepend(g, p, f, n - 1) && Depends(g, p, f, f.expected, p.fields[n - 1].field))
  }

  predicate Demonstrates(g: Engine, p: Package, f: Fixture)
    requires Sane(g)
  {
    Replays(g, p, f) && FieldsDepend(g, p, f, |p.fields|)
  }

  /** A fixture demonstrates a parser: it is read as expected, and with a field's text gone
      from the body the parser reads nothing, or something else for that field. */
  lemma DemonstratesMeans(g: Engine, p: Package, f: Fixture)
    requires Sane(g)
    ensures Demonstrates(g, p, f) <==>
      && Extract(g, p, f.sender, f.subject, f.body) == Some(f.expected)
      && forall i :: 0 <= i < |p.fields| ==> LostWithout(g, p, f, p.fields[i].field)
  {
    EveryFieldDepends(g, p, f, |p.fields|);
    forall i | 0 <= i < |p.fields|
      ensures Depends(g, p, f, f.expected, p.fields[i].field) <==> LostWithout(g, p, f, p.fields[i].field)
    {
    }
  }

  ghost predicate LostWithout(g: Engine, p: Package, f: Fixture, field: string)
    requires Sane(g)
  {
    field in f.expected && f.expected[field] != ""
    && forall other :: Extract(g, p, f.sender, f.subject, Remove(f.body, f.expected[field])) == Some(other) ==>
         field !in other || other[field] != f.expected[field]
  }

  lemma {:induction false} EveryFieldDepends(g: Engine, p: Package, f: Fixture, n: nat)
    requires Sane(g) && n <= |p.fields|
    ensures FieldsDepend(g, p, f, n) <==> forall i :: 0 <= i < n ==> Depends(g, p, f, f.expected, p.fields[i].field)
  {
    if n == 0 {
    } else {
      EveryFieldDepends(g, p, f, n - 1);
    }
  }

  lemma {:induction false} StillLacking(g: Engine, p: Package, f: Fixture, i: nat, n: nat)
    requires Sane(g) && i <= n <= |p.fields| && !FieldsDepend(g, p, f, i)
    ensures !FieldsDepend(g, p, f, n)
  {
    if i >= n {
    } else {
      StillLacking(g, p, f, i, n - 1);
    }
  }

  method CheckFixture(g: Engine, p: Package, f: Fixture) returns (ok: bool)
    requires Sane(g)
    ensures ok <==> Demonstrates(g, p, f)
  {
    ok := Replays(g, p, f);
    if ok {
      ok := CheckMutations(g, p, f);
    }
  }

  method CheckMutations(g: Engine, p: Package, f: Fixture) returns (ok: bool)
    requires Sane(g)
    ensures ok <==> FieldsDepend(g, p, f, |p.fields|)
  {
    for i := 0 to |p.fields|
      invariant FieldsDepend(g, p, f, i)
    {
      var depends := Depends(g, p, f, f.expected, p.fields[i].field);
      if !depends {
        StillLacking(g, p, f, i + 1, |p.fields|);
        return false;
      }
    }
    ok := true;
  }

  predicate AllReplay(g: Engine, p: Package, fixtures: seq<Fixture>)
    requires Sane(g)
  {
    forall i :: 0 <= i < |fixtures| ==> Replays(g, p, fixtures[i])
  }

  predicate AllDemonstrate(g: Engine, p: Package, fixtures: seq<Fixture>)
    requires Sane(g)
  {
    forall i :: 0 <= i < |fixtures| ==> Demonstrates(g, p, fixtures[i])
  }

  // ---- the registry ------------------------------------------------------------------

  type Id = string

  datatype Row = Row(name: string, package: Package, fixtures: seq<Fixture>, active: bool)

  ghost predicate Injective(digest: Package -> Id) {
    forall p, q :: digest(p) == digest(q) ==> p == q
  }

  predicate ActiveNamed(rows: map<Id, Row>, id: Id, name: string) {
    id in rows && rows[id].active && rows[id].name == name
  }

  /** At most one active version per name, every version under its digest and its name. */
  ghost predicate Shaped(rows: map<Id, Row>, digest: Package -> Id) {
    && (forall i, j, name :: ActiveNamed(rows, i, name) && ActiveNamed(rows, j, name) ==> i == j)
    && (forall id :: id in rows ==> id == digest(rows[id].package) && rows[id].name == rows[id].package.name)
  }

  /** Every version still replays every fixture stored with it. */
  ghost predicate Replaying(rows: map<Id, Row>, g: Engine)
    requires Sane(g)
  {
    forall id :: id in rows ==> rows[id].fixtures != [] && AllReplay(g, rows[id].package, rows[id].fixtures)
  }

  /** The fixtures of the active version of the name. */
  ghost function History(rows: map<Id, Row>, name: string): seq<Fixture> {
    if i :| ActiveNamed(rows, i, name) then rows[i].fixtures else []
  }

  function Deactivated(rows: map<Id, Row>, name: string): map<Id, Row> {
    map id | id in rows :: if rows[id].name == name then rows[id].(active := false) else rows[id]
  }

  lemma ActivateKeepsShape(rows: map<Id, Row>, digest: Package -> Id, id: Id, row: Row)
    requires Shaped(rows, digest) && row.active
    requires id == digest(row.package) && row.name == row.package.name
    requires id in rows ==> rows[id].name == row.name
    ensures Shaped(Deactivated(rows, row.name)[id := row], digest)
  {
    var after := Deactivated(rows, row.name)[id := row];
    forall i, j, name | ActiveNamed(after, i, name) && ActiveNamed(after, j, name) ensures i == j {
      if name != row.name {
        assert ActiveNamed(rows, i, name) && ActiveNamed(rows, j, name);
      }
    }
  }

  lemma HistoryIs(rows: map<Id, Row>, digest: Package -> Id, id: Id, name: string)
    requires Shaped(rows, digest) && ActiveNamed(rows, id, name)
    ensures History(rows, name) == rows[id].fixtures
  {
  }

  lemma JoinReplays(g: Engine, p: Package, fixtures: seq<Fixture>, history: seq<Fixture>)
    requires Sane(g) && AllDemonstrate(g, p, fixtures) && AllReplay(g, p, history)
    ensures AllReplay(g, p, fixtures + history)
  {
  }

  datatype PromoteError = FixturesRequired | FixtureFails | HistoricalRegression

  datatype RollbackError = UnknownVersion | NoLongerValidates

  lemma DemonstrateNext(g: Engine, p: Package, fixtures: seq<Fixture>, i: nat)
    requires Sane(g) && i < |fixtures| && AllDemonstrate(g, p, fixtures[..i])
    ensures AllDemonstrate(g, p, fixtures[..i + 1]) <==> Demonstrates(g, p, fixtures[i])
    ensures AllDemonstrate(g, p, fixtures) ==> Demonstrates(g, p, fixtures[i])
  {
    assert fixtures[..i + 1] == fixtures[..i] + [fixtures[i]];
    assert fixtures[..i + 1][i] == fixtures[i];
  }

  method CheckFixtures(g: Engine, p: Package, fixtures: seq<Fixture>) returns (ok: bool)
    requires Sane(g)
    ensures ok <==> AllDemonstrate(g, p, fixtures)
  {
    for i := 0 to |fixtures|
      invariant AllDemonstrate(g, p, fixtures[..i])
    {
      DemonstrateNext(g, p, fixtures, i);
      var good := CheckFixture(g, p, fixtures[i]);
      if !good {
        return false;
      }
    }
    assert fixtures[..|fixtures|] == fixtures;
    ok := true;
  }

  /** The fixtures of the rows that are active under the name. */
  method ActiveFixtures(rows: map<Id, Row>, ghost digest: Package -> Id, name: string) returns (found: seq<Fixture>)
    requires Shaped(rows, digest)
    ensures found == History(rows, name)
  {
    var left := rows.Keys;
    found := [];
    ghost var seen: Option<Id> := None;
    while left != {}
      invariant left <= rows.Keys
      invariant seen.Some? ==>
        seen.value !in left && ActiveNamed(rows, seen.value, name) && found == rows[seen.value].fixtures
      invariant seen.None? ==> found == [] && forall i :: i in rows && i !in left ==> !ActiveNamed(rows, i, name)
    {
      var id :| id in left;
      left := left - {id};
      if rows[id].active && rows[id].name == name {
        assert ActiveNamed(rows, id, name) && seen.None?;
        found := found + rows[id].fixtures;
        seen := Some(id);
      }
    }
    if seen.Some? {
      HistoryIs(rows, digest, seen.value, name);
    }
  }

  class Registry {
    var rows: map<Id, Row>
    const g: Engine
    const digest: Package -> Id

    ghost predicate Valid()
      reads this
    {
      Sane(g) && Injective(digest) && Shaped(rows, digest)
    }

    /** What promotion and rollback keep as long as the extraction rules do not change. */
    ghost predicate Replayed()
      requires Valid()
      reads this
    {
      Replaying(rows, g)
    }

    constructor (g: Engine, digest: Package -> Id)
      requires Sane(g) && Injective(digest)
      ensures Valid() && Replayed() && rows == map[] && this.g == g && this.digest == digest
    {
      rows, this.g, this.digest := map[], g, digest;
    }

    /** A version is promoted exactly when it demonstrates its own fixtures and replays those
        of the active version, which it then carries on. Failure changes nothing. */
    method Promote(p: Package, fixtures: seq<Fixture>) returns (r: Result<Id, PromoteError>)
      requires Valid()
      modifies this
      ensures Valid() && (old(Replayed()) ==> Replayed())
      ensures r.Ok? <==> 0 < |fixtures| <= 100 && AllDemonstrate(g, p, fixtures)
                         && AllReplay(g, p, History(old(rows), p.name))
      ensures r.Err? ==> rows == old(rows)
      ensures r == Err(FixturesRequired) <==> |fixtures| == 0 || |fixtures| > 100
      ensures r == Err(FixtureFails) <==> 0 < |fixtures| <= 100 && !AllDemonstrate(g, p, fixtures)
      // then it is the active version, with its fixtures and those of the version it replaces
      ensures r.Ok? ==>
        && r.value == digest(p) && r.value in rows
        && rows[r.value].name == p.name && rows[r.value].package == p && rows[r.value].active
      ensures r.Ok? ==> forall was :: ActiveNamed(old(rows), was, p.name) ==>
        rows[r.value].fixtures == fixtures + old(rows)[was].fixtures
      ensures r.Ok? && (forall was :: !ActiveNamed(old(rows), was, p.name)) ==> rows[r.value].fixtures == fixtures
      ensures r.Ok? ==> forall id :: id in rows && id != r.value ==>
        id in old(rows) && rows[id] == if old(rows)[id].name == p.name then old(rows)[id].(active := false) else old(rows)[id]
      ensures r.Ok? ==> forall id :: id in old(rows) ==> id in rows
      ensures r.Ok? ==>
        rows == Deactivated(old(rows), p.name)[digest(p) := Row(p.name, p, fixtures + History(old(rows), p.name), true)]
    {
      if |fixtures| == 0 || |fixtures| > 100 {
        return Err(FixturesRequired);
      }
      var good := CheckFixtures(g, p, fixtures);
      if !good {
        return Err(FixtureFails);
      }
      var history := ActiveFixtures(rows, digest, p.name);
      if !AllReplay(g, p, history) {
        return Err(HistoricalRegression);
      }
      assert history == [] ==> fixtures + history == fixtures;
      var id, row := digest(p), Row(p.name, p, fixtures + history, true);
      JoinReplays(g, p, fixtures, history);
      ActivateKeepsShape(rows, digest, id, row);
      rows := Deactivated(rows, p.name)[id := row];
      r := Ok(id);
    }

    /** A stored version comes back exactly when it still validates and replays, which it
        does as long as the extraction rules do not change. Failure changes nothing. */
    method Rollback(id: Id) returns (r: Result<(), RollbackError>)
      requires Valid()
      modifies this
      ensures Valid() && (old(Replayed()) ==> Replayed())
      ensures r.Ok? <==> id in old(rows) && g.validates(old(rows)[id].package)
                         && AllReplay(g, old(rows)[id].package, old(rows)[id].fixtures)
      ensures old(Replayed()) ==> (r.Ok? <==> id in old(rows))
      ensures r == Err(UnknownVersion) <==> id !in old(rows)
      ensures r.Ok? ==> rows.Keys == old(rows).Keys && rows[id] == old(rows)[id].(active := true)
      ensures r.Ok? ==> forall other :: other in rows && other != id ==>
        rows[other] == if old(rows)[other].name == old(rows)[id].name then old(rows)[other].(active := false) else old(rows)[other]
      ensures r.Err? ==> rows == old(rows)
      ensures r.Ok? ==>
        rows == Deactivated(old(rows), old(rows)[id].name)[id := old(rows)[id].(active := true)]
    {
      if id !in rows {
        return Err(UnknownVersion);
      }
      var row := rows[id];
      var valid, replays := g.validates(row.package), AllReplay(g, row.package, row.fixtures);
      assert Replayed() ==> valid by {
        assert Replayed() ==> Replays(g, row.package, row.fixtures[0]);
      }
      if !(valid && replays) {
        return Err(NoLongerValidates);
      }
      ActivateKeepsShape(rows, digest, id, row.(active := true));
      rows := Deactivated(rows, row.name)[id := row.(active := true)];
      r := Ok(());
    }
  }

  /** Rolling back to the version a promotion replaced restores every other row; the
      promoted version stays, inactive. */
  lemma RollbackUndoesPromotion(rows: map<Id, Row>, digest: Package -> Id, was: Id, id: Id, row: Row)
    requires Shaped(rows, digest) && ActiveNamed(rows, was, row.name) && id != was
    requires id in rows ==> rows[id].name == row.name
    ensures var promoted := Deactivated(rows, row.name)[id := row];
      was in promoted &&
      var back := Deactivated(promoted, row.name)[was := promoted[was].(active := true)];
      back == rows[id := row.(active := false)]
  {
    var promoted := Deactivated(rows, row.name)[id := row];
    var back := Deactivated(promoted, row.name)[was := promoted[was].(active := true)];
    forall k | k in rows && k != id ensures back[k] == rows[k] {
      if k != was && rows[k].name == row.name {
        assert !ActiveNamed(rows, k, row.name);
      }
    }
    assert back.Keys == rows[id := row.(active := false)].Keys;
  }

  // ---- looking up a parser -------------------------------------------------------------

  predicate SameLayout(g: Engine, p: Package, subject: string, layout: string, f: Fixture)
    requires Sane(g)
  {
    f.subject == subject && Layout(g, p, f.body) == Some(layout)
  }

  /** What a version makes of the message: nothing unless a fixture with the same
      subject has the same layout. */
  function Reading(g: Engine, row: Row, sender: string, subject: string, body: string): Option<Record>
    requires Sane(g)
  {
    var layout := Layout(g, row.package, body);
    if layout.None? then None
    else if exists i :: 0 <= i < |row.fixtures| && SameLayout(g, row.package, subject, layout.value, row.fixtures[i])
    then Extract(g, row.package, sender, subject, body)
    else None
  }

  predicate Applies(rows: map<Id, Row>, g: Engine, sender: string, subject: string, body: string, id: Id)
    requires Sane(g)
  {
    id in rows && rows[id].active && Reading(g, rows[id], sender, subject, body).Some?
  }

  function Applying(rows: map<Id, Row>, g: Engine, sender: string, subject: string, body: string, order: seq<Id>): seq<Id>
    requires Sane(g)
  {
    if order == [] then []
    else
      var n := |order| - 1;
      Applying(rows, g, sender, subject, body, order[..n])
      + if Applies(rows, g, sender, subject, body, order[n]) then [order[n]] else []
  }

  ghost predicate Distinct(order: seq<Id>) {
    forall i, j :: 0 <= i < j < |order| ==> order[i] != order[j]
  }

  lemma {:induction false} ApplyingMembers(rows: map<Id, Row>, g: Engine, sender: string, subject: string, body: string,
                                           order: seq<Id>)
    requires Sane(g) && Distinct(order)
    ensures var found := Applying(rows, g, sender, subject, body, order);
      Distinct(found) && forall id :: id in found <==> id in order && Applies(rows, g, sender, subject, body, id)
  {
    if order == [] {
    } else {
      var n := |order| - 1;
      ApplyingMembers(rows, g, sender, subject, body, order[..n]);
      assert order == order[..n] + [order[n]];
      var rest := Applying(rows, g, sender, subject, body, order[..n]);
      assert order[n] !in order[..n];
      assert forall i :: 0 <= i < |rest| ==> rest[i] in rest;
    }
  }

  /** The one version that applies. */
  ghost predicate Alone(rows: map<Id, Row>, g: Engine, sender: string, subject: string, body: string, id: Id)
    requires Sane(g)
  {
    Applies(rows, g, sender, subject, body, id) && forall j :: Applies(rows, g, sender, subject, body, j) ==> j == id
  }

  /** An active version extracts the record, and one of its fixtures has the subject of the
      message and the layout of its body. */
  ghost predicate ReadBy(rows: map<Id, Row>, g: Engine, sender: string, subject: string, body: string, id: Id, record: Record)
    requires Sane(g)
  {
    && id in rows && rows[id].active && Extract(g, rows[id].package, sender, subject, body) == Some(record)
    && exists k :: 0 <= k < |rows[id].fixtures| && SeenBefore(g, rows[id].package, subject, body, rows[id].fixtures[k])
  }

  ghost predicate SeenBefore(g: Engine, p: Package, subject: string, body: string, f: Fixture)
    requires Sane(g)
  {
    f.subject == subject && Layout(g, p, f.body).Some? && Layout(g, p, f.body) == Layout(g, p, body)
  }

  /** A version's reading of a message: what it extracts, if it has seen the like. */
  lemma ReadingMeans(rows: map<Id, Row>, g: Engine, sender: string, subject: string, body: string, id: Id, record: Record)
    requires Sane(g)
    ensures ReadBy(rows, g, sender, subject, body, id, record) <==>
      id in rows && rows[id].active && Reading(g, rows[id], sender, subject, body) == Some(record)
  {
    if id in rows {
      var row, layout := rows[id], Layout(g, rows[id].package, body);
      forall k | 0 <= k < |row.fixtures|
        ensures SeenBefore(g, row.package, subject, body, row.fixtures[k]) <==>
          layout.Some? && SameLayout(g, row.package, subject, layout.value, row.fixtures[k])
      {
      }
    }
  }

  method Candidates(rows: map<Id, Row>, g: Engine, order: seq<Id>, sender: string, subject: string, body: string)
    returns (found: seq<Id>)
    requires Sane(g)
    ensures found == Applying(rows, g, sender, subject, body, order)
  {
    found := [];
    for i := 0 to |order|
      invariant found == Applying(rows, g, sender, subject, body, order[..i])
    {
      assert order[..i + 1][..i] == order[..i];
      var applies := Applies(rows, g, sender, subject, body, order[i]);
      if applies {
        found := found + [order[i]];
      }
    }
    assert order[..|order|] == order;
  }

  ghost predicate Only(p: Id -> bool, id: Id) {
    p(id) && forall j :: p(j) ==> j == id
  }

  /** A listing has one element exactly when there is only one element to list. */
  lemma OneListed(found: seq<Id>, p: Id -> bool)
    requires Distinct(found) && forall id :: id in found <==> p(id)
    ensures |found| == 1 ==> Only(p, found[0])
    ensures forall id :: Only(p, id) ==> found == [id]
  {
    assert forall i :: 0 <= i < |found| ==> found[i] in found;
    assert |found| >= 2 ==> found[0] != found[1];
    forall id | Only(p, id) ensures found == [id] {
      assert id in found;
      assert forall i :: 0 <= i < |found| ==> found[i] == id;
    }
  }

  lemma OneCandidate(rows: map<Id, Row>, g: Engine, order: seq<Id>, sender: string, subject: string, body: string)
    requires Sane(g) && Distinct(order)
    requires forall id :: Applies(rows, g, sender, subject, body, id) ==> id in order
    ensures var found := Applying(rows, g, sender, subject, body, order);
      && (|found| == 1 ==> Alone(rows, g, sender, subject, body, found[0]))
      && forall id :: Alone(rows, g, sender, subject, body, id) ==> found == [id]
  {
    var found := Applying(rows, g, sender, subject, body, order);
    var p := (id: Id) => Applies(rows, g, sender, subject, body, id);
    ApplyingMembers(rows, g, sender, subject, body, order);
    OneListed(found, p);
    forall id | Alone(rows, g, sender, subject, body, id) ensures found == [id] {
      assert Only(p, id);
    }
  }

  /** The parser a message is read by, whichever order the rows come in: there is one
      exactly when one version alone applies. */
  method Known(rows: map<Id, Row>, g: Engine, order: seq<Id>, sender: string, subject: string, body: string)
    returns (r: Option<(Id, Record)>)
    requires Sane(g) && Distinct(order)
    requires forall id :: id in order <==> id in rows && rows[id].active
    ensures r.Some? <==> exists id :: Alone(rows, g, sender, subject, body, id)
    ensures r.Some? ==> Alone(rows, g, sender, subject, body, r.value.0)
    ensures r.Some? ==> Reading(g, rows[r.value.0], sender, subject, body) == Some(r.value.1)
    ensures r.Some? ==> ReadBy(rows, g, sender, subject, body, r.value.0, r.value.1)
  {
    var found := Candidates(rows, g, order, sender, subject, body);
    OneCandidate(rows, g, order, sender, subject, body);
    if |found| == 1 {
      r := Some((found[0], Reading(g, rows[found[0]], sender, subject, body).value));
    } else {
      r := None;
    }
    if r.Some? {
      ReadingMeans(rows, g, sender, subject, body, r.value.0, r.value.1);
    }
  }
}
