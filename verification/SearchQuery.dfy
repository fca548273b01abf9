/** Compiling structured search filters to an IMAP SEARCH query, with a reader of the
    grammar in section 9 of RFC 3501 for the keys of section 6.4.4. */
module SearchQuery {
  import opened Text
  import opened Wrappers

  datatype Filters = Filters(fromAddress: Option<string>, toAddress: Option<string>, subject: Option<string>,
    since: Option<string>, before: Option<string>, body: Option<string>, keyword: seq<string>)

  datatype Key = From | To | Subject | Since | Before | Body | Keyword

  datatype Criterion = Criterion(key: Key, value: string)

  datatype QueryError = EmptyQuery | NothingToSearch | BadValue | BadRawQuery

  function Given(value: Option<string>, key: Key): seq<Criterion> {
    match value case Some(v) => [Criterion(key, v)] case None => []
  }

  function Keywords(keyword: seq<string>): (r: seq<Criterion>)
    ensures |r| == |keyword|
  {
    seq(|keyword|, i requires 0 <= i < |keyword| => Criterion(Keyword, keyword[i]))
  }

  /** What the filters ask for, in the order of the query. */
  function Criteria(f: Filters): seq<Criterion> {
    Given(f.fromAddress, From) + Given(f.toAddress, To) + Given(f.subject, Subject)
    + Given(f.since, Since) + Given(f.before, Before) + Given(f.body, Body)
    + Keywords(f.keyword)
  }

  function Place(key: Key): nat {
    match key case From => 0 case To => 1 case Subject => 2 case Since => 3 case Before => 4 case Body => 5 case Keyword => 6
  }

  predicate InPlace(cs: seq<Criterion>, last: nat) {
    && (forall i :: 0 <= i < |cs| ==> Place(cs[i].key) <= last)
    && (forall i, j :: 0 <= i < j < |cs| ==> Place(cs[i].key) <= Place(cs[j].key))
  }

  lemma PlacedNext(cs: seq<Criterion>, last: nat, more: seq<Criterion>, key: Key)
    requires InPlace(cs, last) && last <= Place(key) && forall i :: 0 <= i < |more| ==> more[i].key == key
    ensures InPlace(cs + more, Place(key))
  {
  }

  lemma InOrder(f: Filters)
    ensures InPlace(Criteria(f), 6)
  {
    var cs := Given(f.fromAddress, From);
    PlacedNext([], 0, cs, From);
    assert [] + cs == cs;
    PlacedNext(cs, 0, Given(f.toAddress, To), To);
    cs := cs + Given(f.toAddress, To);
    PlacedNext(cs, 1, Given(f.subject, Subject), Subject);
    cs := cs + Given(f.subject, Subject);
    PlacedNext(cs, 2, Given(f.since, Since), Since);
    cs := cs + Given(f.since, Since);
    PlacedNext(cs, 3, Given(f.before, Before), Before);
    cs := cs + Given(f.before, Before);
    PlacedNext(cs, 4, Given(f.body, Body), Body);
    cs := cs + Given(f.body, Body);
    PlacedNext(cs, 5, Keywords(f.keyword), Keyword);
  }

  predicate GivenAs(value: Option<string>, key: Key, c: Criterion) {
    c.key == key && value == Some(c.value)
  }

  lemma GivenAdds(cs: seq<Criterion>, value: Option<string>, key: Key, c: Criterion)
    ensures c in cs + Given(value, key) <==> c in cs || GivenAs(value, key, c)
  {
  }

  /** Each filter by its own name, and all in the order of the query, the keywords last. */
  lemma CriteriaByName(f: Filters, c: Criterion)
    ensures c in Criteria(f) <==> match c.key
      case From => f.fromAddress == Some(c.value)
      case To => f.toAddress == Some(c.value)
      case Subject => f.subject == Some(c.value)
      case Since => f.since == Some(c.value)
      case Before => f.before == Some(c.value)
      case Body => f.body == Some(c.value)
      case Keyword => c.value in f.keyword
    ensures InPlace(Criteria(f), 6)
    ensures |Criteria(f)| >= |f.keyword|
    ensures forall i :: 0 <= i < |f.keyword| ==>
      Criteria(f)[|Criteria(f)| - |f.keyword| + i] == Criterion(Keyword, f.keyword[i])
  {
    InOrder(f);
    var cs := Given(f.fromAddress, From);
    GivenAdds([], f.fromAddress, From, c);
    assert [] + cs == cs;
    GivenAdds(cs, f.toAddress, To, c);
    cs := cs + Given(f.toAddress, To);
    GivenAdds(cs, f.subject, Subject, c);
    cs := cs + Given(f.subject, Subject);
    GivenAdds(cs, f.since, Since, c);
    cs := cs + Given(f.since, Since);
    GivenAdds(cs, f.before, Before, c);
    cs := cs + Given(f.before, Before);
    GivenAdds(cs, f.body, Body, c);
    cs := cs + Given(f.body, Body);
    KeywordsAdd(cs, f.keyword, c);
  }

  lemma KeywordsAdd(cs: seq<Criterion>, keyword: seq<string>, c: Criterion)
    ensures c in cs + Keywords(keyword) <==> c in cs || (c.key == Keyword && c.value in keyword)
  {
    if c.key == Keyword && c.value in keyword {
      var i :| 0 <= i < |keyword| && keyword[i] == c.value;
      assert Keywords(keyword)[i] == c;
    }
  }

  // ---- validation ----------------------------------------------------------------

  predicate QuotableChar(c: char) {
    c != '\r' && c != '\n' && c != '\0'
  }

  predicate ValidQuoted(value: string) {
    forall i :: 0 <= i < |value| ==> QuotableChar(value[i])
  }

  predicate AtomByte(c: char) {
    !(c as int < 0x20) && c as int != 0x7f && c != ' ' && c != '(' && c != ')' && c != '{' && c != '}'
    && c != '"' && c != '\\'
  }

  predicate ValidAtom(value: string) {
    value != "" && forall i :: 0 <= i < |value| ==> AtomByte(value[i])
  }

  predicate RawChar(c: char) {
    QuotableChar(c) && c != '{' && c != '}'
  }

  predicate ValidRaw(value: string) {
    forall i :: 0 <= i < |value| ==> RawChar(value[i])
  }

  predicate TakesString(key: Key) {
    key.From? || key.To? || key.Subject? || key.Body?
  }

  predicate Accepted(c: Criterion) {
    if TakesString(c.key) then ValidQuoted(c.value) else ValidAtom(c.value)
  }

  // ---- rendering -----------------------------------------------------------------

  function EscapeQuoted(value: string): string {
    Replace(Replace(value, {'\\'}, "\\\\"), {'"'}, "\\\"")
  }

  function Name(key: Key): string {
    match key
    case From => "FROM"
    case To => "TO"
    case Subject => "SUBJECT"
    case Since => "SINCE"
    case Before => "BEFORE"
    case Body => "BODY"
    case Keyword => "KEYWORD"
  }

  function Argument(c: Criterion): string {
    if TakesString(c.key) then Quoted(c.value) else c.value
  }

  function Term(c: Criterion): string {
    Name(c.key) + ([' '] + Argument(c))
  }

  function Terms(cs: seq<Criterion>): (r: seq<string>)
    ensures |r| == |cs|
  {
    seq(|cs|, i requires 0 <= i < |cs| => Term(cs[i]))
  }

  /** What each term says, and which values it can be written for. */
  lemma TextTerms(v: string)
    ensures Term(Criterion(From, v)) == "FROM" + ([' '] + ("\"" + (EscapeQuoted(v) + "\"")))
    ensures Term(Criterion(To, v)) == "TO" + ([' '] + ("\"" + (EscapeQuoted(v) + "\"")))
    ensures Term(Criterion(Subject, v)) == "SUBJECT" + ([' '] + ("\"" + (EscapeQuoted(v) + "\"")))
    ensures Term(Criterion(Body, v)) == "BODY" + ([' '] + ("\"" + (EscapeQuoted(v) + "\"")))
  {
  }

  lemma AtomTerms(v: string)
    ensures Term(Criterion(Since, v)) == "SINCE" + ([' '] + v)
    ensures Term(Criterion(Before, v)) == "BEFORE" + ([' '] + v)
    ensures Term(Criterion(Keyword, v)) == "KEYWORD" + ([' '] + v)
  {
  }

  function Quoted(v: string): string {
    "\"" + (EscapeQuoted(v) + "\"")
  }

  predicate Holds(v: string, c: char) {
    exists i :: 0 <= i < |v| && v[i] == c
  }

  lemma AcceptedByName(key: Key, v: string)
    ensures key == From || key == To || key == Subject || key == Body ==>
      (Accepted(Criterion(key, v)) <==> !Holds(v, '\r') && !Holds(v, '\n') && !Holds(v, '\0'))
    ensures key == Since || key == Before || key == Keyword ==>
      (Accepted(Criterion(key, v)) <==> v != "" && forall i :: 0 <= i < |v| ==>
        0x21 <= v[i] as int && v[i] as int != 0x7f && v[i] !in {'(', ')', '{', '}', '"', '\\'})
  {
    if !ValidQuoted(v) {
      var i :| 0 <= i < |v| && !QuotableChar(v[i]);
      assert Holds(v, v[i]);
    }
  }

  // ---- reading -------------------------------------------------------------------

  /** TEXT-CHAR: a 7-bit character other than NUL, CR and LF. */
  predicate TextChar(c: char) {
    0 < c as int < 0x80 && c != '\r' && c != '\n'
  }

  /** The rest of a quoted string: its text and what follows the closing quote. */
  function ReadQuotedRest(s: string): Option<(string, string)> {
    if s == "" then None
    else if s[0] == '"' then Some(("", s[1..]))
    else if s[0] == '\\' then
      if |s| >= 2 && (s[1] == '"' || s[1] == '\\') then Prepend(s[1], ReadQuotedRest(s[2..])) else None
    else if TextChar(s[0]) then Prepend(s[0], ReadQuotedRest(s[1..]))
    else None
  }

  /** ATOM-CHAR: neither a control, nor 8-bit, nor one of the atom-specials. */
  predicate AtomChar(c: char) {
    0x20 < c as int < 0x7f && c != '(' && c != ')' && c != '{' && c != '%' && c != '*' && c != '"' && c != '\\' && c != ']'
  }

  predicate IsAtom(s: string) {
    s != "" && forall i :: 0 <= i < |s| ==> AtomChar(s[i])
  }

  /** Section 9 of RFC 3501: alphabetic tokens are read without regard to case. */
  predicate IsMonth(s: string) {
    UpperCase(s) in {"JAN", "FEB", "MAR", "APR", "MAY", "JUN", "JUL", "AUG", "SEP", "OCT", "NOV", "DEC"}
  }

  /** date-text: one or two digits, a month and four digits. */
  predicate IsDateText(s: string) {
    var parts := Split(s, '-');
    && |parts| == 3
    && 1 <= |parts[0]| <= 2 && AllDigits(parts[0])
    && IsMonth(parts[1])
    && |parts[2]| == 4 && AllDigits(parts[2])
  }

  function TokenEnd(s: string): (i: nat)
    ensures i <= |s|
  {
    match FindChar(s, ' ') case Some(i) => i case None => |s|
  }

  function KeyNamed(name: string): Option<Key> {
    match UpperCase(name)
    case "FROM" => Some(From)
    case "TO" => Some(To)
    case "SUBJECT" => Some(Subject)
    case "SINCE" => Some(Since)
    case "BEFORE" => Some(Before)
    case "BODY" => Some(Body)
    case "KEYWORD" => Some(Keyword)
    case _ => None
  }

  /** The argument of a search key and what follows it. */
  function ReadArgument(key: Key, s: string): Option<(string, string)> {
    if TakesString(key) then
      if s != "" && s[0] == '"' then ReadQuotedRest(s[1..]) else None
    else
      var i := TokenEnd(s);
      if (key.Keyword? && IsAtom(s[..i])) || (!key.Keyword? && IsDateText(s[..i])) then Some((s[..i], s[i..])) else None
  }

  /** A list of search keys separated by single spaces. */
  function ReadSearch(s: string): Option<seq<Criterion>>
    decreases |s|
  {
    match FindChar(s, ' ')
    case None => None
    case Some(i) =>
      var key := KeyNamed(s[..i]);
      if key.None? then None
      else
        match ReadArgument(key.value, s[i + 1..])
        case None => None
        case Some(read) => ReadMore(Criterion(key.value, read.0), read.1, s)
  }

  function ReadMore(c: Criterion, tail: string, s: string): Option<seq<Criterion>>
    decreases |s|, 0
  {
    if tail == "" then Some([c])
    else if |tail| > |s| || tail[0] != ' ' then None
    else
      match ReadSearch(tail[1..])
      case Some(rest) => Some([c] + rest)
      case None => None
  }

  // ---- compiling -------------------------------------------------------------------

  predicate AllAccepted(cs: seq<Criterion>) {
    forall i :: 0 <= i < |cs| ==> Accepted(cs[i])
  }

  lemma AcceptedConcat(a: seq<Criterion>, b: seq<Criterion>)
    ensures AllAccepted(a + b) <==> AllAccepted(a) && AllAccepted(b)
  {
    if AllAccepted(a + b) {
      assert forall i :: 0 <= i < |a| ==> a[i] == (a + b)[i];
      assert forall i :: 0 <= i < |b| ==> b[i] == (a + b)[|a| + i];
    }
  }

  /** One more criterion, refused when its value cannot be written. */
  method PushTerm(ok: bool, terms: seq<string>, given: seq<Criterion>, ghost done: seq<Criterion>)
    returns (good: bool, more: seq<string>)
    requires |given| <= 1 && terms == Terms(done) && (ok <==> AllAccepted(done))
    ensures more == Terms(done + given) && (good <==> AllAccepted(done + given))
  {
    AcceptedConcat(done, given);
    good, more := ok, terms;
    if given != [] {
      good := ok && Accepted(given[0]);
      more := terms + [Term(given[0])];
    }
  }

  method PushKeywords(terms: seq<string>, keyword: seq<string>, ghost done: seq<Criterion>)
    returns (ok: bool, more: seq<string>)
    requires terms == Terms(done)
    ensures ok <==> AllAccepted(Keywords(keyword))
    ensures ok ==> more == Terms(done + Keywords(keyword))
  {
    more := terms;
    for i := 0 to |keyword|
      invariant more == Terms(done + Keywords(keyword)[..i])
      invariant forall j :: 0 <= j < i ==> ValidAtom(keyword[j])
    {
      if !ValidAtom(keyword[i]) {
        assert !Accepted(Keywords(keyword)[i]);
        return false, more;
      }
      assert Keywords(keyword)[..i + 1] == Keywords(keyword)[..i] + [Criterion(Keyword, keyword[i])];
      more := more + [Term(Criterion(Keyword, keyword[i]))];
    }
    assert Keywords(keyword)[..|keyword|] == Keywords(keyword);
    ok := true;
  }

  method PushFilters(f: Filters) returns (ok: bool, terms: seq<string>)
    ensures ok <==> AllAccepted(Criteria(f))
    ensures ok ==> terms == Terms(Criteria(f))
  {
    ghost var done: seq<Criterion>;
    ok, terms, done := true, [], [];
    ok, terms := PushTerm(ok, terms, Given(f.fromAddress, From), done);
    done := done + Given(f.fromAddress, From);
    assert [] + Given(f.fromAddress, From) == Given(f.fromAddress, From);
    ok, terms := PushTerm(ok, terms, Given(f.toAddress, To), done);
    done := done + Given(f.toAddress, To);
    ok, terms := PushTerm(ok, terms, Given(f.subject, Subject), done);
    done := done + Given(f.subject, Subject);
    ok, terms := PushTerm(ok, terms, Given(f.since, Since), done);
    done := done + Given(f.since, Since);
    ok, terms := PushTerm(ok, terms, Given(f.before, Before), done);
    done := done + Given(f.before, Before);
    ok, terms := PushTerm(ok, terms, Given(f.body, Body), done);
    done := done + Given(f.body, Body);
    AcceptedConcat(done, Keywords(f.keyword));
    var good;
    good, terms := PushKeywords(terms, f.keyword, done);
    ok := ok && good;
  }

  /** The query compiled: accepted exactly when there is something to search for and every
      value can be written. */
  method CompileSearchQuery(rawQuery: Option<string>, f: Filters) returns (r: Result<string, QueryError>)
    ensures r.Ok? <==> (rawQuery.Some? ==> Trim(rawQuery.value) != "" && ValidRaw(Trim(rawQuery.value)))
                       && (rawQuery.None? ==> Criteria(f) != []) && AllAccepted(Criteria(f))
    ensures r.Ok? ==> r.value == Join(Terms(Criteria(f)) + (if rawQuery.Some? then [Trim(rawQuery.value)] else []), " ")
    ensures r == Err(EmptyQuery) <==> rawQuery.Some? && Trim(rawQuery.value) == ""
    ensures r == Err(NothingToSearch) <==> rawQuery.None? && Criteria(f) == []
    ensures r == Err(BadValue) <==> r != Err(EmptyQuery) && r != Err(NothingToSearch) && !AllAccepted(Criteria(f))
    // without a raw part the filters, and no others, come back when every value has a form
    ensures r.Ok? && rawQuery.None? ==>
      if AllConform(Criteria(f)) then forall g :: ReadSearch(r.value) == Some(Criteria(g)) <==> g == f
      else ReadSearch(r.value) == None
  {
    if rawQuery.Some? && Trim(rawQuery.value) == "" {
      return Err(EmptyQuery);
    }
    if rawQuery.None? && Criteria(f) == [] {
      return Err(NothingToSearch);
    }
    var ok, terms := PushFilters(f);
    if !ok {
      return Err(BadValue);
    }
    if rawQuery.Some? {
      var raw := Trim(rawQuery.value);
      if !ValidRaw(raw) {
        return Err(BadRawQuery);
      }
      terms := terms + [raw];
    }
    assert terms + [] == terms;
    r := Ok(Join(terms, " "));
    if rawQuery.None? {
      QueryReadsBack(Criteria(f));
      forall g | Criteria(g) == Criteria(f) ensures g == f {
        CriteriaInjective(g, f);
      }
    }
  }

  // ---- reading back ------------------------------------------------------------------

  function EscapeQuotedChar(c: char): string {
    if c == '\\' then "\\\\" else if c == '"' then "\\\"" else [c]
  }

  lemma EscapeQuotedAlone(c: char)
    ensures EscapeQuoted([c]) == EscapeQuotedChar(c)
  {
    ReplaceOne(c, {'\\'}, "\\\\");
    if c == '\\' {
      Untouched("\\\\", {'"'}, "\\\"");
    } else {
      ReplaceOne(c, {'"'}, "\\\"");
    }
  }

  lemma EscapeQuotedHead(c: char, s: string)
    ensures EscapeQuoted([c] + s) == EscapeQuotedChar(c) + EscapeQuoted(s)
  {
    ReplaceConcat([c], s, {'\\'}, "\\\\");
    ReplaceConcat(Replace([c], {'\\'}, "\\\\"), Replace(s, {'\\'}, "\\\\"), {'"'}, "\\\"");
    EscapeQuotedAlone(c);
  }

  predicate AllText(value: string) {
    forall i :: 0 <= i < |value| ==> TextChar(value[i])
  }

  lemma ReadEscapedChar(c: char, tail: string)
    requires QuotableChar(c)
    ensures ReadQuotedRest(EscapeQuotedChar(c) + tail) == if TextChar(c) then Prepend(c, ReadQuotedRest(tail)) else None
  {
  }

  /** A quoted string reads back exactly when it is 7-bit text. */
  lemma {:induction false} ReadEscaped(value: string, tail: string)
    requires ValidQuoted(value)
    ensures ReadQuotedRest(EscapeQuoted(value) + ("\"" + tail)) == if AllText(value) then Some((value, tail)) else None
  {
    if value == "" {
      assert EscapeQuoted(value) + ("\"" + tail) == "\"" + tail;
      assert ("\"" + tail)[1..] == tail;
    } else {
      var c, rest := value[0], value[1..];
      assert [c] + rest == value;
      EscapeQuotedHead(c, rest);
      ReadEscaped(rest, tail);
      var more := EscapeQuoted(rest) + ("\"" + tail);
      assert EscapeQuoted(value) + ("\"" + tail) == EscapeQuotedChar(c) + more;
      ReadEscapedChar(c, more);
      assert AllText(value) <==> TextChar(c) && AllText(rest) by {
        if TextChar(c) && AllText(rest) {
          assert forall i :: 0 < i < |value| ==> value[i] == rest[i - 1];
        }
      }
    }
  }

  /** The value is one the grammar has a form for. */
  predicate Conforms(c: Criterion) {
    if TakesString(c.key) then AllText(c.value)
    else if c.key.Keyword? then IsAtom(c.value)
    else IsDateText(c.value)
  }

  predicate EndsTerm(tail: string) {
    tail == "" || tail[0] == ' '
  }

  lemma ReadTermArgument(c: Criterion, tail: string)
    requires Accepted(c) && EndsTerm(tail)
    ensures ReadArgument(c.key, Argument(c) + tail) == if Conforms(c) then Some((c.value, tail)) else None
  {
    var s := Argument(c) + tail;
    if TakesString(c.key) {
      ReadEscaped(c.value, tail);
      assert s[1..] == EscapeQuoted(c.value) + ("\"" + tail);
    } else {
      if tail == "" {
        assert s == c.value;
        assert FindChar(s, ' ').None?;
      } else {
        FindCharAfter(c.value, ' ', tail);
      }
      assert s[..|c.value|] == c.value && s[|c.value|..] == tail;
    }
  }

  lemma NameReadsBack(key: Key)
    ensures KeyNamed(Name(key)) == Some(key) && Without(Name(key), ' ')
  {
    assert UpperCase(Name(key)) == Name(key);
  }

  lemma SpaceAfter(name: string, argument: string, tail: string)
    ensures (name + ([' '] + argument)) + tail == name + ([' '] + (argument + tail))
    ensures (name + ([' '] + (argument + tail)))[|name| + 1..] == argument + tail
  {
  }

  lemma ReadTerm(c: Criterion, tail: string)
    requires Accepted(c) && EndsTerm(tail)
    ensures ReadSearch(Term(c) + tail) == if Conforms(c) then ReadMore(c, tail, Term(c) + tail) else None
  {
    NameReadsBack(c.key);
    SpaceAfter(Name(c.key), Argument(c), tail);
    FindCharAfter(Name(c.key), ' ', [' '] + (Argument(c) + tail));
    ReadTermArgument(c, tail);
  }

  predicate AllConform(cs: seq<Criterion>) {
    forall i :: 0 <= i < |cs| ==> Conforms(cs[i])
  }

  lemma ConformHead(cs: seq<Criterion>)
    requires cs != []
    ensures AllConform(cs) <==> Conforms(cs[0]) && AllConform(cs[1..])
  {
  }

  lemma JoinedTerms(cs: seq<Criterion>)
    requires |cs| > 1
    ensures Join(Terms(cs), " ") == Term(cs[0]) + ([' '] + Join(Terms(cs[1..]), " "))
  {
    assert Terms(cs)[1..] == Terms(cs[1..]);
  }

  lemma ReadMoreThan(c: Criterion, more: string, rest: Option<seq<Criterion>>)
    requires ReadSearch(more) == rest
    ensures ReadMore(c, [' '] + more, Term(c) + ([' '] + more)) == if rest.Some? then Some([c] + rest.value) else None
  {
  }

  /** A compiled query without a raw part reads back as the same criteria exactly when
      every string is 7-bit, every keyword an atom and every date a date of the grammar. */
  lemma {:induction false} QueryReadsBack(cs: seq<Criterion>)
    requires cs != [] && AllAccepted(cs)
    ensures ReadSearch(Join(Terms(cs), " ")) == if AllConform(cs) then Some(cs) else None
    decreases |cs|
  {
    ConformHead(cs);
    if |cs| == 1 {
      ReadTerm(cs[0], "");
      assert Term(cs[0]) + "" == Term(cs[0]) == Join(Terms(cs), " ");
      assert [cs[0]] == cs;
    } else {
      QueryReadsBack(cs[1..]);
      var more := Join(Terms(cs[1..]), " ");
      JoinedTerms(cs);
      ReadTerm(cs[0], [' '] + more);
      ReadMoreThan(cs[0], more, ReadSearch(more));
      assert [cs[0]] + cs[1..] == cs;
    }
  }

  // ---- the filters themselves ----------------------------------------------------------

  predicate Lacks(cs: seq<Criterion>, key: Key) {
    forall i :: 0 <= i < |cs| ==> cs[i].key != key
  }

  lemma GivenAgree(a: Option<string>, b: Option<string>, key: Key, r: seq<Criterion>, t: seq<Criterion>)
    requires Given(a, key) + r == Given(b, key) + t && Lacks(r, key) && Lacks(t, key)
    ensures a == b && r == t
  {
    var left, right := Given(a, key) + r, Given(b, key) + t;
    assert a.Some? ==> left[0] == Criterion(key, a.value);
    assert b.Some? ==> right[0] == Criterion(key, b.value);
    assert a.None? ==> left == r;
    assert b.None? ==> right == t;
    assert a.Some? ==> left[1..] == r;
    assert b.Some? ==> right[1..] == t;
  }

  function FromBody(f: Filters): seq<Criterion> {
    Given(f.body, Body) + Keywords(f.keyword)
  }

  function FromSince(f: Filters): seq<Criterion> {
    Given(f.since, Since) + (Given(f.before, Before) + FromBody(f))
  }

  function FromAll(f: Filters): seq<Criterion> {
    Given(f.fromAddress, From) + (Given(f.toAddress, To) + (Given(f.subject, Subject) + FromSince(f)))
  }

  lemma KeywordsAgree(a: seq<string>, b: seq<string>)
    requires Keywords(a) == Keywords(b)
    ensures a == b
  {
    forall i | 0 <= i < |a| && i < |b| ensures a[i] == b[i] {
      assert Keywords(a)[i] == Criterion(Keyword, a[i]) && Keywords(b)[i] == Criterion(Keyword, b[i]);
    }
    assert |a| == |b|;
  }

  lemma BodyAgree(f: Filters, g: Filters)
    requires FromBody(f) == FromBody(g)
    ensures f.body == g.body && f.keyword == g.keyword
  {
    GivenAgree(f.body, g.body, Body, Keywords(f.keyword), Keywords(g.keyword));
    KeywordsAgree(f.keyword, g.keyword);
  }

  lemma SinceAgree(f: Filters, g: Filters)
    requires FromSince(f) == FromSince(g)
    ensures f.since == g.since && f.before == g.before && f.body == g.body && f.keyword == g.keyword
  {
    GivenAgree(f.since, g.since, Since, Given(f.before, Before) + FromBody(f), Given(g.before, Before) + FromBody(g));
    GivenAgree(f.before, g.before, Before, FromBody(f), FromBody(g));
    BodyAgree(f, g);
  }

  lemma CriteriaGrouped(f: Filters)
    ensures Criteria(f) == FromAll(f)
  {
    var a, b, c := Given(f.fromAddress, From), Given(f.toAddress, To), Given(f.subject, Subject);
    var d, e, g := Given(f.since, Since), Given(f.before, Before), Given(f.body, Body);
    Regroup(a + b + c + d + e, g, Keywords(f.keyword));
    Regroup(a + b + c + d, e, FromBody(f));
    Regroup(a + b + c, d, e + FromBody(f));
    Regroup(a + b, c, FromSince(f));
    Regroup(a, b, c + FromSince(f));
  }

  /** The criteria determine the filters. */
  lemma CriteriaInjective(f: Filters, g: Filters)
    requires Criteria(f) == Criteria(g)
    ensures f == g
  {
    CriteriaGrouped(f);
    CriteriaGrouped(g);
    AllAgree(f, g);
  }

  lemma AllAgree(f: Filters, g: Filters)
    requires FromAll(f) == FromAll(g)
    ensures f == g
  {
    var fs, gs := Given(f.subject, Subject) + FromSince(f), Given(g.subject, Subject) + FromSince(g);
    GivenAgree(f.fromAddress, g.fromAddress, From, Given(f.toAddress, To) + fs, Given(g.toAddress, To) + gs);
    GivenAgree(f.toAddress, g.toAddress, To, fs, gs);
    GivenAgree(f.subject, g.subject, Subject, FromSince(f), FromSince(g));
    SinceAgree(f, g);
  }
}
