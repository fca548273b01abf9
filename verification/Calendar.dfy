/** Rendering travel events as an iCalendar feed of RFC 5545: content lines, text escapes
    and the folding of long lines. Date and URL parsing are parameters. */
module Calendar {
  import opened Text
  import opened Wrappers

  // ---- octets ----------------------------------------------------------------

  /** The octets of a character in UTF-8. */
  function Width(c: char): (w: nat)
    ensures 1 <= w <= 4
    ensures (w == 1 <==> c as int < 0x80) && (w <= 2 <==> c as int < 0x800) && (w <= 3 <==> c as int < 0x1_0000)
  {
    if c as int < 0x80 then 1 else if c as int < 0x800 then 2 else if c as int < 0x1_0000 then 3 else 4
  }

  function Octets(s: string): (n: nat)
    ensures |s| <= n
  {
    if s == [] then 0 else Octets(s[..|s| - 1]) + Width(s[|s| - 1])
  }

  /** An ASCII character is one octet. */
  lemma {:induction false} AsciiOctets(s: string)
    requires forall i :: 0 <= i < |s| ==> s[i] as int < 128
    ensures Octets(s) == |s|
  {
    if s == [] {
    } else {
      AsciiOctets(s[..|s| - 1]);
    }
  }

  lemma {:induction false} OctetsConcat(s: string, t: string)
    ensures Octets(s + t) == Octets(s) + Octets(t)
  {
    if t == [] {
      assert s + t == s;
    } else {
      var n := |t| - 1;
      assert (s + t)[..|s| + n] == s + t[..n];
      OctetsConcat(s, t[..n]);
    }
  }

  /** The character boundary at an octet offset: how many characters lie before it. */
  function BoundaryBelow(s: string, end: nat, k: nat): (r: Option<nat>)
    requires k <= |s|
    ensures r.Some? ==> r.value <= k && Octets(s[..r.value]) == end
    ensures r.None? ==> forall j :: 0 <= j <= k ==> Octets(s[..j]) != end
  {
    if Octets(s[..k]) == end then Some(k)
    else if k == 0 then None
    else BoundaryBelow(s, end, k - 1)
  }

  function Boundary(s: string, end: nat): (r: Option<nat>)
    ensures r.Some? ==> r.value <= |s| && Octets(s[..r.value]) == end
    ensures r.None? ==> forall j :: 0 <= j <= |s| ==> Octets(s[..j]) != end
  {
    BoundaryBelow(s, end, |s|)
  }

  lemma {:induction false} OctetsGrow(s: string, j: nat, k: nat)
    requires j <= k <= |s|
    ensures Octets(s[..j]) <= Octets(s[..k])
    ensures j < k ==> Octets(s[..j]) + Width(s[j]) <= Octets(s[..k])
  {
    if j == k {
    } else {
      assert s[..k][..k - 1] == s[..k - 1];
      OctetsGrow(s, j, k - 1);
    }
  }

  /** As many whole characters as fit the budget, looked for from the budget down. */
  method LastBoundary(s: string, budget: nat) returns (k: nat)
    requires s != [] && budget >= 4
    ensures 0 < k <= |s| && Octets(s[..k]) <= budget
    ensures k < |s| ==> Octets(s[..k]) + Width(s[k]) > budget
  {
    var end := if Octets(s) <= budget then Octets(s) else budget;
    assert s[..|s|] == s && s[..0] == [];
    ghost var top := end;
    while Boundary(s, end).None?
      invariant 0 <= end <= top
      invariant forall j :: 0 <= j <= |s| && Octets(s[..j]) <= top ==> Octets(s[..j]) <= end
      decreases end
    {
      end := end - 1;
    }
    k := Boundary(s, end).value;
    assert s[..1] == [s[0]] && Octets([s[0]]) == Width(s[0]) by {
      assert [s[0]][..0] == [];
    }
    OctetsGrow(s, 1, |s|);
    if k < |s| {
      assert s[..k + 1][..k] == s[..k];
      OctetsGrow(s, k, |s|);
    }
  }

  // ---- folding -----------------------------------------------------------------

  predicate Continues(line: string) {
    line != [] && (line[0] == ' ' || line[0] == '\t')
  }

  /** Section 3.1 of RFC 5545: a line beginning with white space continues the one before. */
  function Unfold(physical: seq<string>): seq<string> {
    if physical == [] then []
    else
      var n := |physical| - 1;
      var before := Unfold(physical[..n]);
      if Continues(physical[n]) && before != []
      then before[..|before| - 1] + [before[|before| - 1] + physical[n][1..]]
      else before + [physical[n]]
  }

  lemma UnfoldLast(physical: seq<string>, line: string)
    ensures var before := Unfold(physical);
      Unfold(physical + [line]) ==
        if Continues(line) && before != []
        then before[..|before| - 1] + [before[|before| - 1] + line[1..]]
        else before + [line]
  {
  }

  /** Physical lines are short enough, and none breaks a line by itself. */
  predicate Physical(line: string) {
    Octets(line) <= 75 && forall i :: 0 <= i < |line| ==> line[i] != '\r' && line[i] != '\n'
  }

  predicate AllPhysical(lines: seq<string>) {
    forall line :: line in lines ==> Physical(line)
  }

  predicate OneLine(s: string) {
    forall i :: 0 <= i < |s| ==> s[i] != '\r' && s[i] != '\n'
  }

  /** Lines folded so far stand for the content lines, and the last one is line so far. */
  ghost predicate Folding(before: seq<string>, out: seq<string>, line: string, done: nat)
    requires done <= |line|
  {
    && AllPhysical(out)
    && (out == [] <==> done == 0)
    && (out != [] ==> Unfold(before + out) == Unfold(before) + [line[..done]])
  }

  lemma UnfoldOnto(physical: seq<string>, line: string, before: seq<string>, last: string)
    requires Unfold(physical) == before + [last] && Continues(line)
    ensures Unfold(physical + [line]) == before + [last + line[1..]]
  {
  }

  /** The next physical line: a part of the content line, after a space unless it is the first. */
  function Chunk(line: string, done: nat, k: nat): string
    requires done <= k <= |line|
  {
    if done == 0 then line[..k] else [' '] + line[done..k]
  }

  lemma FoldFirst(before: seq<string>, line: string, k: nat)
    requires OneLine(line) && !Continues(line) && 0 < k <= |line| && Octets(line[..k]) <= 75
    ensures Folding(before, [line[..k]], line, k)
  {
  }

  lemma ChunkFits(line: string, done: nat, k: nat)
    requires OneLine(line) && 0 < done < k <= |line| && Octets(line[done..k]) <= 74
    ensures Physical([' '] + line[done..k])
  {
    OctetsConcat([' '], line[done..k]);
    assert [' '][..0] == [];
  }

  lemma FoldNext(before: seq<string>, out: seq<string>, line: string, done: nat, k: nat)
    requires OneLine(line) && 0 < done < k <= |line| && Folding(before, out, line, done)
    requires Octets(line[done..k]) <= 74
    ensures Folding(before, out + [[' '] + line[done..k]], line, k)
  {
    var next := [' '] + line[done..k];
    ChunkFits(line, done, k);
    UnfoldOnto(before + out, next, Unfold(before), line[..done]);
    assert before + (out + [next]) == (before + out) + [next];
    assert next[1..] == line[done..k];
    assert line[..done] + line[done..k] == line[..k];
  }

  lemma FoldStep(before: seq<string>, out: seq<string>, line: string, done: nat, k: nat)
    requires OneLine(line) && !Continues(line) && done < k <= |line| && Folding(before, out, line, done)
    requires Octets(line[done..k]) <= if done == 0 then 75 else 74
    ensures Folding(before, out + [Chunk(line, done, k)], line, k)
  {
    if done == 0 {
      FoldFirst(before, line, k);
      assert [] + [line[..k]] == [line[..k]];
    } else {
      FoldNext(before, out, line, done, k);
    }
  }

  /** Whatever lines come before, unfolding after them gives back the line. */
  method FoldLine(line: string, ghost before: seq<string>) returns (out: seq<string>)
    requires line != [] && OneLine(line) && !Continues(line)
    ensures out != [] && AllPhysical(out)
    ensures Unfold(before + out) == Unfold(before) + [line]
    ensures Octets(line) <= 75 ==> out == [line]
  {
    if Octets(line) <= 75 {
      UnfoldLast(before, line);
      return [line];
    }
    out := FoldLong(line, before);
    assert line[..|line|] == line;
  }

  lemma TakeOfDrop(s: string, i: nat, n: nat)
    requires i + n <= |s|
    ensures s[i..][..n] == s[i..i + n]
    ensures i == 0 ==> s[i..i + n] == s[..n]
  {
  }

  method NextCut(line: string, done: nat) returns (k: nat)
    requires done < |line|
    ensures done < k <= |line| && Octets(line[done..k]) <= if done == 0 then 75 else 74
  {
    var size := LastBoundary(line[done..], if done == 0 then 75 else 74);
    TakeOfDrop(line, done, size);
    k := done + size;
  }

  method FoldLong(line: string, ghost before: seq<string>) returns (out: seq<string>)
    requires line != [] && OneLine(line) && !Continues(line)
    ensures Folding(before, out, line, |line|)
  {
    out := [];
    var done := 0;
    while done < |line|
      invariant done <= |line| && Folding(before, out, line, done)
    {
      var k := NextCut(line, done);
      TakeOfDrop(line, 0, k);
      FoldStep(before, out, line, done, k);
      out := out + [Chunk(line, done, k)];
      done := k;
    }
  }

  // ---- reading a calendar --------------------------------------------------------

  /** The lines of a text whose lines end in CRLF. */
  function ReadLines(text: string): seq<string>
    decreases |text|
  {
    match FindPair(text, '\r', '\n')
    case None => if text == "" then [] else [text]
    case Some(i) => [text[..i]] + ReadLines(text[i + 2..])
  }

  function Terminated(lines: seq<string>): string {
    if lines == [] then "" else lines[0] + "\r\n" + Terminated(lines[1..])
  }

  lemma {:induction false} TerminatedIsJoin(lines: seq<string>)
    requires lines != []
    ensures Terminated(lines) == Join(lines, "\r\n") + "\r\n"
  {
    if |lines| == 1 {
      assert lines[1..] == [];
      assert lines[0] + "\r\n" + "" == lines[0] + "\r\n";
    } else {
      TerminatedIsJoin(lines[1..]);
      var rest := Join(lines[1..], "\r\n");
      assert lines[0] + "\r\n" + (rest + "\r\n") == lines[0] + "\r\n" + rest + "\r\n";
    }
  }

  lemma {:induction false} ReadTerminated(lines: seq<string>)
    requires forall line :: line in lines ==> OneLine(line)
    ensures ReadLines(Terminated(lines)) == lines
  {
    if lines == [] {
    } else {
      var rest := Terminated(lines[1..]);
      var text := lines[0] + "\r\n" + rest;
      ReadTerminated(lines[1..]);
      assert OneLine(lines[0]);
      assert PairAt(text, |lines[0]|, '\r', '\n');
      assert forall j: nat :: j < |lines[0]| ==> text[j] == lines[0][j];
      assert FindPair(text, '\r', '\n') == Some(|lines[0]|);
      assert text[..|lines[0]|] == lines[0] && text[|lines[0]| + 2..] == rest;
    }
  }

  // ---- text values -----------------------------------------------------------------

  function EscapeText(s: string): string {
    Replace(Replace(Replace(Replace(s, {'\\'}, "\\\\"), {'\r', '\n'}, "\\n"), {';'}, "\\;"), {','}, "\\,")
  }

  /** Section 3.3.11 of RFC 5545. */
  function UnescapeText(s: string): string
    decreases |s|
  {
    if s == [] then ""
    else if s[0] != '\\' || |s| == 1 then [s[0]] + UnescapeText(s[1..])
    else [if s[1] == 'n' || s[1] == 'N' then '\n' else s[1]] + UnescapeText(s[2..])
  }

  function NewlinesOnly(s: string): string {
    Replace(s, {'\r'}, "\n")
  }

  function EscapeChar(c: char): string {
    if c == '\\' then "\\\\" else if c == '\r' || c == '\n' then "\\n" else if c == ';' then "\\;"
    else if c == ',' then "\\," else [c]
  }

  /** The four replacements one after the other escape each character once. */
  lemma EscapeHead(c: char, s: string)
    ensures EscapeText([c] + s) == EscapeChar(c) + EscapeText(s)
  {
    var first := Replace([c], {'\\'}, "\\\\");
    var s1 := Replace(s, {'\\'}, "\\\\");
    ReplaceConcat([c], s, {'\\'}, "\\\\");
    var second := Replace(first, {'\r', '\n'}, "\\n");
    var s2 := Replace(s1, {'\r', '\n'}, "\\n");
    ReplaceConcat(first, s1, {'\r', '\n'}, "\\n");
    var third := Replace(second, {';'}, "\\;");
    var s3 := Replace(s2, {';'}, "\\;");
    ReplaceConcat(second, s2, {';'}, "\\;");
    ReplaceConcat(third, s3, {','}, "\\,");
    EscapeAlone(c);
  }

  lemma EscapeAlone(c: char)
    ensures EscapeText([c]) == EscapeChar(c)
  {
    ReplaceOne(c, {'\\'}, "\\\\");
    if c == '\\' {
      Untouched("\\\\", {'\r', '\n'}, "\\n");
      Untouched("\\\\", {';'}, "\\;");
      Untouched("\\\\", {','}, "\\,");
    } else {
      ReplaceOne(c, {'\r', '\n'}, "\\n");
      if c == '\r' || c == '\n' {
        Untouched("\\n", {';'}, "\\;");
        Untouched("\\n", {','}, "\\,");
      } else {
        ReplaceOne(c, {';'}, "\\;");
        if c == ';' {
          Untouched("\\;", {','}, "\\,");
        } else {
          ReplaceOne(c, {','}, "\\,");
        }
      }
    }
  }

  lemma UnescapeHead(c: char, tail: string)
    ensures UnescapeText(EscapeChar(c) + tail) == [if c == '\r' then '\n' else c] + UnescapeText(tail)
  {
  }

  /** Unescaping recovers every text, with a carriage return read as a newline. */
  lemma {:induction false} UnescapeOfEscape(s: string)
    ensures UnescapeText(EscapeText(s)) == NewlinesOnly(s)
    ensures OneLine(EscapeText(s))
  {
    if s == [] {
    } else {
      assert [s[0]] + s[1..] == s;
      EscapeHead(s[0], s[1..]);
      UnescapeOfEscape(s[1..]);
      UnescapeHead(s[0], EscapeText(s[1..]));
    }
  }

  // ---- events ------------------------------------------------------------------------

  predicate StampChar(c: char) {
    IsDigit(c) || c == 'T' || c == 'Z'
  }

  /** A formatted date or time. */
  type Stamp = s: string | forall i :: 0 <= i < |s| ==> StampChar(s[i]) witness ""

  /** The date and URL parsers, UTF-8, and the clock. Instants are formatted in UTC. */
  datatype Parsers = Parsers(instant: string -> Option<Stamp>, day: string -> Option<Stamp>,
                             local: string -> Option<Stamp>, webUrl: string -> bool,
                             utf8: string -> seq<Byte>, now: Stamp)

  datatype Event = Event(id: string, summary: string, description: Option<string>, location: Option<string>,
                         startAt: string, endAt: Option<string>, timezone: Option<string>, status: string,
                         sequence: nat, updatedAt: Option<string>, url: Option<string>, alarmMinutes: Option<nat>)

  datatype Property =
    | Begin | End | Version | Prodid | Calscale | Method | CalName | PublishedTtl
    | Uid | Dtstamp | LastModified | Sequence | Summary | Description | Location | Dtstart | Dtend | Status | Url
    | Action | Trigger | Transp

  function NameOf(p: Property): string {
    match p
    case Begin => "BEGIN"
    case End => "END"
    case Version => "VERSION"
    case Prodid => "PRODID"
    case Calscale => "CALSCALE"
    case Method => "METHOD"
    case CalName => "X-WR-CALNAME"
    case PublishedTtl => "X-PUBLISHED-TTL"
    case Uid => "UID"
    case Dtstamp => "DTSTAMP"
    case LastModified => "LAST-MODIFIED"
    case Sequence => "SEQUENCE"
    case Summary => "SUMMARY"
    case Description => "DESCRIPTION"
    case Location => "LOCATION"
    case Dtstart => "DTSTART"
    case Dtend => "DTEND"
    case Status => "STATUS"
    case Url => "URL"
    case Action => "ACTION"
    case Trigger => "TRIGGER"
    case Transp => "TRANSP"
  }

  function PropertyNamed(name: string): Option<Property> {
    if name == "BEGIN" then Some(Begin)
    else if name == "END" then Some(End)
    else if name == "VERSION" then Some(Version)
    else if name == "PRODID" then Some(Prodid)
    else if name == "CALSCALE" then Some(Calscale)
    else if name == "METHOD" then Some(Method)
    else if name == "X-WR-CALNAME" then Some(CalName)
    else if name == "X-PUBLISHED-TTL" then Some(PublishedTtl)
    else if name == "UID" then Some(Uid)
    else if name == "DTSTAMP" then Some(Dtstamp)
    else if name == "LAST-MODIFIED" then Some(LastModified)
    else if name == "SEQUENCE" then Some(Sequence)
    else if name == "SUMMARY" then Some(Summary)
    else if name == "DESCRIPTION" then Some(Description)
    else if name == "LOCATION" then Some(Location)
    else if name == "DTSTART" then Some(Dtstart)
    else if name == "DTEND" then Some(Dtend)
    else if name == "STATUS" then Some(Status)
    else if name == "URL" then Some(Url)
    else if name == "ACTION" then Some(Action)
    else if name == "TRIGGER" then Some(Trigger)
    else if name == "TRANSP" then Some(Transp)
    else None
  }

  /** Text that breaks no line. */
  type Clean = s: string | OneLine(s) witness ""

  /** Parameters, with a leading semicolon: told from the name before and the value after. */
  type Params = s: string | IsParams(s) witness ""

  predicate IsParams(s: string) {
    (s == "" || s[0] == ';') && Without(s, ':') && OneLine(s)
  }

  /** A content line. */
  datatype Line = Line(property: Property, params: Params, value: Clean)

  function TextOf(line: Line): string {
    (NameOf(line.property) + line.params) + ([':'] + line.value)
  }

  predicate HasDate(e: Event, p: Parsers) {
    p.instant(e.startAt).Some? || p.day(e.startAt).Some? || p.local(e.startAt).Some?
  }

  predicate Filled(text: Option<string>) {
    text.Some? && Trim(text.value) != ""
  }

  predicate ZoneChar(c: char) {
    Alphanumeric(c) || c == '/' || c == '_' || c == '-' || c == '+'
  }

  predicate ValidTzid(value: string) {
    value != "" && Octets(value) <= 64 && forall i :: 0 <= i < |value| ==> ZoneChar(value[i])
  }

  predicate IsControl(c: char) {
    c as int < 0x20 || 0x7f <= c as int < 0xa0
  }

  predicate ValidActionUrl(raw: string, p: Parsers) {
    (forall i :: 0 <= i < |raw| ==> !IsControl(raw[i])) && p.webUrl(raw)
  }

  function LowerAscii(s: string): string {
    seq(|s|, i requires 0 <= i < |s| => if 'A' <= s[i] <= 'Z' then s[i] + 32 as char else s[i])
  }

  predicate Cancelled(e: Event) {
    LowerAscii(e.status) == "cancelled" || LowerAscii(e.status) == "canceled"
  }

  lemma ZoneIsParams(tzid: string)
    requires ValidTzid(tzid)
    ensures IsParams(";TZID=" + tzid)
  {
  }

  function RenderDate(field: Property, raw: string, timezone: Option<string>, p: Parsers): (line: Line)
    ensures line.property == field
  {
    if p.instant(raw).Some? then Line(field, "", p.instant(raw).value)
    else if p.day(raw).Some? then Line(field, ";VALUE=DATE", p.day(raw).value)
    else if p.local(raw).Some? then
      if timezone.Some? && ValidTzid(timezone.value) then
        ZoneIsParams(timezone.value);
        Line(field, ";TZID=" + timezone.value, p.local(raw).value)
      else Line(field, "", p.local(raw).value)
    else Line(field, ";VALUE=DATE", "19700101")
  }

  function UtcStamp(raw: Option<string>, p: Parsers): Stamp {
    if raw.Some? && p.instant(raw.value).Some? then p.instant(raw.value).value else p.now
  }

  function LowerHex(d: nat): char
    requires d < 16
  {
    if d < 10 then '0' + d as char else 'a' + (d - 10) as char
  }

  function SafeUid(octets: seq<Byte>): Clean
  {
    if octets == [] then ""
    else
      var c := octets[0] as char;
      (if Alphanumeric(c) || c == '-' || c == '_' then [c] else ['-', LowerHex(octets[0] / 16), LowerHex(octets[0] % 16)])
      + SafeUid(octets[1..])
  }

  /** Digits, letters, hyphen and underscore of ASCII. */
  predicate PlainOctet(b: Byte) {
    48 <= b <= 57 || 65 <= b <= 90 || 97 <= b <= 122 || b == 45 || b == 95
  }

  /** An octet of an id stands as it is or as a dash and its two hexadecimal digits. */
  lemma SafeUidOctet(b: Byte, rest: seq<Byte>)
    ensures PlainOctet(b) ==> SafeUid([b] + rest) == [b as char] + SafeUid(rest)
    ensures !PlainOctet(b) ==> exists x, y ::
      && SafeUid([b] + rest) == ['-', x, y] + SafeUid(rest) && HexPair(x, y) == Some(b)
      && !('A' <= x <= 'F') && !('A' <= y <= 'F') && x != '+'
  {
    assert ([b] + rest)[1..] == rest;
    if !PlainOctet(b) {
      var x, y := LowerHex(b / 16), LowerHex(b % 16);
      LowerHexReads(b / 16);
      LowerHexReads(b % 16);
      assert SafeUid([b] + rest) == ['-', x, y] + SafeUid(rest);
    }
  }

  lemma LowerHexReads(d: nat)
    requires d < 16
    ensures HexDigit(LowerHex(d)) == Some(d) && !('A' <= LowerHex(d) <= 'F')
  {
  }

  // ---- content lines -------------------------------------------------------------------

  function Escaped(text: string): (r: Clean)
    ensures r == EscapeText(text)
  {
    UnescapeOfEscape(text);
    EscapeText(text)
  }

  function UidText(id: Clean): Clean {
    "segment-" + id + "@envelope.travel"
  }

  function Plain(property: Property, value: Clean): Line {
    Line(property, "", value)
  }

  function When(b: bool, line: Line): seq<Line> {
    if b then [line] else []
  }

  function IdentityLines(e: Event, p: Parsers): seq<Line> {
    [Plain(Uid, UidText(SafeUid(p.utf8(e.id)))), Plain(Dtstamp, UtcStamp(e.updatedAt, p))]
    + When(e.updatedAt.Some?, Plain(LastModified, UtcStamp(e.updatedAt, p)))
    + [Plain(Sequence, Decimal(e.sequence))]
  }

  function TextLine(property: Property, text: Option<string>): seq<Line> {
    if Filled(text) then [Plain(property, Escaped(text.value))] else []
  }

  function DetailLines(e: Event): seq<Line> {
    TextLine(Description, e.description) + TextLine(Location, e.location)
  }

  function DateLines(e: Event, p: Parsers): seq<Line> {
    [RenderDate(Dtstart, e.startAt, e.timezone, p)]
    + (if Filled(e.endAt) then [RenderDate(Dtend, e.endAt.value, e.timezone, p)] else [])
  }

  function StatusLines(e: Event, p: Parsers): seq<Line> {
    [Plain(Status, if Cancelled(e) then "CANCELLED" else "CONFIRMED")]
    + (if e.url.Some? && ValidActionUrl(e.url.value, p) then [Plain(Url, e.url.value)] else [])
  }

  predicate HasAlarm(e: Event) {
    !Cancelled(e) && e.alarmMinutes.Some? && e.alarmMinutes.value <= 10080
  }

  function AlarmBody(e: Event): seq<Line>
    requires HasAlarm(e)
  {
    [Plain(Action, "DISPLAY"), Plain(Trigger, "-PT" + Decimal(e.alarmMinutes.value) + "M"),
     Plain(Description, Escaped(e.summary))]
  }

  function AlarmLines(e: Event): seq<Line> {
    if HasAlarm(e) then [Plain(Begin, "VALARM")] + AlarmBody(e) + [Plain(End, "VALARM")] else []
  }

  function DetailsOn(e: Event, p: Parsers): seq<Line> {
    DetailLines(e) + (DateLines(e, p) + StatusLines(e, p))
  }

  function EventBody(e: Event, p: Parsers): seq<Line> {
    IdentityLines(e, p) + ([Plain(Summary, Escaped(e.summary))] + DetailsOn(e, p))
  }

  function EventLines(e: Event, p: Parsers): seq<Line> {
    [Plain(Begin, "VEVENT")] + (EventBody(e, p) + (AlarmLines(e) + [Plain(Transp, "OPAQUE")])) + [Plain(End, "VEVENT")]
  }

  function AllEventLines(events: seq<Event>, p: Parsers): seq<Line> {
    if events == [] then []
    else
      var e := events[|events| - 1];
      AllEventLines(events[..|events| - 1], p) + if HasDate(e, p) then EventLines(e, p) else []
  }

  function HeaderRest(name: string): seq<Line> {
    [Plain(Version, "2.0"), Plain(Prodid, "-//Envelope//Travel//EN"), Plain(Calscale, "GREGORIAN"),
     Plain(Method, "PUBLISH"), Plain(CalName, Escaped(name)), Plain(PublishedTtl, "PT15M")]
  }

  function CalendarLines(name: string, events: seq<Event>, p: Parsers): seq<Line> {
    [Plain(Begin, "VCALENDAR")] + (HeaderRest(name) + AllEventLines(events, p)) + [Plain(End, "VCALENDAR")]
  }

  // ---- the lines of an event by name -----------------------------------------------------

  /** The text a content line begins with. */
  lemma ComponentNames()
    ensures NameOf(Begin) == "BEGIN" && NameOf(End) == "END"
    ensures NameOf(Version) == "VERSION" && NameOf(Prodid) == "PRODID" && NameOf(Calscale) == "CALSCALE"
    ensures NameOf(Method) == "METHOD" && NameOf(CalName) == "X-WR-CALNAME" && NameOf(PublishedTtl) == "X-PUBLISHED-TTL"
  {
  }

  lemma EventNames()
    ensures NameOf(Uid) == "UID" && NameOf(Dtstamp) == "DTSTAMP" && NameOf(LastModified) == "LAST-MODIFIED"
    ensures NameOf(Sequence) == "SEQUENCE" && NameOf(Summary) == "SUMMARY" && NameOf(Description) == "DESCRIPTION"
    ensures NameOf(Location) == "LOCATION" && NameOf(Dtstart) == "DTSTART" && NameOf(Dtend) == "DTEND"
    ensures NameOf(Status) == "STATUS" && NameOf(Url) == "URL" && NameOf(Transp) == "TRANSP"
    ensures NameOf(Action) == "ACTION" && NameOf(Trigger) == "TRIGGER"
  {
  }

  /** How a date is written: an instant in UTC, a day as a day, a local time in its zone if
      that can be written, and anything else as the first day of 1970. */
  predicate Dates(line: Line, raw: string, timezone: Option<string>, p: Parsers) {
    if p.instant(raw).Some? then line.params == "" && line.value == p.instant(raw).value
    else if p.day(raw).Some? then line.params == ";VALUE=DATE" && line.value == p.day(raw).value
    else if p.local(raw).None? then line.params == ";VALUE=DATE" && line.value == "19700101"
    else line.value == p.local(raw).value && line.params == match timezone
      case Some(zone) => if Writable(zone) then ";TZID=" + zone else ""
      case None => ""
  }

  /** The word, which is in small letters, in letters of either case. */
  predicate SpelledAs(s: string, word: string) {
    && |s| == |word|
    && forall i :: 0 <= i < |s| ==> s[i] == word[i] || ('a' <= word[i] <= 'z' && s[i] as int == word[i] as int - 32)
  }

  predicate IsCancelled(e: Event) {
    SpelledAs(e.status, "cancelled") || SpelledAs(e.status, "canceled")
  }

  lemma EitherCase(s: string, word: string)
    requires forall i :: 0 <= i < |word| ==> 'a' <= word[i] <= 'z'
    ensures LowerAscii(s) == word <==> SpelledAs(s, word)
  {
    if LowerAscii(s) == word {
      forall i | 0 <= i < |s| ensures s[i] == word[i] || s[i] as int == word[i] as int - 32 {
        assert LowerAscii(s)[i] == word[i];
      }
    }
    if SpelledAs(s, word) {
      forall i | 0 <= i < |s| ensures LowerAscii(s)[i] == word[i] {
      }
    }
  }

  lemma CancelledIsSpelled(e: Event)
    ensures Cancelled(e) <==> IsCancelled(e)
  {
    EitherCase(e.status, "cancelled");
    EitherCase(e.status, "canceled");
  }

  /** A time zone that can be written: up to 64 letters, digits and /, _, -, +. */
  predicate Writable(zone: string) {
    && 0 < |zone| <= 64
    && forall c :: c in zone ==> '0' <= c <= '9' || 'A' <= c <= 'Z' || 'a' <= c <= 'z' || c in {'/', '_', '-', '+'}
  }

  lemma ValidIsWritable(zone: string)
    ensures ValidTzid(zone) <==> Writable(zone)
  {
    if forall i :: 0 <= i < |zone| ==> ZoneChar(zone[i]) {
      AsciiOctets(zone);
    }
    if Writable(zone) {
      forall i | 0 <= i < |zone| ensures ZoneChar(zone[i]) {
        assert zone[i] in zone;
      }
    }
  }

  predicate Says(line: Line, value: string) {
    line.params == "" && line.value == value
  }

  predicate SaysText(line: Line, text: string) {
    Says(line, EscapeText(text))
  }

  predicate Stamps(line: Line, raw: Option<string>, p: Parsers) {
    Says(line, match raw
      case Some(at) => (match p.instant(at) case Some(stamp) => stamp case None => p.now)
      case None => p.now)
  }

  predicate Rings(e: Event) {
    !IsCancelled(e) && e.alarmMinutes.Some? && e.alarmMinutes.value <= 10080
  }

  predicate SaysFilled(line: Line, text: Option<string>) {
    text.Some? && Trim(text.value) != "" && SaysText(line, text.value)
  }

  // What the lines of an event say, property by property.

  predicate IdentitySays(e: Event, line: Line, p: Parsers) {
    match line.property
    case Uid => Says(line, "segment-" + SafeUid(p.utf8(e.id)) + "@envelope.travel")
    case Dtstamp => Stamps(line, e.updatedAt, p)
    case LastModified => e.updatedAt.Some? && Stamps(line, e.updatedAt, p)
    case Sequence => Says(line, Decimal(e.sequence))
    case _ => false
  }

  predicate DetailSays(e: Event, line: Line) {
    match line.property
    case Description => SaysFilled(line, e.description)
    case Location => SaysFilled(line, e.location)
    case _ => false
  }

  predicate DateSays(e: Event, line: Line, p: Parsers) {
    match line.property
    case Dtstart => Dates(line, e.startAt, e.timezone, p)
    case Dtend => e.endAt.Some? && Trim(e.endAt.value) != "" && Dates(line, e.endAt.value, e.timezone, p)
    case _ => false
  }

  predicate StatusSays(e: Event, line: Line, p: Parsers) {
    match line.property
    case Status => Says(line, if IsCancelled(e) then "CANCELLED" else "CONFIRMED")
    case Url =>
      && e.url.Some? && p.webUrl(e.url.value) && Says(line, e.url.value)
      && forall c :: c in e.url.value ==> 0x20 <= c as int < 0x7f || 0xa0 <= c as int
    case _ => false
  }

  predicate SummarySays(e: Event, line: Line) {
    line.property.Summary? && SaysText(line, e.summary)
  }

  lemma IdentityBySay(e: Event, line: Line, p: Parsers)
    ensures line in IdentityLines(e, p) <==> IdentitySays(e, line, p)
  {
  }

  lemma DetailBySay(e: Event, line: Line)
    ensures line in DetailLines(e) <==> DetailSays(e, line)
  {
    InEither(TextLine(Description, e.description), TextLine(Location, e.location), line);
    TextBySay(Description, e.description, line);
    TextBySay(Location, e.location, line);
  }

  lemma TextBySay(property: Property, text: Option<string>, line: Line)
    ensures line in TextLine(property, text) <==> line.property == property && SaysFilled(line, text)
  {
  }

  lemma RenderedDates(field: Property, raw: string, timezone: Option<string>, p: Parsers, line: Line)
    ensures line == RenderDate(field, raw, timezone, p) <==> line.property == field && Dates(line, raw, timezone, p)
  {
    if timezone.Some? {
      ValidIsWritable(timezone.value);
    }
  }

  lemma DateBySay(e: Event, line: Line, p: Parsers)
    ensures line in DateLines(e, p) <==> DateSays(e, line, p)
  {
    RenderedDates(Dtstart, e.startAt, e.timezone, p, line);
    if e.endAt.Some? {
      RenderedDates(Dtend, e.endAt.value, e.timezone, p, line);
    }
  }

  lemma ActionUrlIsPrintable(url: string, p: Parsers)
    ensures ValidActionUrl(url, p) <==>
      p.webUrl(url) && forall c :: c in url ==> 0x20 <= c as int < 0x7f || 0xa0 <= c as int
  {
    if ValidActionUrl(url, p) {
      forall c | c in url ensures !IsControl(c) {
      }
    }
    if forall c :: c in url ==> 0x20 <= c as int < 0x7f || 0xa0 <= c as int {
      forall i | 0 <= i < |url| ensures !IsControl(url[i]) {
        assert url[i] in url;
      }
    }
  }

  lemma StatusBySay(e: Event, line: Line, p: Parsers)
    ensures line in StatusLines(e, p) <==> StatusSays(e, line, p)
  {
    CancelledIsSpelled(e);
    if e.url.Some? {
      ActionUrlIsPrintable(e.url.value, p);
    }
  }

  predicate AlarmSays(e: Event, line: Line) {
    Rings(e) && match line.property
      case Begin => Says(line, "VALARM")
      case End => Says(line, "VALARM")
      case Action => Says(line, "DISPLAY")
      case Trigger => Says(line, "-PT" + Decimal(e.alarmMinutes.value) + "M")
      case Description => SaysText(line, e.summary)
      case _ => false
  }

  lemma AlarmLinesSay(e: Event, line: Line)
    ensures line in AlarmLines(e) <==> AlarmSays(e, line)
  {
    CancelledIsSpelled(e);
  }

  lemma InEither(a: seq<Line>, b: seq<Line>, line: Line)
    ensures line in a + b <==> line in a || line in b
  {
  }

  lemma InBody(e: Event, line: Line, p: Parsers)
    ensures line in EventBody(e, p) <==>
      || line in IdentityLines(e, p) || line == Plain(Summary, Escaped(e.summary)) || line in DetailLines(e)
      || line in DateLines(e, p) || line in StatusLines(e, p)
  {
    InEither(DateLines(e, p), StatusLines(e, p), line);
    InEither(DetailLines(e), DateLines(e, p) + StatusLines(e, p), line);
    InEither([Plain(Summary, Escaped(e.summary))], DetailsOn(e, p), line);
    InEither(IdentityLines(e, p), [Plain(Summary, Escaped(e.summary))] + DetailsOn(e, p), line);
  }

  /** The lines of an event's body are exactly those that say what they should. */
  lemma BodySays(e: Event, line: Line, p: Parsers)
    ensures line in EventBody(e, p) <==>
      IdentitySays(e, line, p) || SummarySays(e, line) || DetailSays(e, line) || DateSays(e, line, p) || StatusSays(e, line, p)
  {
    InBody(e, line, p);
    IdentityBySay(e, line, p);
    DetailBySay(e, line);
    DateBySay(e, line, p);
    StatusBySay(e, line, p);
  }

  /** Around the body stand the component, the alarm if there is one, and that the time is taken. */
  lemma EventHolds(e: Event, p: Parsers)
    ensures EventLines(e, p) ==
      [Line(Begin, "", "VEVENT")] + (EventBody(e, p) + (AlarmLines(e) + [Line(Transp, "", "OPAQUE")]))
      + [Line(End, "", "VEVENT")]
  {
  }

  predicate Lacks(lines: seq<Line>, property: Property) {
    forall line :: line in lines ==> line.property != property
  }

  /** Lines that neither open nor close a component, nor are a summary. */
  predicate Ordinary(lines: seq<Line>) {
    forall line :: line in lines ==> !line.property.Begin? && !line.property.End? && !line.property.Summary?
  }

  lemma OrdinaryConcat(a: seq<Line>, b: seq<Line>)
    requires Ordinary(a) && Ordinary(b)
    ensures Ordinary(a + b)
  {
  }

  lemma DetailIsOrdinary(e: Event)
    ensures Ordinary(DetailLines(e))
  {
  }

  lemma DateIsOrdinary(e: Event, p: Parsers)
    ensures Ordinary(DateLines(e, p))
  {
  }

  lemma StatusIsOrdinary(e: Event, p: Parsers)
    ensures Ordinary(StatusLines(e, p))
  {
  }

  lemma DetailsOnAreOrdinary(e: Event, p: Parsers)
    ensures Ordinary(DetailsOn(e, p))
  {
    DetailIsOrdinary(e);
    DateIsOrdinary(e, p);
    StatusIsOrdinary(e, p);
    OrdinaryThree(DetailLines(e), DateLines(e, p), StatusLines(e, p));
  }

  lemma OrdinaryThree(a: seq<Line>, b: seq<Line>, c: seq<Line>)
    requires Ordinary(a) && Ordinary(b) && Ordinary(c)
    ensures Ordinary(a + (b + c))
  {
    OrdinaryConcat(b, c);
    OrdinaryConcat(a, b + c);
  }

  lemma IdentityIsOrdinary(e: Event, p: Parsers)
    ensures Ordinary(IdentityLines(e, p))
  {
  }

  lemma AlarmLacksSummary(e: Event)
    ensures Lacks(AlarmLines(e), Summary)
  {
  }

  // ---- rendering ------------------------------------------------------------------------

  /** The name up to the first semicolon, the parameters up to the first colon, the value. */
  function ParseLine(text: string): Option<Line> {
    match FindChar(text, ':')
    case None => None
    case Some(i) =>
      var head := text[..i];
      var j := match FindChar(head, ';') case Some(j) => j case None => |head|;
      var property := PropertyNamed(head[..j]);
      if property.Some? && IsParams(head[j..]) && OneLine(text[i + 1..])
      then Some(Line(property.value, head[j..], text[i + 1..])) else None
  }

  lemma NameReadsBack(p: Property)
    ensures PropertyNamed(NameOf(p)) == Some(p)
  {
  }

  predicate NameChar(c: char) {
    'A' <= c <= 'Z' || c == '-'
  }

  lemma NameIsClean(p: Property)
    ensures NameOf(p) != "" && forall i :: 0 <= i < |NameOf(p)| ==> NameChar(NameOf(p)[i])
  {
  }

  lemma ParseTextOf(line: Line)
    ensures ParseLine(TextOf(line)) == Some(line)
  {
    var name := NameOf(line.property);
    NameIsClean(line.property);
    NameReadsBack(line.property);
    var head := name + line.params;
    FindCharAfter(head, ':', [':'] + line.value);
    assert TextOf(line)[|head| + 1..] == line.value;
    if line.params == "" {
      assert head == name;
    } else {
      FindCharAfter(name, ';', line.params);
    }
  }

  /** The lines read, or nothing when one has no property known here. */
  function ParseLines(texts: seq<string>): Option<seq<Line>> {
    if texts == [] then Some([])
    else
      match (ParseLine(texts[0]), ParseLines(texts[1..]))
      case (Some(line), Some(rest)) => Some([line] + rest)
      case _ => None
  }

  /** A reader of the format: lines, unfolded, cut into their parts. */
  function ReadCalendar(text: string): Option<seq<Line>> {
    ParseLines(Unfold(ReadLines(text)))
  }

  lemma TextIsFoldable(line: Line)
    ensures TextOf(line) != "" && OneLine(TextOf(line)) && !Continues(TextOf(line))
  {
    NameIsClean(line.property);
    assert TextOf(line)[0] == NameOf(line.property)[0];
  }

  lemma EventsGrow(events: seq<Event>, i: nat, p: Parsers)
    requires i < |events|
    ensures AllEventLines(events[..i + 1], p)
         == AllEventLines(events[..i], p) + if HasDate(events[i], p) then EventLines(events[i], p) else []
  {
    assert events[..i + 1][..i] == events[..i];
  }

  method PushEvents(header: seq<Line>, events: seq<Event>, p: Parsers) returns (lines: seq<Line>)
    ensures lines == header + AllEventLines(events, p)
  {
    lines := header;
    for i := 0 to |events|
      invariant lines == header + AllEventLines(events[..i], p)
    {
      var block := if HasDate(events[i], p) then EventLines(events[i], p) else [];
      EventsGrow(events, i, p);
      Regroup(header, AllEventLines(events[..i], p), block);
      lines := lines + block;
    }
    assert events[..|events|] == events;
  }

  /** The lines of the events that have a date, between the header and the end. */
  method ContentLines(name: string, events: seq<Event>, p: Parsers) returns (lines: seq<Line>)
    ensures lines == CalendarLines(name, events, p)
  {
    lines := PushEvents([Plain(Begin, "VCALENDAR")] + HeaderRest(name), events, p);
    Regroup([Plain(Begin, "VCALENDAR")], HeaderRest(name), AllEventLines(events, p));
    lines := lines + [Plain(End, "VCALENDAR")];
  }

  function Texts(lines: seq<Line>): (r: seq<string>)
    ensures |r| == |lines|
  {
    seq(|lines|, i requires 0 <= i < |lines| => TextOf(lines[i]))
  }

  lemma TextsGrow(lines: seq<Line>, i: nat)
    requires i < |lines|
    ensures Texts(lines[..i + 1]) == Texts(lines[..i]) + [TextOf(lines[i])]
  {
  }

  method FoldAll(lines: seq<Line>) returns (physical: seq<string>)
    ensures Unfold(physical) == Texts(lines)
    ensures AllPhysical(physical)
    ensures lines != [] ==> physical != []
  {
    physical := [];
    for i := 0 to |lines|
      invariant Unfold(physical) == Texts(lines[..i])
      invariant AllPhysical(physical)
      invariant i > 0 ==> physical != []
    {
      TextIsFoldable(lines[i]);
      var folded := FoldLine(TextOf(lines[i]), physical);
      TextsGrow(lines, i);
      physical := physical + folded;
    }
    assert lines[..|lines|] == lines;
  }

  lemma TextsTail(lines: seq<Line>)
    requires lines != []
    ensures Texts(lines)[0] == TextOf(lines[0]) && Texts(lines)[1..] == Texts(lines[1..])
  {
  }

  lemma {:induction false} ParseOfTexts(lines: seq<Line>)
    ensures ParseLines(Texts(lines)) == Some(lines)
  {
    if lines == [] {
    } else {
      TextsTail(lines);
      ParseTextOf(lines[0]);
      ParseOfTexts(lines[1..]);
      assert [lines[0]] + lines[1..] == lines;
    }
  }

  /** Every line is at most 75 octets of whole characters, and reading the text gives back
      exactly the content lines, for every list of events. */
  method RenderTravelCalendar(name: string, events: seq<Event>, p: Parsers) returns (text: string)
    ensures ReadCalendar(text) == Some(CalendarLines(name, events, p))
    ensures forall line :: line in ReadLines(text) ==> Octets(line) <= 75
  {
    var lines := ContentLines(name, events, p);
    var physical := FoldAll(lines);
    assert lines != [];
    text := Join(physical, "\r\n") + "\r\n";
    TerminatedIsJoin(physical);
    ReadTerminated(physical);
    ParseOfTexts(lines);
  }

  // ---- what the lines mean ----------------------------------------------------------------

  /** The components open after the lines, or nothing when an END does not match. */
  function Open(lines: seq<Line>, stack: seq<string>): Option<seq<string>> {
    if lines == [] then Some(stack)
    else if lines[0].property.Begin? then Open(lines[1..], stack + [lines[0].value])
    else if lines[0].property.End? then
      if stack != [] && stack[|stack| - 1] == lines[0].value then Open(lines[1..], stack[..|stack| - 1]) else None
    else Open(lines[1..], stack)
  }

  predicate Flat(lines: seq<Line>) {
    forall line :: line in lines ==> !line.property.Begin? && !line.property.End?
  }

  lemma {:induction false} OpenConcat(a: seq<Line>, b: seq<Line>, stack: seq<string>)
    ensures Open(a + b, stack) == match Open(a, stack) { case Some(after) => Open(b, after) case None => None }
    decreases |a|
  {
    if a == [] {
      assert a + b == b;
    } else {
      assert (a + b)[1..] == a[1..] + b;
      if a[0].property.Begin? {
        OpenConcat(a[1..], b, stack + [a[0].value]);
      } else if a[0].property.End? {
        if stack != [] && stack[|stack| - 1] == a[0].value {
          OpenConcat(a[1..], b, stack[..|stack| - 1]);
        }
      } else {
        OpenConcat(a[1..], b, stack);
      }
    }
  }

  lemma {:induction false} OpenFlat(lines: seq<Line>, stack: seq<string>)
    requires Flat(lines)
    ensures Open(lines, stack) == Some(stack)
  {
    if lines == [] {
    } else {
      OpenFlat(lines[1..], stack);
    }
  }

  lemma OpenThen(a: seq<Line>, b: seq<Line>, stack: seq<string>, mid: seq<string>, last: seq<string>)
    requires Open(a, stack) == Some(mid) && Open(b, mid) == Some(last)
    ensures Open(a + b, stack) == Some(last)
  {
    OpenConcat(a, b, stack);
  }

  /** A component around balanced lines is balanced. */
  lemma OpenComponent(name: Clean, body: seq<Line>, stack: seq<string>)
    requires Open(body, stack + [name]) == Some(stack + [name])
    ensures Open([Plain(Begin, name)] + body + [Plain(End, name)], stack) == Some(stack)
  {
    var first, last, inner := [Plain(Begin, name)], [Plain(End, name)], stack + [name];
    assert first[1..] == [] && last[1..] == [] && inner[..|inner| - 1] == stack;
    OpenThen(first, body, stack, inner, inner);
    OpenThen(first + body, last, stack, inner, stack);
  }

  lemma BodyIsFlat(identity: seq<Line>, summary: Line, details: seq<Line>)
    requires Ordinary(identity) && Ordinary(details) && summary.property == Summary
    ensures Flat(identity + ([summary] + details))
  {
  }

  lemma AlarmIsClosed(e: Event, stack: seq<string>)
    ensures Open(AlarmLines(e), stack) == Some(stack)
  {
    if HasAlarm(e) {
      OpenFlat(AlarmBody(e), stack + ["VALARM"]);
      OpenComponent("VALARM", AlarmBody(e), stack);
    }
  }

  lemma PartsAreClosed(identity: seq<Line>, summary: Line, details: seq<Line>, alarm: seq<Line>, stack: seq<string>)
    requires Ordinary(identity) && Ordinary(details) && summary.property == Summary
    requires Open(alarm, stack + ["VEVENT"]) == Some(stack + ["VEVENT"])
    ensures Open([Plain(Begin, "VEVENT")] + ((identity + ([summary] + details)) + (alarm + [Plain(Transp, "OPAQUE")]))
        + [Plain(End, "VEVENT")], stack) == Some(stack)
  {
    var inner := stack + ["VEVENT"];
    var body, transp := identity + ([summary] + details), [Plain(Transp, "OPAQUE")];
    BodyIsFlat(identity, summary, details);
    OpenFlat(body, inner);
    OpenFlat(transp, inner);
    OpenThen(alarm, transp, inner, inner, inner);
    OpenThen(body, alarm + transp, inner, inner, inner);
    OpenComponent("VEVENT", body + (alarm + transp), stack);
  }

  lemma EventIsClosed(e: Event, p: Parsers, stack: seq<string>)
    ensures Open(EventLines(e, p), stack) == Some(stack)
  {
    IdentityIsOrdinary(e, p);
    DetailsOnAreOrdinary(e, p);
    AlarmIsClosed(e, stack + ["VEVENT"]);
    PartsAreClosed(IdentityLines(e, p), Plain(Summary, Escaped(e.summary)), DetailsOn(e, p), AlarmLines(e), stack);
  }

  lemma {:induction false} EventsAreClosed(events: seq<Event>, p: Parsers, stack: seq<string>)
    ensures Open(AllEventLines(events, p), stack) == Some(stack)
  {
    if events == [] {
    } else {
      var rest, e := events[..|events| - 1], events[|events| - 1];
      EventsAreClosed(rest, p, stack);
      var block := if HasDate(e, p) then EventLines(e, p) else [];
      EventIsClosed(e, p, stack);
      OpenThen(AllEventLines(rest, p), block, stack, stack, stack);
    }
  }

  /** BEGIN and END nest properly in every calendar. */
  lemma ComponentsNest(name: string, events: seq<Event>, p: Parsers)
    ensures Open(CalendarLines(name, events, p), []) == Some([])
  {
    var inner := [] + ["VCALENDAR"];
    var header, all := HeaderRest(name), AllEventLines(events, p);
    OpenFlat(header, inner);
    EventsAreClosed(events, p, inner);
    OpenThen(header, all, inner, inner, inner);
    OpenComponent("VCALENDAR", header + all, []);
  }

  /** The unescaped values of the lines of the property. */
  function Values(lines: seq<Line>, property: Property): seq<string> {
    if lines == [] then []
    else (if lines[0].property == property then [UnescapeText(lines[0].value)] else []) + Values(lines[1..], property)
  }

  lemma {:induction false} ValuesConcat(a: seq<Line>, b: seq<Line>, property: Property)
    ensures Values(a + b, property) == Values(a, property) + Values(b, property)
  {
    if a == [] {
      assert a + b == b;
    } else {
      assert (a + b)[1..] == a[1..] + b;
      ValuesConcat(a[1..], b, property);
    }
  }

  lemma {:induction false} ValuesLacking(lines: seq<Line>, property: Property)
    requires Lacks(lines, property)
    ensures Values(lines, property) == []
  {
    if lines == [] {
    } else {
      ValuesLacking(lines[1..], property);
    }
  }

  lemma NoneBefore(a: seq<Line>, b: seq<Line>, property: Property)
    requires Lacks(a, property)
    ensures Values(a + b, property) == Values(b, property)
  {
    ValuesConcat(a, b, property);
    ValuesLacking(a, property);
  }

  lemma NoneAfter(a: seq<Line>, b: seq<Line>, property: Property)
    requires Lacks(b, property)
    ensures Values(a + b, property) == Values(a, property)
  {
    ValuesConcat(a, b, property);
    ValuesLacking(b, property);
  }

  lemma ValuesWithin(first: seq<Line>, header: seq<Line>, all: seq<Line>, last: seq<Line>, property: Property)
    requires Lacks(first, property) && Lacks(header, property) && Lacks(last, property)
    ensures Values(first + (header + all) + last, property) == Values(all, property)
  {
    NoneAfter(first + (header + all), last, property);
    NoneBefore(first, header + all, property);
    NoneBefore(header, all, property);
  }

  function Shown(events: seq<Event>, p: Parsers): seq<string> {
    if events == [] then []
    else
      var e := events[|events| - 1];
      Shown(events[..|events| - 1], p)
      + if p.instant(e.startAt).Some? || p.day(e.startAt).Some? || p.local(e.startAt).Some?
        then [NewlinesOnly(e.summary)] else []
  }

  /** Among ordinary lines the one summary is found. */
  lemma OneSummary(identity: seq<Line>, summary: Line, details: seq<Line>, alarm: seq<Line>)
    requires Ordinary(identity) && Ordinary(details) && summary.property == Summary && Lacks(alarm, Summary)
    ensures Values([Plain(Begin, "VEVENT")] + ((identity + ([summary] + details)) + (alarm + [Plain(Transp, "OPAQUE")]))
        + [Plain(End, "VEVENT")], Summary) == [UnescapeText(summary.value)]
  {
    var body, rest := identity + ([summary] + details), alarm + [Plain(Transp, "OPAQUE")];
    ValuesWithin([Plain(Begin, "VEVENT")], [], body + rest, [Plain(End, "VEVENT")], Summary);
    assert [] + (body + rest) == body + rest;
    NoneAfter(body, rest, Summary);
    NoneBefore(identity, [summary] + details, Summary);
    NoneAfter([summary], details, Summary);
    assert [summary][1..] == [];
  }

  lemma EventHasOneSummary(e: Event, p: Parsers)
    ensures Values(EventLines(e, p), Summary) == [NewlinesOnly(e.summary)]
  {
    IdentityIsOrdinary(e, p);
    DetailsOnAreOrdinary(e, p);
    AlarmLacksSummary(e);
    OneSummary(IdentityLines(e, p), Plain(Summary, Escaped(e.summary)), DetailsOn(e, p), AlarmLines(e));
    UnescapeOfEscape(e.summary);
  }

  lemma {:induction false} EventsHaveSummaries(events: seq<Event>, p: Parsers)
    ensures Values(AllEventLines(events, p), Summary) == Shown(events, p)
  {
    if events == [] {
    } else {
      var rest, e := events[..|events| - 1], events[|events| - 1];
      EventsHaveSummaries(rest, p);
      var block := if HasDate(e, p) then EventLines(e, p) else [];
      EventHasOneSummary(e, p);
      ValuesConcat(AllEventLines(rest, p), block, Summary);
    }
  }

  lemma HeaderLacksSummary(name: string)
    ensures Lacks(HeaderRest(name), Summary)
  {
  }

  /** A reader finds the summary of every dated event, in order, as it was but for
      carriage returns. */
  lemma SummariesReadBack(name: string, events: seq<Event>, p: Parsers)
    ensures Values(CalendarLines(name, events, p), Summary) == Shown(events, p)
  {
    HeaderLacksSummary(name);
    ValuesWithin([Plain(Begin, "VCALENDAR")], HeaderRest(name), AllEventLines(events, p), [Plain(End, "VCALENDAR")], Summary);
    EventsHaveSummaries(events, p);
  }
}
