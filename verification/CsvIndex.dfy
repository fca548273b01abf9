/** The CSV index of an evidence bundle, with a reader of the quoting rules in section 2 of
    RFC 4180. The program ends its records in a line feed alone, and so does the reader. */
module CsvIndex {
  import opened Ordering
  import opened Text
  import opened Wrappers

  predicate NeedsQuotes(c: char) {
    c == ',' || c == '"' || c == '\n' || c == '\r'
  }

  predicate Plain(field: string) {
    forall i :: 0 <= i < |field| ==> !NeedsQuotes(field[i])
  }

  function CsvEscape(field: string): string {
    if Plain(field) then field else "\"" + (Replace(field, {'"'}, "\"\"") + "\"")
  }

  /** A field with a comma, a quote or a line break is quoted, any other stands as it is. */
  lemma EscapedByName(field: string)
    ensures CsvEscape(field) ==
      if ',' in field || '"' in field || '\n' in field || '\r' in field
      then ['"'] + (Replace(field, {'"'}, "\"\"") + ['"']) else field
  {
    if ',' in field || '"' in field || '\n' in field || '\r' in field {
      var i :| 0 <= i < |field| && NeedsQuotes(field[i]);
    } else {
      forall i | 0 <= i < |field| ensures !NeedsQuotes(field[i]) {
        assert field[i] in field;
      }
    }
  }

  function Record(fields: seq<string>): string
    requires fields != []
  {
    if |fields| == 1 then CsvEscape(fields[0]) + "\n" else CsvEscape(fields[0]) + ([','] + Record(fields[1..]))
  }

  function Records(rows: seq<seq<string>>): string
    requires forall i :: 0 <= i < |rows| ==> rows[i] != []
  {
    if rows == [] then "" else Record(rows[0]) + Records(rows[1..])
  }

  // ---- reading -----------------------------------------------------------------

  /** The rest of a quoted field: a doubled quote stands for one, a single one ends it. */
  function ReadQuotedRest(s: string): Option<(string, string)> {
    if s == "" then None
    else if s[0] != '"' then Prepend(s[0], ReadQuotedRest(s[1..]))
    else if |s| >= 2 && s[1] == '"' then Prepend('"', ReadQuotedRest(s[2..]))
    else Some(("", s[1..]))
  }

  /** The rest of an unquoted field, up to a comma or the end of the record. */
  function ReadPlain(s: string): (string, string) {
    if s == "" || NeedsQuotes(s[0]) then ("", s)
    else ([s[0]] + ReadPlain(s[1..]).0, ReadPlain(s[1..]).1)
  }

  function ReadField(s: string): Option<(string, string)> {
    if s != "" && s[0] == '"' then ReadQuotedRest(s[1..]) else Some(ReadPlain(s))
  }

  /** A whole file: the records read so far end with the fields of the current one. */
  function ReadCsv(s: string, current: seq<string>): Option<seq<seq<string>>>
    decreases |s|
  {
    if s == "" && current == [] then Some([])
    else
      match ReadField(s)
      case None => None
      case Some(read) =>
        if read.1 == "" || |read.1| > |s| then None
        else if read.1[0] == ',' then ReadCsv(read.1[1..], current + [read.0])
        else if read.1[0] == '\n' then
          (match ReadCsv(read.1[1..], [])
           case Some(rest) => Some([current + [read.0]] + rest)
           case None => None)
        else None
  }

  // ---- round trip ----------------------------------------------------------------

  predicate EndsField(tail: string) {
    tail != "" && (tail[0] == ',' || tail[0] == '\n')
  }

  lemma {:induction false} ReadPlainBack(field: string, tail: string)
    requires Plain(field) && EndsField(tail)
    ensures ReadPlain(field + tail) == (field, tail)
  {
    if field == "" {
      assert field + tail == tail;
    } else {
      assert (field + tail)[1..] == field[1..] + tail;
      ReadPlainBack(field[1..], tail);
      assert [field[0]] + field[1..] == field;
    }
  }

  lemma ReadCharBack(c: char, more: string)
    ensures ReadQuotedRest(Replace([c], {'"'}, "\"\"") + more) == Prepend(c, ReadQuotedRest(more))
  {
  }

  lemma {:induction false} ReadQuotedBack(field: string, tail: string)
    requires EndsField(tail)
    ensures ReadQuotedRest(Replace(field, {'"'}, "\"\"") + ("\"" + tail)) == Some((field, tail))
  {
    var close := "\"" + tail;
    if field == "" {
      assert Replace(field, {'"'}, "\"\"") + close == close;
      assert close[1..] == tail;
    } else {
      var c, rest := field[0], field[1..];
      assert [c] + rest == field;
      ReplaceConcat([c], rest, {'"'}, "\"\"");
      ReadQuotedBack(rest, tail);
      var more := Replace(rest, {'"'}, "\"\"") + close;
      assert Replace(field, {'"'}, "\"\"") + close == Replace([c], {'"'}, "\"\"") + more;
      ReadCharBack(c, more);
    }
  }

  lemma ReadPlainFieldBack(field: string, tail: string)
    requires Plain(field) && EndsField(tail)
    ensures ReadField(field + tail) == Some((field, tail))
  {
    ReadPlainBack(field, tail);
    var s := field + tail;
    assert field != "" ==> s[0] == field[0];
    assert field == "" ==> s[0] == tail[0];
    assert field != "" ==> !NeedsQuotes(field[0]);
  }

  lemma DropFirst(c: char, s: string)
    ensures ([c] + s)[1..] == s && ([c] + s)[0] == c
  {
  }

  lemma ReadQuotedFieldBack(field: string, tail: string)
    requires EndsField(tail)
    ensures ReadField(("\"" + (Replace(field, {'"'}, "\"\"") + "\"")) + tail) == Some((field, tail))
  {
    var body := Replace(field, {'"'}, "\"\"");
    ReadQuotedBack(field, tail);
    Regroup("\"", body + "\"", tail);
    Regroup(body, "\"", tail);
    DropFirst('"', body + ("\"" + tail));
  }

  lemma ReadFieldBack(field: string, tail: string)
    requires EndsField(tail)
    ensures ReadField(CsvEscape(field) + tail) == Some((field, tail))
  {
    if Plain(field) {
      ReadPlainFieldBack(field, tail);
    } else {
      ReadQuotedFieldBack(field, tail);
    }
  }

  /** One field of a record, and what reading it leaves. */
  lemma ReadStep(field: string, tail: string, current: seq<string>)
    requires EndsField(tail)
    ensures ReadCsv(CsvEscape(field) + tail, current) ==
      if tail[0] == ',' then ReadCsv(tail[1..], current + [field])
      else match ReadCsv(tail[1..], []) { case Some(rows) => Some([current + [field]] + rows) case None => None }
  {
    ReadFieldBack(field, tail);
  }

  lemma RecordSplits(fields: seq<string>, rest: string)
    requires fields != []
    ensures Record(fields) + rest ==
      CsvEscape(fields[0]) + if |fields| == 1 then ['\n'] + rest else [','] + (Record(fields[1..]) + rest)
  {
    var first := CsvEscape(fields[0]);
    if |fields| == 1 {
      Regroup(first, "\n", rest);
    } else {
      Regroup(first, [','] + Record(fields[1..]), rest);
      Regroup([','], Record(fields[1..]), rest);
    }
  }

  lemma {:induction false} ReadRecordBack(fields: seq<string>, current: seq<string>, rest: string)
    requires fields != []
    ensures ReadCsv(Record(fields) + rest, current) ==
      match ReadCsv(rest, []) { case Some(rows) => Some([current + fields] + rows) case None => None }
    decreases |fields|
  {
    RecordSplits(fields, rest);
    if |fields| == 1 {
      DropFirst('\n', rest);
      ReadStep(fields[0], ['\n'] + rest, current);
      assert [fields[0]] == fields;
    } else {
      var tail := Record(fields[1..]) + rest;
      DropFirst(',', tail);
      ReadStep(fields[0], [','] + tail, current);
      ReadRecordBack(fields[1..], current + [fields[0]], rest);
      assert current + [fields[0]] + fields[1..] == current + fields;
    }
  }

  /** Every table reads back, whatever its fields hold. */
  lemma {:induction false} ReadRecordsBack(rows: seq<seq<string>>)
    requires forall i :: 0 <= i < |rows| ==> rows[i] != []
    ensures ReadCsv(Records(rows), []) == Some(rows)
  {
    if rows == [] {
    } else {
      ReadRecordsBack(rows[1..]);
      ReadRecordBack(rows[0], [], Records(rows[1..]));
      assert [] + rows[0] == rows[0];
      assert [rows[0]] + rows[1..] == rows;
    }
  }

  // ---- the index -----------------------------------------------------------------------

  datatype Inclusion = QueryMatch | ThreadAncestor | ThreadDescendant

  datatype Message = Message(id: string, threadId: string, queryMatched: bool, inclusion: Inclusion, folder: string,
    uidvalidity: nat, uid: nat, internalDate: Option<string>, rfc822Date: Option<string>, messageId: Option<string>,
    inReplyTo: Option<string>, references: seq<string>, fromAddr: seq<string>, toAddr: seq<string>,
    ccAddr: seq<string>, subject: Option<string>, flags: seq<string>, size: nat, sha256: string, relPath: string)

  const HEADER: seq<string> := [
    "id", "thread_id", "query_matched", "inclusion_reason", "folder", "uidvalidity", "uid", "internal_date",
    "rfc822_date", "message_id", "in_reply_to", "references", "from", "to", "cc", "subject", "flags", "size",
    "sha256", "rel_path"]

  function OrEmpty(s: Option<string>): string {
    match s case Some(t) => t case None => ""
  }

  function InclusionText(i: Inclusion): string {
    match i
    case QueryMatch => "query_match"
    case ThreadAncestor => "thread_ancestor"
    case ThreadDescendant => "thread_descendant"
  }

  function Row(m: Message): (r: seq<string>)
    ensures |r| == |HEADER|
  {
    [m.id, m.threadId, if m.queryMatched then "true" else "false", InclusionText(m.inclusion), m.folder,
     Decimal(m.uidvalidity), Decimal(m.uid), OrEmpty(m.internalDate), OrEmpty(m.rfc822Date), OrEmpty(m.messageId),
     OrEmpty(m.inReplyTo), Join(m.references, " "), Join(m.fromAddr, "; "), Join(m.toAddr, "; "),
     Join(m.ccAddr, "; "), OrEmpty(m.subject), Join(m.flags, " "), Decimal(m.size), m.sha256, m.relPath]
  }

  /** The column has this name, and the row this cell in it. */
  predicate Column(m: Message, i: nat, name: string, cell: string) {
    i < |HEADER| && HEADER[i] == name && Row(m)[i] == cell
  }

  /** Every column by its name and place. */
  lemma IdentityColumns(m: Message)
    ensures Column(m, 0, "id", m.id) && Column(m, 1, "thread_id", m.threadId)
    ensures Column(m, 2, "query_matched", if m.queryMatched then "true" else "false")
    ensures Column(m, 3, "inclusion_reason", match m.inclusion
      case QueryMatch => "query_match"
      case ThreadAncestor => "thread_ancestor"
      case ThreadDescendant => "thread_descendant")
    ensures Column(m, 4, "folder", m.folder)
    ensures Column(m, 5, "uidvalidity", Decimal(m.uidvalidity)) && Column(m, 6, "uid", Decimal(m.uid))
  {
  }

  lemma HeaderColumns(m: Message)
    ensures Column(m, 7, "internal_date", OrEmpty(m.internalDate)) && Column(m, 8, "rfc822_date", OrEmpty(m.rfc822Date))
    ensures Column(m, 9, "message_id", OrEmpty(m.messageId)) && Column(m, 10, "in_reply_to", OrEmpty(m.inReplyTo))
    ensures Column(m, 11, "references", Join(m.references, " "))
  {
  }

  lemma AddressColumns(m: Message)
    ensures Column(m, 12, "from", Join(m.fromAddr, "; ")) && Column(m, 13, "to", Join(m.toAddr, "; "))
    ensures Column(m, 14, "cc", Join(m.ccAddr, "; ")) && Column(m, 15, "subject", OrEmpty(m.subject))
  {
  }

  lemma FileColumns(m: Message)
    ensures Column(m, 16, "flags", Join(m.flags, " ")) && Column(m, 17, "size", Decimal(m.size))
    ensures Column(m, 18, "sha256", m.sha256) && Column(m, 19, "rel_path", m.relPath) && |HEADER| == 20
  {
  }

  /** After the messages whose path is no greater: the sort is stable. */
  function InsertByPath(sorted: seq<Message>, m: Message): (r: seq<Message>)
    ensures multiset(r) == multiset(sorted) + multiset{m}
  {
    if sorted == [] then [m]
    else
      var n := |sorted| - 1;
      assert sorted == sorted[..n] + [sorted[n]];
      if StringLess(m.relPath, sorted[n].relPath) then InsertByPath(sorted[..n], m) + [sorted[n]] else sorted + [m]
  }

  function SortByPath(messages: seq<Message>): (r: seq<Message>)
    ensures multiset(r) == multiset(messages)
  {
    if messages == [] then []
    else
      var n := |messages| - 1;
      assert messages == messages[..n] + [messages[n]];
      InsertByPath(SortByPath(messages[..n]), messages[n])
  }

  ghost predicate ByPath(messages: seq<Message>) {
    forall i, j :: 0 <= i < j < |messages| ==> !StringLess(messages[j].relPath, messages[i].relPath)
  }

  lemma {:induction false} InsertKeepsOrder(sorted: seq<Message>, m: Message)
    requires ByPath(sorted)
    ensures ByPath(InsertByPath(sorted, m))
  {
    if sorted == [] {
    } else {
      var n := |sorted| - 1;
      if StringLess(m.relPath, sorted[n].relPath) {
        InsertKeepsOrder(sorted[..n], m);
        var rest := InsertByPath(sorted[..n], m);
        forall i | 0 <= i < |rest| ensures !StringLess(sorted[n].relPath, rest[i].relPath) {
          assert rest[i] in multiset(rest);
          assert rest[i] == m || rest[i] in sorted[..n];
          StringLessTotal(m.relPath, sorted[n].relPath);
        }
      } else {
        forall i | 0 <= i < n ensures !StringLess(m.relPath, sorted[i].relPath) {
          NotLessChain(m.relPath, sorted[n].relPath, sorted[i].relPath);
        }
      }
    }
  }

  /** Nothing less than a string is above another that is not. */
  lemma NotLessChain(a: string, b: string, c: string)
    requires !StringLess(a, b) && !StringLess(b, c)
    ensures !StringLess(a, c)
  {
  }

  lemma {:induction false} SortedByPath(messages: seq<Message>)
    ensures ByPath(SortByPath(messages)) && multiset(SortByPath(messages)) == multiset(messages)
  {
    if messages == [] {
    } else {
      SortedByPath(messages[..|messages| - 1]);
      InsertKeepsOrder(SortByPath(messages[..|messages| - 1]), messages[|messages| - 1]);
    }
  }

  function WithPath(messages: seq<Message>, path: string): seq<Message> {
    if messages == [] then []
    else
      var n := |messages| - 1;
      WithPath(messages[..n], path) + IfAt(messages[n], path)
  }

  lemma SwapOne<T>(a: seq<T>, b: seq<T>, c: seq<T>)
    requires b == [] || c == []
    ensures (a + b) + c == (a + c) + b
  {
    assert a + [] == a && (a + b) + [] == a + b && (a + c) + [] == a + c;
  }

  function IfAt(m: Message, path: string): seq<Message> {
    if m.relPath == path then [m] else []
  }

  lemma {:induction false} InsertIsStable(sorted: seq<Message>, m: Message, path: string)
    ensures WithPath(InsertByPath(sorted, m), path) == WithPath(sorted, path) + IfAt(m, path)
  {
    if sorted == [] {
      WithPathAfter([], m, path);
      assert [] + [m] == [m];
    } else {
      var before, last := sorted[..|sorted| - 1], sorted[|sorted| - 1];
      if StringLess(m.relPath, last.relPath) {
        InsertIsStable(before, m, path);
        StringLessTotal(m.relPath, last.relPath);
        WithPathAfter(InsertByPath(before, m), last, path);
        SwapOne(WithPath(before, path), IfAt(m, path), IfAt(last, path));
      } else {
        WithPathAfter(sorted, m, path);
      }
    }
  }

  lemma WithPathAfter(messages: seq<Message>, m: Message, path: string)
    ensures WithPath(messages + [m], path) == WithPath(messages, path) + IfAt(m, path)
  {
    assert (messages + [m])[..|messages|] == messages;
  }

  /** Messages of one path keep their order. */
  lemma {:induction false} SortIsStable(messages: seq<Message>, path: string)
    ensures WithPath(SortByPath(messages), path) == WithPath(messages, path)
  {
    if messages == [] {
    } else {
      var n := |messages| - 1;
      SortIsStable(messages[..n], path);
      InsertIsStable(SortByPath(messages[..n]), messages[n], path);
    }
  }

  function Rows(messages: seq<Message>): (r: seq<seq<string>>)
    ensures |r| == |messages| && forall i :: 0 <= i < |r| ==> r[i] != []
  {
    seq(|messages|, i requires 0 <= i < |messages| => Row(messages[i]))
  }

  lemma {:induction false} RecordsGrow(rows: seq<seq<string>>, row: seq<string>)
    requires row != [] && forall i :: 0 <= i < |rows| ==> rows[i] != []
    ensures Records(rows + [row]) == Records(rows) + Record(row)
  {
    if rows == [] {
      assert [row][1..] == [];
      assert Record(row) + "" == Record(row);
    } else {
      RecordsGrow(rows[1..], row);
      assert (rows + [row])[1..] == rows[1..] + [row];
    }
  }

  function Escaped(fields: seq<string>): (r: seq<string>)
    ensures |r| == |fields|
  {
    seq(|fields|, i requires 0 <= i < |fields| => CsvEscape(fields[i]))
  }

  lemma EscapedTail(fields: seq<string>)
    requires fields != []
    ensures Escaped(fields)[0] == CsvEscape(fields[0]) && Escaped(fields)[1..] == Escaped(fields[1..])
  {
  }

  lemma {:induction false} RecordIsJoin(fields: seq<string>)
    requires fields != []
    ensures Record(fields) == Join(Escaped(fields), ",") + "\n"
    decreases |fields|
  {
    EscapedTail(fields);
    if |fields| <= 1 {
    } else {
      RecordIsJoin(fields[1..]);
      var first, rest := CsvEscape(fields[0]), Join(Escaped(fields[1..]), ",");
      Regroup(first + ",", rest, "\n");
      Regroup(first, ",", rest + "\n");
    }
  }

  lemma RecordsTo(rows: seq<seq<string>>, i: nat)
    requires i < |rows| && forall j :: 0 <= j < |rows| ==> rows[j] != []
    ensures Records(rows[..i + 1]) == Records(rows[..i]) + Record(rows[i])
  {
    assert rows[..i + 1] == rows[..i] + [rows[i]];
    RecordsGrow(rows[..i], rows[i]);
  }

  method RenderRows(rows: seq<seq<string>>) returns (out: string)
    requires forall i :: 0 <= i < |rows| ==> rows[i] != []
    ensures out == Records(rows)
  {
    out := "";
    for i := 0 to |rows|
      invariant out == Records(rows[..i])
    {
      var line := Join(Escaped(rows[i]), ",") + "\n";
      RecordIsJoin(rows[i]);
      RecordsTo(rows, i);
      out := out + line;
    }
    assert rows[..|rows|] == rows;
  }

  /** The index lists every message once, ordered by path, and reads back to the same rows. */
  method RenderIndexCsv(messages: seq<Message>) returns (out: string)
    ensures ReadCsv(out, []) == Some([HEADER] + Rows(SortByPath(messages)))
  {
    var rows := [HEADER] + Rows(SortByPath(messages));
    out := RenderRows(rows);
    ReadRecordsBack(rows);
  }
}
