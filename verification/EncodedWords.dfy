/** Decoding the encoded words of RFC 2047 in header text: the scanner over the whole text,
    the word parser and the Q encoding. UTF-8, its lossy reading and base64 are parameters. */
module EncodedWords {
  import opened Text
  import opened Wrappers

  /** base64 reads text by the standard alphabet, or nothing when it is malformed. */
  datatype Codec = Codec(utf8: string -> seq<Byte>, lossy: seq<Byte> -> string, base64: string -> Option<seq<Byte>>)

  predicate Ascii(s: string) {
    forall i :: 0 <= i < |s| ==> s[i] as int < 128
  }

  function Codes(s: string): seq<Byte>
    requires Ascii(s)
  {
    seq(|s|, i requires 0 <= i < |s| => s[i] as int)
  }

  /** What UTF-8 promises: ASCII stands for itself, and whole characters survive. */
  ghost predicate Faithful(codec: Codec) {
    && (forall s :: Ascii(s) ==> codec.utf8(s) == Codes(s))
    && (forall s :: codec.lossy(codec.utf8(s)) == s)
  }

  // ---- the Q encoding --------------------------------------------------------

  /** The octet that two octets after an equals sign stand for. */
  function Escape(a: Byte, b: Byte): Option<Byte> {
    HexPair(a as char, b as char)
  }

  /** The octet decoded at position i, and how many octets it takes up. */
  function QOctet(bytes: seq<Byte>, i: nat): (Byte, nat)
    requires i < |bytes|
    ensures QOctet(bytes, i).1 > 0 && i + QOctet(bytes, i).1 <= |bytes|
  {
    if bytes[i] == 95 then (32, 1)
    else if bytes[i] == 61 && i + 2 < |bytes| && Escape(bytes[i + 1], bytes[i + 2]).Some?
    then (Escape(bytes[i + 1], bytes[i + 2]).value, 3)
    else (bytes[i], 1)
  }

  /** What is left to decode from position i on. */
  function QFrom(bytes: seq<Byte>, i: nat): seq<Byte>
    requires i <= |bytes|
    decreases |bytes| - i
  {
    if i == |bytes| then [] else [QOctet(bytes, i).0] + QFrom(bytes, i + QOctet(bytes, i).1)
  }

  method DecodeQEncoding(bytes: seq<Byte>) returns (result: seq<Byte>)
    ensures result == QFrom(bytes, 0)
  {
    result := [];
    var i := 0;
    while i < |bytes|
      invariant i <= |bytes|
      invariant result + QFrom(bytes, i) == QFrom(bytes, 0)
    {
      ghost var octet := QOctet(bytes, i);
      ghost var rest := QFrom(bytes, i + octet.1);
      assert (result + [octet.0]) + rest == result + QFrom(bytes, i);
      if bytes[i] == 95 {
        result, i := result + [32], i + 1;
      } else if bytes[i] == 61 && i + 2 < |bytes| {
        match Escape(bytes[i + 1], bytes[i + 2]) {
          case Some(byte) => result, i := result + [byte], i + 3;
          case None => result, i := result + [bytes[i]], i + 1;
        }
      } else {
        result, i := result + [bytes[i]], i + 1;
      }
    }
  }

  /** Characters that stand for themselves in a Q-encoded word, section 4.2 of RFC 2047. */
  predicate Literal(c: char) {
    '!' <= c <= '~' && c != '=' && c != '?' && c != '_'
  }

  predicate HexPairIs(a: char, b: char, byte: Byte) {
    a as int < 128 && b as int < 128
    && HexDigit(a).Some? && HexDigit(b).Some?
    && byte == 16 * HexDigit(a).value + HexDigit(b).value
  }

  /** text is a Q encoding of the payload, whichever octets its writer chose to escape. */
  ghost predicate QEncodes(text: string, payload: seq<Byte>)
    decreases |payload|
  {
    if payload == [] then text == []
    else
      text != [] &&
      ((text[0] == '_' && payload[0] == 32 && QEncodes(text[1..], payload[1..]))
       || (|text| >= 3 && text[0] == '=' && HexPairIs(text[1], text[2], payload[0]) && QEncodes(text[3..], payload[1..]))
       || (Literal(text[0]) && payload[0] == text[0] as int && QEncodes(text[1..], payload[1..])))
  }

  lemma {:induction false} QTextIsPlain(text: string, payload: seq<Byte>)
    requires QEncodes(text, payload)
    ensures Ascii(text) && Without(text, '?')
    decreases |payload|
  {
    if payload == [] {
    } else {
      if text[0] == '=' {
        QTextIsPlain(text[3..], payload[1..]);
        assert text == text[..3] + text[3..];
      } else {
        QTextIsPlain(text[1..], payload[1..]);
        assert text == text[..1] + text[1..];
      }
    }
  }

  lemma QOctetTail(bytes: seq<Byte>, k: nat, i: nat)
    requires k + i < |bytes|
    ensures QOctet(bytes[k..], i) == QOctet(bytes, k + i)
  {
  }

  lemma {:induction false} QFromTail(bytes: seq<Byte>, k: nat, i: nat)
    requires k + i <= |bytes|
    ensures QFrom(bytes[k..], i) == QFrom(bytes, k + i)
    decreases |bytes| - i
  {
    if k + i == |bytes| {
    } else {
      QOctetTail(bytes, k, i);
      QFromTail(bytes, k, i + QOctet(bytes[k..], i).1);
    }
  }

  lemma {:induction false} QRoundTrip(text: string, payload: seq<Byte>)
    requires QEncodes(text, payload) && Ascii(text)
    ensures QFrom(Codes(text), 0) == payload
    decreases |payload|
  {
    if payload == [] {
    } else {
      var bytes := Codes(text);
      if text[0] == '=' {
        QRoundTrip(text[3..], payload[1..]);
        assert Codes(text[3..]) == bytes[3..];
        QFromTail(bytes, 3, 0);
        assert QOctet(bytes, 0) == (payload[0], 3);
      } else {
        QRoundTrip(text[1..], payload[1..]);
        assert Codes(text[1..]) == bytes[1..];
        QFromTail(bytes, 1, 0);
        assert QOctet(bytes, 0) == (payload[0], 1);
      }
      assert payload == [payload[0]] + payload[1..];
    }
  }

  /** One octet of a Q-encoded text: an underscore is a space, an escape the octet of its two
      digits, and anything else itself, an equals sign that begins no escape included. */
  lemma QByOctet(b: Byte, rest: seq<Byte>)
    ensures b == 95 ==> QFrom([b] + rest, 0) == [32] + QFrom(rest, 0)
    ensures b != 95 && b != 61 ==> QFrom([b] + rest, 0) == [b] + QFrom(rest, 0)
    ensures b == 61 && !Escapes(rest) ==> QFrom([b] + rest, 0) == [61] + QFrom(rest, 0)
    ensures b == 61 && Escapes(rest) ==>
      QFrom([b] + rest, 0) == [HexPair(rest[0] as char, rest[1] as char).value] + QFrom(rest[2..], 0)
  {
    var bytes := [b] + rest;
    assert bytes[0] == b && |bytes| == |rest| + 1 && forall i :: 0 <= i < |rest| ==> bytes[i + 1] == rest[i];
    QFromStep(bytes);
    if b == 61 && Escapes(rest) {
      assert bytes[3..] == rest[2..];
    } else {
      assert bytes[1..] == rest;
    }
  }

  predicate Escapes(rest: seq<Byte>) {
    |rest| >= 2 && HexPair(rest[0] as char, rest[1] as char).Some?
  }

  lemma QFromStep(bytes: seq<Byte>)
    requires bytes != []
    ensures QFrom(bytes, 0) == [QOctet(bytes, 0).0] + QFrom(bytes[QOctet(bytes, 0).1..], 0)
  {
    QFromTail(bytes, QOctet(bytes, 0).1, 0);
  }

  // ---- one word --------------------------------------------------------------

  datatype Word = Word(charset: string, encoding: char, text: string)

  function Written(w: Word): string {
    "=?" + (w.charset + ("?" + ([w.encoding] + ("?" + (w.text + "?=")))))
  }

  function WordLength(w: Word): nat {
    2 + |w.charset| + 1 + 1 + 1 + |w.text| + 2
  }

  /** The encoding is a single byte: one ASCII character. */
  function ParseEncodedWord(s: string): (r: Option<Word>)
    ensures r.Some? ==> WordLength(r.value) <= |s|
  {
    if !PairAt(s, 0, '=', '?') then None
    else
      match FindChar(s[2..], '?')
      case None => None
      case Some(end) => ParseAfterCharset(s[2..][..end], s[2..][end + 1..])
  }

  function ParseAfterCharset(charset: string, afterCharset: string): (r: Option<Word>)
    ensures r.Some? ==> WordLength(r.value) <= |charset| + |afterCharset| + 3
  {
    if FindChar(afterCharset, '?') != Some(1) || afterCharset[0] as int >= 128 then None
    else
      match FindPair(afterCharset[2..], '?', '=')
      case None => None
      case Some(end) => Some(Word(charset, afterCharset[0], afterCharset[2..][..end]))
  }

  predicate WellFormed(w: Word) {
    Without(w.charset, '?') && w.encoding != '?' && w.encoding as int < 128 && Without(w.text, '?')
  }

  /** No close of a word inside. */
  ghost predicate Unclosed(text: string) {
    forall j: nat :: !PairAt(text, j, '?', '=')
  }

  lemma FindCloseAfter(text: string, tail: string)
    requires Unclosed(text)
    ensures FindPair(text + ("?=" + tail), '?', '=') == Some(|text|)
    ensures (text + ("?=" + tail))[..|text|] == text
  {
    var s := text + ("?=" + tail);
    assert PairAt(s, |text|, '?', '=');
    forall j: nat | j < |text| ensures !PairAt(s, j, '?', '=') {
      assert s[j] == text[j] && s[j + 1] == if j + 1 < |text| then text[j + 1] else '?';
      assert !PairAt(text, j, '?', '=');
    }
  }

  /** What can stand as a word: the charset holds no question mark, the encoding is one other
      ASCII character, and the text ends at the first close. */
  ghost predicate Standing(w: Word) {
    Without(w.charset, '?') && w.encoding != '?' && w.encoding as int < 128 && Unclosed(w.text)
  }

  lemma ParseWrittenTail(w: Word, tail: string)
    requires Standing(w)
    ensures ParseAfterCharset(w.charset, [w.encoding] + ("?" + (w.text + ("?=" + tail)))) == Some(w)
  {
    var rest := w.text + ("?=" + tail);
    var s := [w.encoding] + ("?" + rest);
    FindCharAfter([w.encoding], '?', "?" + rest);
    assert s[2..] == rest;
    FindCloseAfter(w.text, tail);
  }

  /** The word and what follows it, nested to the right. */
  lemma WrittenThen(w: Word, tail: string)
    ensures Written(w) + tail
         == "=?" + (w.charset + ("?" + ([w.encoding] + ("?" + (w.text + ("?=" + tail))))))
    ensures |Written(w)| == WordLength(w)
  {
  }

  lemma ParseWritten(w: Word, tail: string)
    requires Standing(w)
    ensures ParseEncodedWord(Written(w) + tail) == Some(w)
    ensures (Written(w) + tail)[WordLength(w)..] == tail
  {
    var rest := [w.encoding] + ("?" + (w.text + ("?=" + tail)));
    var s := Written(w) + tail;
    WrittenThen(w, tail);
    assert s[2..] == w.charset + ("?" + rest);
    FindCharAfter(w.charset, '?', "?" + rest);
    assert ("?" + rest)[1..] == rest;
    assert s[2..][|w.charset| + 1..] == rest;
    ParseWrittenTail(w, tail);
  }

  /** A word is found exactly where one is written out. */
  lemma ParseExact(s: string, w: Word)
    ensures ParseEncodedWord(s) == Some(w) <==> Standing(w) && Written(w) <= s
  {
    if Standing(w) && Written(w) <= s {
      assert s == Written(w) + s[|Written(w)|..];
      ParseWritten(w, s[|Written(w)|..]);
    }
    if ParseEncodedWord(s) == Some(w) {
      ParsedIsWritten(s, w);
    }
  }

  lemma CutAt(s: string, i: nat, c: char)
    requires i < |s| && s[i] == c
    ensures s == s[..i] + ([c] + s[i + 1..])
  {
  }

  lemma CloseAt(more: string, close: nat)
    requires FindPair(more, '?', '=') == Some(close)
    ensures Unclosed(more[..close]) && more == more[..close] + ("?=" + more[close + 2..])
  {
    forall j: nat ensures !PairAt(more[..close], j, '?', '=') {
      assert j < close ==> !PairAt(more, j, '?', '=');
    }
    assert PairAt(more, close, '?', '=');
  }

  lemma ParsedIsWritten(s: string, w: Word)
    requires ParseEncodedWord(s) == Some(w)
    ensures Standing(w) && Written(w) <= s
  {
    var rest := s[2..];
    var end := FindChar(rest, '?').value;
    var after := rest[end + 1..];
    assert ParseAfterCharset(rest[..end], after) == Some(w);
    var more := after[2..];
    var close := FindPair(more, '?', '=').value;
    CutAt(rest, end, '?');
    CloseAt(more, close);
    assert after == [w.encoding] + ("?" + more);
    assert s == "=?" + rest;
    Assembled(s, rest, after, more, w, more[close + 2..]);
  }

  lemma Assembled(s: string, rest: string, after: string, more: string, w: Word, tail: string)
    requires s == "=?" + rest && rest == w.charset + ("?" + after) && after == [w.encoding] + ("?" + more)
    requires more == w.text + ("?=" + tail)
    ensures Written(w) <= s
  {
    WrittenThen(w, tail);
    assert s == Written(w) + tail;
  }

  function WordText(w: Word, codec: Codec): string {
    if w.encoding in "Qq" then codec.lossy(QFrom(codec.utf8(w.text), 0))
    else if w.encoding in "Bb" then
      (match codec.base64(w.text)
       case Some(bytes) => codec.lossy(bytes)
       case None => codec.lossy(codec.utf8(w.text)))
    else codec.lossy(codec.utf8(w.text))
  }

  /** Malformed base64, and a word of any other encoding, is read as it stands. */
  lemma WordAsItStands(w: Word, codec: Codec)
    ensures (w.encoding == 'B' || w.encoding == 'b') && codec.base64(w.text) == None ==>
      WordText(w, codec) == codec.lossy(codec.utf8(w.text))
    ensures w.encoding != 'B' && w.encoding != 'b' && w.encoding != 'Q' && w.encoding != 'q' ==>
      WordText(w, codec) == codec.lossy(codec.utf8(w.text))
    ensures w.encoding == 'B' || w.encoding == 'b' ==>
      forall bytes :: codec.base64(w.text) == Some(bytes) ==> WordText(w, codec) == codec.lossy(bytes)
  {
  }

  // ---- the whole text ----------------------------------------------------------

  predicate StartsWord(s: string) {
    PairAt(s, 0, '=', '?')
  }

  /** Blanks between two words are dropped. */
  function SkipBlanks(s: string): (r: string)
    ensures |r| <= |s|
  {
    if s != [] && (s[0] == ' ' || s[0] == '\t') && StartsWord(TrimStart(s)) && FindPair(s, '=', '?').Some?
    then s[FindPair(s, '=', '?').value..] else s
  }

  function Decoded(s: string, codec: Codec): string
    decreases |s|
  {
    match FindPair(s, '=', '?')
    case None => s
    case Some(start) =>
      match ParseEncodedWord(s[start..])
      case None => s
      case Some(w) => s[..start] + WordText(w, codec) + Decoded(SkipBlanks(s[start..][WordLength(w)..]), codec)
  }

  lemma Push(a: string, b: string, c: string, d: string)
    ensures ((a + b) + c) + d == a + ((b + c) + d)
  {
  }

  lemma ScanWord(done: string, s: string, start: nat, w: Word, rest: string, codec: Codec)
    requires FindPair(s, '=', '?') == Some(start) && ParseEncodedWord(s[start..]) == Some(w)
    requires rest == SkipBlanks(s[start..][WordLength(w)..])
    ensures ((done + s[..start]) + WordText(w, codec)) + Decoded(rest, codec) == done + Decoded(s, codec)
  {
    Push(done, s[..start], WordText(w, codec), Decoded(rest, codec));
  }

  lemma ScanBroken(done: string, s: string, start: nat, codec: Codec)
    requires FindPair(s, '=', '?') == Some(start) && ParseEncodedWord(s[start..]) == None
    ensures (done + s[..start]) + s[start..] == done + Decoded(s, codec)
  {
  }

  /** The scanner ends on every input and computes Decoded. */
  method DecodeRfc2047(input: string, codec: Codec) returns (result: string)
    ensures result == Decoded(input, codec)
  {
    result := "";
    var remaining := input;
    while FindPair(remaining, '=', '?').Some?
      invariant result + Decoded(remaining, codec) == Decoded(input, codec)
      decreases |remaining|
    {
      ghost var done, before := result, remaining;
      var start := FindPair(remaining, '=', '?').value;
      result := result + remaining[..start];
      remaining := remaining[start..];
      var word := ParseEncodedWord(remaining);
      if word.Some? {
        remaining := SkipBlanks(remaining[WordLength(word.value)..]);
        var text := DecodeWord(word.value, codec);
        result := result + text;
        ScanWord(done, before, start, word.value, remaining, codec);
      } else {
        result := result + remaining;
        remaining := "";
        ScanBroken(done, before, start, codec);
      }
    }
    result := result + remaining;
  }

  method DecodeWord(w: Word, codec: Codec) returns (text: string)
    ensures text == WordText(w, codec)
  {
    if w.encoding in "Qq" {
      var decoded := DecodeQEncoding(codec.utf8(w.text));
      text := codec.lossy(decoded);
    } else {
      text := WordText(w, codec);
    }
  }

  // ---- what decoding means -------------------------------------------------------

  ghost predicate Plain(s: string) {
    forall i: nat :: !PairAt(s, i, '=', '?')
  }

  /** A word, the text it stands for and the text up to the next word. */
  datatype Piece = Piece(word: Word, payload: string, gap: string)

  /** The word's text encodes the octets. */
  ghost predicate Encodes(w: Word, octets: seq<Byte>, codec: Codec) {
    && WellFormed(w)
    && (w.encoding in "Qq" || w.encoding in "Bb")
    && (w.encoding in "Qq" ==> QEncodes(w.text, octets))
    && (w.encoding in "Bb" ==> codec.base64(w.text) == Some(octets))
  }

  /** The charsets whose octets are read as they are meant. */
  predicate IsUtf8(charset: string, payload: string) {
    UpperCase(charset) == "UTF-8" || (UpperCase(charset) == "US-ASCII" && Ascii(payload))
  }

  /** The word encodes exactly the whole characters of its payload. */
  ghost predicate Carries(w: Word, payload: string, codec: Codec) {
    Encodes(w, codec.utf8(payload), codec) && IsUtf8(w.charset, payload)
  }

  ghost predicate Sound(pieces: seq<Piece>, codec: Codec) {
    forall i :: 0 <= i < |pieces| ==> Carries(pieces[i].word, pieces[i].payload, codec) && Plain(pieces[i].gap)
  }

  /** The words with their gaps, and then the tail. */
  function Rendered(pieces: seq<Piece>, tail: string): string {
    if pieces == [] then tail else Written(pieces[0].word) + (pieces[0].gap + Rendered(pieces[1..], tail))
  }

  /** Nothing, or an introducer that begins no word and whatever follows it. */
  predicate Ends(tail: string) {
    tail == "" || (StartsWord(tail) && ParseEncodedWord(tail).None?)
  }

  /** A gap that only separates two words and begins with a space or a tab. */
  predicate Separator(gap: string) {
    gap != [] && (gap[0] == ' ' || gap[0] == '\t') && forall i :: 0 <= i < |gap| ==> IsWhite(gap[i])
  }

  /** What is left of the gap before the next piece, or before the tail. */
  function Kept(gap: string, rest: seq<Piece>, tail: string): string {
    if (rest != [] || tail != "") && Separator(gap) then "" else gap
  }

  function Meaning(pieces: seq<Piece>, tail: string): string {
    if pieces == [] then tail
    else pieces[0].payload + (Kept(pieces[0].gap, pieces[1..], tail) + Meaning(pieces[1..], tail))
  }

  /** Whatever charset a word names, its octets are read as UTF-8. */
  lemma CharsetIgnored(w: Word, octets: seq<Byte>, codec: Codec)
    requires Faithful(codec) && Encodes(w, octets, codec)
    ensures WordText(w, codec) == codec.lossy(octets)
  {
    if w.encoding in "Qq" {
      QTextIsPlain(w.text, octets);
      QRoundTrip(w.text, octets);
    }
  }

  lemma FindAfterPlain(plain: string, rest: string)
    requires Plain(plain) && StartsWord(rest)
    ensures FindPair(plain + rest, '=', '?') == Some(|plain|)
  {
    var s := plain + rest;
    assert PairAt(s, |plain|, '=', '?');
    forall j: nat | j < |plain| ensures !PairAt(s, j, '=', '?') {
      assert !PairAt(plain, j, '=', '?');
    }
  }

  lemma TrimStartAt(s: string, k: nat)
    requires k <= |s| && (forall i :: 0 <= i < k ==> IsWhite(s[i])) && (k == |s| || !IsWhite(s[k]))
    ensures TrimStart(s) == s[k..]
  {
  }

  lemma WordsAreVisible()
    ensures !IsWhite('=')
  {
  }

  lemma SkipBeforeWord(gap: string, rest: string)
    requires Plain(gap) && StartsWord(rest)
    ensures SkipBlanks(gap + rest) == if Separator(gap) then rest else gap + rest
  {
    var s := gap + rest;
    FindAfterPlain(gap, rest);
    assert s[|gap|..] == rest;
    WordsAreVisible();
    if gap != [] && forall i :: 0 <= i < |gap| ==> IsWhite(gap[i]) {
      TrimStartAt(s, |gap|);
    } else if gap != [] {
      FirstDark(gap, rest);
    }
  }

  /** A gap with a visible character keeps its blanks: no word begins inside it. */
  lemma FirstDark(gap: string, rest: string)
    requires Plain(gap) && StartsWord(rest)
    requires exists i :: 0 <= i < |gap| && !IsWhite(gap[i])
    ensures !StartsWord(TrimStart(gap + rest))
  {
    var s := gap + rest;
    var t := TrimStart(s);
    var k := |s| - |t|;
    var i :| 0 <= i < |gap| && !IsWhite(gap[i]);
    assert s[i] == gap[i];
    assert k <= i;
    assert |t| >= 2 && t[0] == s[k] && t[1] == s[k + 1];
    assert s[k] == gap[k];
    if k + 1 < |gap| {
      assert s[k + 1] == gap[k + 1] && !PairAt(gap, k, '=', '?');
    } else {
      assert s[k + 1] == rest[0] == '=';
    }
  }

  lemma SkipAtEnd(gap: string)
    requires Plain(gap)
    ensures SkipBlanks(gap) == gap
  {
  }

  /** One step of the scanner over plain text and a well-formed word. */
  lemma DecodesWord(plain: string, w: Word, tail: string, codec: Codec)
    requires Plain(plain) && WellFormed(w)
    ensures Decoded(plain + (Written(w) + tail), codec) == plain + WordText(w, codec) + Decoded(SkipBlanks(tail), codec)
  {
    var rest := Written(w) + tail;
    var s := plain + rest;
    FindAfterPlain(plain, rest);
    assert s[|plain|..] == rest && s[..|plain|] == plain;
    ParseWritten(w, tail);
  }

  lemma NothingAround(s: string)
    ensures "" + s == s && s + "" == s
  {
  }

  lemma DecodesTail(plain: string, tail: string, codec: Codec)
    requires Plain(plain) && Ends(tail)
    ensures Decoded(plain + tail, codec) == plain + tail
  {
    if tail == "" {
      NothingAround(plain);
    } else {
      FindAfterPlain(plain, tail);
      assert (plain + tail)[|plain|..] == tail;
    }
  }

  lemma {:induction false} DecodesAfter(plain: string, pieces: seq<Piece>, tail: string, codec: Codec)
    requires Faithful(codec) && Plain(plain) && Sound(pieces, codec) && Ends(tail)
    ensures Decoded(plain + Rendered(pieces, tail), codec) == plain + Meaning(pieces, tail)
    decreases |pieces|, 0
  {
    if pieces == [] {
      DecodesTail(plain, tail, codec);
    } else {
      var first, rest := pieces[0], pieces[1..];
      assert Sound(rest, codec);
      DecodesWord(plain, first.word, first.gap + Rendered(rest, tail), codec);
      CharsetIgnored(first.word, codec.utf8(first.payload), codec);
      AfterWord(first.gap, rest, tail, codec);
      Regroup(plain, first.payload, Kept(first.gap, rest, tail) + Meaning(rest, tail));
    }
  }

  /** What follows a word: its gap, dropped when it merely separates it from an introducer. */
  lemma {:induction false} AfterWord(gap: string, rest: seq<Piece>, tail: string, codec: Codec)
    requires Faithful(codec) && Plain(gap) && Sound(rest, codec) && Ends(tail)
    ensures Decoded(SkipBlanks(gap + Rendered(rest, tail)), codec) == Kept(gap, rest, tail) + Meaning(rest, tail)
    decreases |rest|, 1
  {
    if rest == [] && tail == "" {
      SkipAtEnd(gap);
      NothingAround(gap);
    } else {
      SkipBeforeWord(gap, Rendered(rest, tail));
      if Separator(gap) {
        DecodesAfter("", rest, tail, codec);
        NothingAround(Rendered(rest, tail));
        NothingAround(Meaning(rest, tail));
      } else {
        DecodesAfter(gap, rest, tail, codec);
      }
    }
  }

  /** Decoding any plain text with encoded words in it puts each word's payload in its
      place, and drops the blanks that separate two words. */
  lemma DecodesToPayloads(prefix: string, pieces: seq<Piece>, codec: Codec)
    requires Faithful(codec) && Plain(prefix) && Sound(pieces, codec)
    ensures Decoded(prefix + Rendered(pieces, ""), codec) == prefix + Meaning(pieces, "")
  {
    DecodesAfter(prefix, pieces, "", codec);
  }

  lemma NothingEncoded(s: string, codec: Codec)
    ensures Plain(s) <==> FindPair(s, '=', '?').None?
    ensures Plain(s) ==> Decoded(s, codec) == s
  {
  }

  function Joined(pieces: seq<Piece>): string {
    if pieces == [] then "" else pieces[0].payload + Joined(pieces[1..])
  }

  ghost predicate GapsSeparate(pieces: seq<Piece>) {
    forall i :: 0 <= i < |pieces| ==>
      pieces[i].gap == [] || (i + 1 < |pieces| && Separator(pieces[i].gap))
  }

  lemma {:induction false} MeaningJoins(pieces: seq<Piece>)
    ensures Meaning(pieces, "") == Joined(pieces) <==> GapsSeparate(pieces)
    ensures |Meaning(pieces, "")| >= |Joined(pieces)|
  {
    if pieces == [] {
    } else {
      var rest := pieces[1..];
      MeaningJoins(rest);
      var kept := Kept(pieces[0].gap, rest, "");
      assert GapsSeparate(pieces) <==> kept == "" && GapsSeparate(rest) by {
        assert forall i :: 0 <= i < |rest| ==> rest[i] == pieces[i + 1];
        assert GapsSeparate(pieces) ==> forall i :: 0 <= i < |rest| ==> rest[i] == pieces[i + 1];
        if kept == "" && GapsSeparate(rest) {
          forall i | 0 <= i < |pieces| ensures pieces[i].gap == [] || (i + 1 < |pieces| && Separator(pieces[i].gap)) {
            if i > 0 {
              assert rest[i - 1] == pieces[i];
            }
          }
        }
      }
      if kept == "" {
        assert kept + Meaning(rest, "") == Meaning(rest, "");
        assert Meaning(pieces, "")[|pieces[0].payload|..] == Meaning(rest, "");
        assert Joined(pieces)[|pieces[0].payload|..] == Joined(rest);
      }
    }
  }

  lemma WordsAlone(pieces: seq<Piece>, codec: Codec)
    requires Faithful(codec) && Sound(pieces, codec)
    ensures Decoded(Rendered(pieces, ""), codec) == Meaning(pieces, "")
  {
    DecodesAfter("", pieces, "", codec);
    NothingAround(Rendered(pieces, ""));
    NothingAround(Meaning(pieces, ""));
  }

  /** A list of words decodes to the concatenation of its payloads exactly when every gap
      but the last is empty or is white space beginning with a space or a tab, and nothing
      follows the last word. A line folded right after a word, which section 2 of RFC 2047 allows, keeps its break. */
  lemma WordsConcatenate(pieces: seq<Piece>, codec: Codec)
    requires Faithful(codec) && Sound(pieces, codec)
    ensures Decoded(Rendered(pieces, ""), codec) == Joined(pieces) <==> GapsSeparate(pieces)
  {
    WordsAlone(pieces, codec);
    MeaningJoins(pieces);
  }

  /** The payloads with every gap that is not a separator. */
  function Before(pieces: seq<Piece>): string {
    if pieces == [] then ""
    else pieces[0].payload + ((if Separator(pieces[0].gap) then "" else pieces[0].gap) + Before(pieces[1..]))
  }

  lemma {:induction false} MeaningBefore(pieces: seq<Piece>, tail: string)
    requires tail != ""
    ensures Meaning(pieces, tail) == Before(pieces) + tail
  {
    if pieces == [] {
      assert "" + tail == tail;
    } else {
      var payload, gap, rest := pieces[0].payload, if Separator(pieces[0].gap) then "" else pieces[0].gap, pieces[1..];
      MeaningBefore(rest, tail);
      Regroup(gap, Before(rest), tail);
      Regroup(payload, gap + Before(rest), tail);
    }
  }

  /** Words are decoded up to an introducer that begins no word; from there on the text is
      left as it is, words and all. */
  lemma BrokenWordStops(prefix: string, pieces: seq<Piece>, broken: string, codec: Codec)
    requires Faithful(codec) && Plain(prefix) && Sound(pieces, codec)
    requires StartsWord(broken) && ParseEncodedWord(broken).None?
    ensures Decoded(prefix + Rendered(pieces, broken), codec) == prefix + (Before(pieces) + broken)
  {
    DecodesAfter(prefix, pieces, broken, codec);
    MeaningBefore(pieces, broken);
  }
}
