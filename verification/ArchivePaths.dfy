/** Folder slugs, canonical message paths and the structural check of an archive manifest.
    Names and paths are the octets of their UTF-8 text. */
module ArchivePaths {
  import opened Text
  import opened Wrappers

  type Octet = c: char | c as int < 256 witness 'a'

  type Octets = seq<Octet>

  // ---- slugs -----------------------------------------------------------------

  predicate Safe(c: char) {
    Alphanumeric(c) || c == '_' || c == '.' || c == '-'
  }

  function UpperHex(d: nat): Octet
    requires d < 16
  {
    if d < 10 then '0' + d as char else 'A' + (d - 10) as char
  }

  function EncodeOctet(b: Octet): Octets {
    if Safe(b) then [b] else ['%', UpperHex(b as int / 16), UpperHex(b as int % 16)]
  }

  function Slug(name: Octets): Octets {
    if name == [] then [] else EncodeOctet(name[0]) + Slug(name[1..])
  }

  /** The slug grows at its end as the name is read. */
  lemma {:induction false} SlugGrows(name: Octets, b: Octet)
    ensures Slug(name + [b]) == Slug(name) + EncodeOctet(b)
  {
    if name == [] {
    } else {
      SlugGrows(name[1..], b);
      assert (name + [b])[1..] == name[1..] + [b];
    }
  }

  /** An octet stands as it is or as a percent sign and its two hexadecimal digits. */
  lemma SlugByOctet(b: Octet, rest: Octets)
    ensures Slug([b] + rest) ==
      (if '0' <= b <= '9' || 'A' <= b <= 'Z' || 'a' <= b <= 'z' || b == '_' || b == '.' || b == '-' then [b]
       else ['%', "0123456789ABCDEF"[b as int / 16], "0123456789ABCDEF"[b as int % 16]]) + Slug(rest)
  {
    assert ([b] + rest)[1..] == rest;
    UpperHexDigits(b as int / 16);
    UpperHexDigits(b as int % 16);
  }

  lemma UpperHexDigits(d: nat)
    requires d < 16
    ensures UpperHex(d) == "0123456789ABCDEF"[d]
  {
  }

  method EncodeFolderForDisk(name: Octets) returns (out: Octets)
    ensures out == Slug(name)
  {
    out := [];
    for i := 0 to |name|
      invariant out == Slug(name[..i])
    {
      assert name[..i + 1] == name[..i] + [name[i]];
      SlugGrows(name[..i], name[i]);
      if Safe(name[i]) {
        out := out + [name[i]];
      } else {
        out := out + ['%'];
        out := out + [UpperHex(name[i] as int / 16), UpperHex(name[i] as int % 16)];
      }
    }
    assert name[..|name|] == name;
  }

  datatype SlugError = Truncated | EscapeNotUtf8 | InvalidHex | NotUtf8

  /** The first unit of an encoded slug: its octet and how much of the slug it takes. */
  function Unit(encoded: Octets, utf8: Octets -> bool): (r: Result<(Octet, nat), SlugError>)
    requires encoded != []
    ensures r.Ok? ==> 0 < r.value.1 <= |encoded|
  {
    if encoded[0] != '%' then Ok((encoded[0], 1))
    else if |encoded| <= 2 then Err(Truncated)
    else if !utf8(encoded[1..3]) then Err(EscapeNotUtf8)
    else
      match HexPair(encoded[1], encoded[2])
      case Some(b) => Ok((b as char, 3))
      case None => Err(InvalidHex)
  }

  function Unescape(encoded: Octets, utf8: Octets -> bool): Result<Octets, SlugError>
    decreases |encoded|
  {
    if encoded == [] then Ok([])
    else
      var unit := Unit(encoded, utf8);
      if unit.Err? then Err(unit.error)
      else After([unit.value.0], Unescape(encoded[unit.value.1..], utf8))
  }

  function After(out: Octets, rest: Result<Octets, SlugError>): Result<Octets, SlugError> {
    match rest
    case Ok(more) => Ok(out + more)
    case Err(e) => Err(e)
  }

  function DecodedSlug(encoded: Octets, utf8: Octets -> bool): Result<Octets, SlugError> {
    match Unescape(encoded, utf8)
    case Ok(name) => if utf8(name) then Ok(name) else Err(NotUtf8)
    case Err(e) => Err(e)
  }

  lemma AfterNothing(rest: Result<Octets, SlugError>)
    ensures After([], rest) == rest
  {
    if rest.Ok? {
      assert [] + rest.value == rest.value;
    }
  }

  lemma UnescapeStep(out: Octets, rest: Octets, utf8: Octets -> bool)
    requires rest != [] && Unit(rest, utf8).Ok?
    ensures After(out + [Unit(rest, utf8).value.0], Unescape(rest[Unit(rest, utf8).value.1..], utf8))
         == After(out, Unescape(rest, utf8))
  {
    var unit := Unit(rest, utf8).value;
    var tail := Unescape(rest[unit.1..], utf8);
    if tail.Ok? {
      assert (out + [unit.0]) + tail.value == out + ([unit.0] + tail.value);
    }
  }

  method DecodeFolderForDisk(encoded: Octets, utf8: Octets -> bool) returns (r: Result<Octets, SlugError>)
    ensures r == DecodedSlug(encoded, utf8)
  {
    var out: Octets := [];
    var i := 0;
    assert encoded[0..] == encoded;
    AfterNothing(Unescape(encoded, utf8));
    while i < |encoded|
      invariant i <= |encoded|
      invariant After(out, Unescape(encoded[i..], utf8)) == Unescape(encoded, utf8)
    {
      if Unit(encoded[i..], utf8).Ok? {
        UnescapeStep(out, encoded[i..], utf8);
      }
      var b := encoded[i];
      if b == '%' {
        if i + 2 >= |encoded| {
          return Err(Truncated);
        }
        assert encoded[i..][1..3] == encoded[i + 1..i + 3];
        if !utf8(encoded[i + 1..i + 3]) {
          return Err(EscapeNotUtf8);
        }
        var v := HexPair(encoded[i + 1], encoded[i + 2]);
        if v.None? {
          return Err(InvalidHex);
        }
        assert encoded[i..][3..] == encoded[i + 3..];
        out, i := out + [v.value as char], i + 3;
      } else {
        assert encoded[i..][1..] == encoded[i + 1..];
        out, i := out + [b], i + 1;
      }
    }
    assert out + [] == out;
    if utf8(out) {
      r := Ok(out);
    } else {
      r := Err(NotUtf8);
    }
  }

  /** Octets before the first escape stand for themselves. */
  lemma {:induction false} DecodePlain(plain: Octets, rest: Octets, utf8: Octets -> bool)
    requires '%' !in plain
    ensures Unescape(plain + rest, utf8) == After(plain, Unescape(rest, utf8))
    decreases |plain|
  {
    if plain == [] {
      assert [] + rest == rest;
      AfterNothing(Unescape(rest, utf8));
    } else {
      DecodePlain(plain[1..], rest, utf8);
      assert (plain + rest)[1..] == plain[1..] + rest;
      if Unescape(rest, utf8).Ok? {
        assert [plain[0]] + (plain[1..] + Unescape(rest, utf8).value) == plain + Unescape(rest, utf8).value;
      }
    }
  }

  /** An escape gives the octet of its two digits, or the error of what is wrong with it. */
  lemma DecodeEscape(rest: Octets, utf8: Octets -> bool)
    requires rest != [] && rest[0] == '%'
    ensures |rest| < 3 ==> Unescape(rest, utf8) == Err(Truncated)
    ensures |rest| >= 3 && !utf8([rest[1], rest[2]]) ==> Unescape(rest, utf8) == Err(EscapeNotUtf8)
    ensures |rest| >= 3 && utf8([rest[1], rest[2]]) ==>
      Unescape(rest, utf8) == match HexPair(rest[1], rest[2])
        case None => Err(InvalidHex)
        case Some(b) => After([b as char], Unescape(rest[3..], utf8))
  {
    if |rest| >= 3 {
      assert rest[1..3] == [rest[1], rest[2]];
    }
  }

  /** ASCII text is UTF-8. */
  ghost predicate ReadsAscii(utf8: Octets -> bool) {
    forall s: Octets :: (forall i :: 0 <= i < |s| ==> s[i] as int < 128) ==> utf8(s)
  }

  lemma UnitOfOctet(b: Octet, rest: Octets, utf8: Octets -> bool)
    requires ReadsAscii(utf8)
    ensures Unit(EncodeOctet(b) + rest, utf8) == Ok((b, |EncodeOctet(b)|))
    ensures (EncodeOctet(b) + rest)[|EncodeOctet(b)|..] == rest
  {
  }

  lemma {:induction false} UnescapeOfSlug(name: Octets, utf8: Octets -> bool)
    requires ReadsAscii(utf8)
    ensures Unescape(Slug(name), utf8) == Ok(name)
  {
    if name == [] {
    } else {
      UnescapeOfSlug(name[1..], utf8);
      UnitOfOctet(name[0], Slug(name[1..]), utf8);
      assert [name[0]] + name[1..] == name;
    }
  }

  /** Decoding undoes encoding on every folder name. */
  lemma SlugRoundTrip(name: Octets, utf8: Octets -> bool)
    requires ReadsAscii(utf8) && utf8(name)
    ensures DecodedSlug(Slug(name), utf8) == Ok(name)
  {
    UnescapeOfSlug(name, utf8);
  }

  lemma SlugInjective(a: Octets, b: Octets)
    ensures Slug(a) == Slug(b) <==> a == b
  {
    var utf8 := (s: Octets) => true;
    UnescapeOfSlug(a, utf8);
    UnescapeOfSlug(b, utf8);
  }

  predicate InSlug(c: char) {
    Safe(c) || c == '%'
  }

  lemma {:induction false} SlugIsTame(name: Octets)
    ensures forall i :: 0 <= i < |Slug(name)| ==> InSlug(Slug(name)[i])
    ensures Slug(name) == [] <==> name == []
  {
    if name == [] {
    } else {
      SlugIsTame(name[1..]);
    }
  }

  // ---- canonical paths ---------------------------------------------------------

  function MessageFilename(uidvalidity: nat, uid: nat): string {
    Decimal(uidvalidity) + ("-" + (Decimal(uid) + ".eml"))
  }

  function RelativeMessagePath(folder: Octets, uidvalidity: nat, uid: nat): string {
    Join(["messages", Slug(folder), MessageFilename(uidvalidity, uid)], "/")
  }

  predicate InFilename(c: char) {
    Alphanumeric(c) || c == '-' || c == '.'
  }

  lemma FilenameIsTame(uidvalidity: nat, uid: nat)
    ensures var f := MessageFilename(uidvalidity, uid);
      |f| > 4 && forall i :: 0 <= i < |f| ==> InFilename(f[i])
  {
  }

  lemma FilenameParts(uidvalidity: nat, uid: nat)
    ensures Split(MessageFilename(uidvalidity, uid), '-') == [Decimal(uidvalidity), Decimal(uid) + ".eml"]
  {
    var head, tail := Decimal(uidvalidity), Decimal(uid) + ".eml";
    assert MessageFilename(uidvalidity, uid) == head + ['-'] + tail;
    SplitPrefix(head, tail, '-');
    SplitNone(tail, '-');
  }

  lemma FilenameInjective(v: nat, u: nat, w: nat, x: nat)
    requires MessageFilename(v, u) == MessageFilename(w, x)
    ensures v == w && u == x
  {
    FilenameParts(v, u);
    FilenameParts(w, x);
    var parts := Split(MessageFilename(v, u), '-');
    assert parts[0] == Decimal(v) == Decimal(w);
    assert parts[1] == Decimal(u) + ".eml" == Decimal(x) + ".eml";
    DecimalInjective(v, w);
    SameStem(Decimal(u), Decimal(x));
    DecimalInjective(u, x);
  }

  lemma SameStem(a: string, b: string)
    requires a + ".eml" == b + ".eml"
    ensures a == b
  {
    assert (a + ".eml")[..|a|] == a && (b + ".eml")[..|b|] == b;
  }

  lemma CanonicalSegments(folder: Octets, uidvalidity: nat, uid: nat)
    ensures Split(RelativeMessagePath(folder, uidvalidity, uid), '/')
         == ["messages", Slug(folder), MessageFilename(uidvalidity, uid)]
  {
    SlugIsTame(folder);
    FilenameIsTame(uidvalidity, uid);
    SplitOfJoin(["messages", Slug(folder), MessageFilename(uidvalidity, uid)], '/');
  }

  /** Different identities have different paths. */
  lemma PathInjective(f: Octets, v: nat, u: nat, g: Octets, w: nat, x: nat)
    ensures RelativeMessagePath(f, v, u) == RelativeMessagePath(g, w, x) <==> f == g && v == w && u == x
  {
    CanonicalSegments(f, v, u);
    CanonicalSegments(g, w, x);
    if RelativeMessagePath(f, v, u) == RelativeMessagePath(g, w, x) {
      SlugInjective(f, g);
      FilenameInjective(v, u, w, x);
    }
  }

  // ---- the path check ------------------------------------------------------------

  datatype Reason = EmptyPath | ContainsNul | ContainsBackslash | AbsolutePath | DrivePrefix | EmptySegment
    | DotComponent | NotThreeSegments | NotUnderMessages | SlugMismatch | FilenameMismatch

  datatype PathCheck = SafePath | UnsafePath(reason: Reason)

  predicate AsciiLetter(c: char) {
    'A' <= c <= 'Z' || 'a' <= c <= 'z'
  }

  predicate Dots(s: string) {
    s == "." || s == ".."
  }

  method ValidateSegments(segments: seq<string>) returns (r: PathCheck)
    ensures r.SafePath? <==> forall i :: 0 <= i < |segments| ==> segments[i] != "" && !Dots(segments[i])
    ensures r.UnsafePath? ==> exists i ::
      && 0 <= i < |segments|
      && (forall j :: 0 <= j < i ==> segments[j] != "" && !Dots(segments[j]))
      && ((r.reason == EmptySegment && segments[i] == "") || (r.reason == DotComponent && Dots(segments[i])))
  {
    for i := 0 to |segments|
      invariant forall j :: 0 <= j < i ==> segments[j] != "" && !Dots(segments[j])
    {
      if segments[i] == "" {
        return UnsafePath(EmptySegment);
      }
      if segments[i] == "." || segments[i] == ".." {
        return UnsafePath(DotComponent);
      }
    }
    return SafePath;
  }

  /** A folder whose slug is no usable directory name. */
  predicate Unarchivable(folder: Octets) {
    folder == "" || folder == "." || folder == ".."
  }

  lemma UnarchivableSlug(folder: Octets)
    ensures Unarchivable(folder) <==> Slug(folder) == "" || Dots(Slug(folder))
  {
    SlugIsTame(folder);
    assert Slug(".") == "." + Slug("") == ".";
    assert ".."[1..] == ".";
    assert Slug("..") == "." + Slug(".") == "..";
    SlugInjective(folder, ".");
    SlugInjective(folder, "..");
  }

  predicate Clean(path: string) {
    path != "" && '\0' !in path && '\\' !in path && path[0] != '/'
    && !(|path| >= 2 && path[1] == ':' && AsciiLetter(path[0]))
  }

  lemma {:induction false} CanonicalIsClean(folder: Octets, uidvalidity: nat, uid: nat)
    ensures Clean(RelativeMessagePath(folder, uidvalidity, uid))
  {
    var slug, file := Slug(folder), MessageFilename(uidvalidity, uid);
    SlugIsTame(folder);
    FilenameIsTame(uidvalidity, uid);
    assert Join([slug, file], "/") == slug + "/" + file;
    var path := RelativeMessagePath(folder, uidvalidity, uid);
    assert ["messages", slug, file][1..] == [slug, file] && [slug, file][1..] == [file];
    assert path == "messages" + "/" + (slug + "/" + file);
    forall c | c in path ensures c != '\0' && c != '\\' {
      assert c in "messages" || c in slug || c in file || c == '/';
    }
  }

  /** messages/<slug>/<UIDVALIDITY>-<UID>.eml */
  predicate IsPathOf(path: string, folder: Octets, uidvalidity: nat, uid: nat) {
    path == "messages" + "/" + (Slug(folder) + "/" + (Decimal(uidvalidity) + ("-" + (Decimal(uid) + ".eml"))))
  }

  lemma PathByName(folder: Octets, uidvalidity: nat, uid: nat)
    ensures IsPathOf(RelativeMessagePath(folder, uidvalidity, uid), folder, uidvalidity, uid)
  {
    var slug, file := Slug(folder), MessageFilename(uidvalidity, uid);
    assert Join([slug, file], "/") == slug + "/" + file;
    assert ["messages", slug, file][1..] == [slug, file] && [slug, file][1..] == [file];
  }

  /** Why a path without forbidden characters is refused. */
  ghost predicate RefusedBy(path: string, folder: Octets, uidvalidity: nat, uid: nat, reason: Reason) {
    var s := Split(path, '/');
    match reason
    case EmptySegment => exists i :: 0 <= i < |s| && s[i] == "" && forall j :: 0 <= j < i ==> !Dots(s[j])
    case DotComponent => exists i :: 0 <= i < |s| && Dots(s[i]) && forall j :: 0 <= j < i ==> s[j] != ""
    case NotThreeSegments => |s| != 3
    case NotUnderMessages => |s| == 3 && s[0] != "messages"
    case SlugMismatch => |s| == 3 && s[0] == "messages" && s[1] != Slug(folder)
    case FilenameMismatch => |s| == 3 && s[1] == Slug(folder) && s[2] != MessageFilename(uidvalidity, uid)
    case _ => false
  }

  /** A path is accepted exactly when it is the canonical path of its message and the
      folder's slug is a usable directory name. */
  method ValidateMessageRelPath(path: string, folder: Octets, uidvalidity: nat, uid: nat) returns (r: PathCheck)
    ensures r.SafePath? <==> IsPathOf(path, folder, uidvalidity, uid) && folder != "" && folder != "." && folder != ".."
    ensures r == UnsafePath(EmptyPath) <==> path == ""
    ensures r == UnsafePath(ContainsNul) <==> '\0' in path
    ensures r == UnsafePath(ContainsBackslash) <==> '\0' !in path && '\\' in path
    ensures r == UnsafePath(AbsolutePath) <==> '\0' !in path && '\\' !in path && path != "" && path[0] == '/'
    ensures r == UnsafePath(DrivePrefix) <==>
      '\0' !in path && '\\' !in path && exists c, rest :: path == [c, ':'] + rest && ('A' <= c <= 'Z' || 'a' <= c <= 'z')
    ensures Clean(path) && r.UnsafePath? ==> RefusedBy(path, folder, uidvalidity, uid, r.reason)
  {
    CanonicalIsClean(folder, uidvalidity, uid);
    PathByName(folder, uidvalidity, uid);
    if path == "" {
      return UnsafePath(EmptyPath);
    }
    if '\0' in path {
      return UnsafePath(ContainsNul);
    }
    if '\\' in path {
      return UnsafePath(ContainsBackslash);
    }
    if path[0] == '/' {
      return UnsafePath(AbsolutePath);
    }
    if |path| >= 2 && path[1] == ':' && AsciiLetter(path[0]) {
      assert path == [path[0], ':'] + path[2..];
      return UnsafePath(DrivePrefix);
    }
    r := ValidateCleanPath(path, folder, uidvalidity, uid);
  }

  method ValidateCleanPath(path: string, folder: Octets, uidvalidity: nat, uid: nat) returns (r: PathCheck)
    ensures r.UnsafePath? ==> RefusedBy(path, folder, uidvalidity, uid, r.reason)
    ensures r.SafePath? <==> path == RelativeMessagePath(folder, uidvalidity, uid) && !Unarchivable(folder)
  {
    var segments := Split(path, '/');
    CanonicalSegments(folder, uidvalidity, uid);
    JoinOfSplit(path, '/');
    UnarchivableSlug(folder);
    FilenameIsTame(uidvalidity, uid);
    r := ValidateSegments(segments);
    if r.UnsafePath? {
      return r;
    }
    if |segments| != 3 {
      return UnsafePath(NotThreeSegments);
    }
    if segments[0] != "messages" {
      return UnsafePath(NotUnderMessages);
    }
    var slug := EncodeFolderForDisk(folder);
    if segments[1] != slug {
      return UnsafePath(SlugMismatch);
    }
    if segments[2] != MessageFilename(uidvalidity, uid) {
      return UnsafePath(FilenameMismatch);
    }
    assert segments == ["messages", slug, MessageFilename(uidvalidity, uid)];
  }

  // ---- the manifest check ----------------------------------------------------------

  datatype Folder = Folder(name: Octets, encodedDir: Octets, messageCount: nat)

  datatype Message = Message(folder: Octets, uidvalidity: nat, uid: nat, size: nat, sha256: string, relPath: string)

  datatype Manifest = Manifest(version: nat, folders: seq<Folder>, messages: seq<Message>)

  datatype ManifestError = UnsupportedVersion(found: nat) | DuplicateFolder | WrongDirectory | UnknownFolder
    | DuplicateIdentity | DuplicatePath | UnsafeMessage(reason: Reason) | InvalidSha256 | TooLarge | WrongCount

  datatype ManifestCheck = Accepted | Refused(error: ManifestError)

  const ARCHIVE_FORMAT_VERSION: nat := 1
  const MAX_MESSAGE_SIZE: nat := 1024 * 1024 * 1024

  predicate IsSha256(s: string) {
    |s| == 64 && forall i :: 0 <= i < |s| ==> HexDigit(s[i]).Some?
  }

  function Identity(m: Message): (Octets, nat, nat) {
    (m.folder, m.uidvalidity, m.uid)
  }

  function CountIn(messages: seq<Message>, folder: Octets): nat {
    if messages == [] then 0
    else CountIn(messages[..|messages| - 1], folder) + if messages[|messages| - 1].folder == folder then 1 else 0
  }

  ghost predicate FolderNamed(folders: seq<Folder>, name: Octets) {
    exists i :: 0 <= i < |folders| && folders[i].name == name
  }

  predicate GoodMessage(m: Message) {
    && IsPathOf(m.relPath, m.folder, m.uidvalidity, m.uid)
    && m.folder != "" && m.folder != "." && m.folder != ".."
    && |m.sha256| == 64
    && (forall i :: 0 <= i < 64 ==>
         '0' <= m.sha256[i] <= '9' || 'a' <= m.sha256[i] <= 'f' || 'A' <= m.sha256[i] <= 'F')
    && m.size <= 1073741824
  }

  ghost predicate GoodFolders(folders: seq<Folder>) {
    && (forall i, j :: 0 <= i < j < |folders| ==> folders[i].name != folders[j].name)
    && (forall i :: 0 <= i < |folders| ==> folders[i].encodedDir == Slug(folders[i].name))
  }

  ghost predicate GoodMessages(messages: seq<Message>, folders: seq<Folder>) {
    && (forall i :: 0 <= i < |messages| ==> FolderNamed(folders, messages[i].folder) && GoodMessage(messages[i]))
    && (forall i, j :: 0 <= i < j < |messages| ==> Identity(messages[i]) != Identity(messages[j]))
  }

  ghost predicate Counted(m: Manifest) {
    forall i :: 0 <= i < |m.folders| ==> m.folders[i].messageCount == CountIn(m.messages, m.folders[i].name)
  }

  /** Nothing is said of paths being distinct: that follows. */
  ghost predicate ValidManifest(m: Manifest) {
    m.version == 1 && GoodFolders(m.folders) && GoodMessages(m.messages, m.folders) && Counted(m)
  }

  method ValidateFolders(folders: seq<Folder>) returns (r: ManifestCheck, names: set<Octets>)
    ensures r.Accepted? <==> GoodFolders(folders)
    ensures r.Refused? ==> r.error == DuplicateFolder || r.error == WrongDirectory
    ensures r.Accepted? ==> forall n :: n in names <==> FolderNamed(folders, n)
  {
    names := {};
    for i := 0 to |folders|
      invariant GoodFolders(folders[..i])
      invariant forall n :: n in names <==> FolderNamed(folders[..i], n)
    {
      var folder := folders[i];
      assert folders[..i + 1] == folders[..i] + [folder];
      if folder.name in names {
        assert exists j :: 0 <= j < i && folders[j].name == folder.name;
        return Refused(DuplicateFolder), names;
      }
      names := names + {folder.name};
      var slug := EncodeFolderForDisk(folder.name);
      if folder.encodedDir != slug {
        return Refused(WrongDirectory), names;
      }
      forall n ensures n in names <==> FolderNamed(folders[..i + 1], n) {
        if FolderNamed(folders[..i], n) {
          var j :| 0 <= j < i && folders[..i][j].name == n;
          assert folders[..i + 1][j].name == n;
        }
        if n == folder.name {
          assert folders[..i + 1][i].name == n;
        }
      }
    }
    assert folders[..|folders|] == folders;
    r := Accepted;
  }

  method ValidateMessage(m: Message, names: set<Octets>, byKey: set<(Octets, nat, nat)>, byPath: set<string>)
    returns (r: ManifestCheck)
    ensures r.Accepted? <==> m.folder in names && Identity(m) !in byKey && m.relPath !in byPath && GoodMessage(m)
    ensures r == Refused(UnknownFolder) <==> m.folder !in names
    ensures r == Refused(DuplicateIdentity) <==> m.folder in names && Identity(m) in byKey
    ensures r == Refused(DuplicatePath) <==> m.folder in names && Identity(m) !in byKey && m.relPath in byPath
    ensures r == Refused(InvalidSha256) ==> !IsSha256(m.sha256)
    ensures r == Refused(TooLarge) ==> IsSha256(m.sha256) && m.size > 1073741824
    ensures r.Refused? ==> !r.error.WrongCount?
  {
    if m.folder !in names {
      return Refused(UnknownFolder);
    }
    if Identity(m) in byKey {
      return Refused(DuplicateIdentity);
    }
    if m.relPath in byPath {
      return Refused(DuplicatePath);
    }
    var path := ValidateMessageRelPath(m.relPath, m.folder, m.uidvalidity, m.uid);
    if path.UnsafePath? {
      return Refused(UnsafeMessage(path.reason));
    }
    if !IsSha256(m.sha256) {
      return Refused(InvalidSha256);
    }
    if m.size > MAX_MESSAGE_SIZE {
      return Refused(TooLarge);
    }
    r := Accepted;
  }

  /** What the sets hold after some messages. */
  ghost predicate Seen(messages: seq<Message>, byKey: set<(Octets, nat, nat)>, byPath: set<string>) {
    && byKey == (set m | m in messages :: Identity(m))
    && byPath == (set m | m in messages :: m.relPath)
  }

  lemma SeenGrows(messages: seq<Message>, m: Message, byKey: set<(Octets, nat, nat)>, byPath: set<string>)
    requires Seen(messages, byKey, byPath)
    ensures Seen(messages + [m], byKey + {Identity(m)}, byPath + {m.relPath})
  {
  }

  /** A repeated path means a fault or a repeated identity: different identities have
      different paths. */
  lemma RepeatedPath(messages: seq<Message>, m: Message, folders: seq<Folder>)
    requires GoodMessages(messages, folders) && GoodMessage(m)
    requires exists x :: x in messages && x.relPath == m.relPath
    ensures exists i :: 0 <= i < |messages| && Identity(messages[i]) == Identity(m)
  {
    var x :| x in messages && x.relPath == m.relPath;
    var i :| 0 <= i < |messages| && messages[i] == x;
    assert GoodMessage(messages[i]);
    PathByName(m.folder, m.uidvalidity, m.uid);
    PathByName(x.folder, x.uidvalidity, x.uid);
    PathInjective(m.folder, m.uidvalidity, m.uid, x.folder, x.uidvalidity, x.uid);
    assert Identity(messages[i]) == Identity(m);
  }

  /** A message is refused only for its own faults or a repeated identity. */
  lemma RefusedForGood(messages: seq<Message>, m: Message, folders: seq<Folder>, names: set<Octets>,
                       byKey: set<(Octets, nat, nat)>, byPath: set<string>)
    requires GoodMessages(messages, folders) && Seen(messages, byKey, byPath)
    requires forall n :: n in names <==> FolderNamed(folders, n)
    ensures GoodMessages(messages + [m], folders) <==>
      m.folder in names && Identity(m) !in byKey && m.relPath !in byPath && GoodMessage(m)
  {
    assert forall i :: 0 <= i < |messages| ==> messages[i] in messages && Identity(messages[i]) in byKey;
    OneMoreGood(messages, m, folders);
    if GoodMessages(messages + [m], folders) && m.relPath in byPath {
      RepeatedPath(messages, m, folders);
    }
  }

  lemma OneMoreGood(messages: seq<Message>, m: Message, folders: seq<Folder>)
    requires GoodMessages(messages, folders)
    ensures GoodMessages(messages + [m], folders) <==>
      && FolderNamed(folders, m.folder) && GoodMessage(m)
      && forall i :: 0 <= i < |messages| ==> Identity(messages[i]) != Identity(m)
  {
    var all := messages + [m];
    assert all[|messages|] == m && forall i :: 0 <= i < |messages| ==> all[i] == messages[i];
    if GoodMessages(all, folders) {
      assert GoodMessage(all[|messages|]) && FolderNamed(folders, all[|messages|].folder);
      assert forall i :: 0 <= i < |messages| ==> Identity(all[i]) != Identity(all[|messages|]);
    }
  }

  lemma GoodPrefix(messages: seq<Message>, n: nat, folders: seq<Folder>)
    requires n <= |messages| && !GoodMessages(messages[..n], folders)
    ensures !GoodMessages(messages, folders)
  {
  }

  ghost predicate CountsOf(messages: seq<Message>, counts: map<Octets, nat>) {
    forall f :: CountIn(messages, f) == if f in counts then counts[f] else 0
  }

  lemma CountsGrow(messages: seq<Message>, m: Message, counts: map<Octets, nat>)
    requires CountsOf(messages, counts)
    ensures CountsOf(messages + [m], counts[m.folder := (if m.folder in counts then counts[m.folder] else 0) + 1])
  {
  }

  method ValidateMessages(messages: seq<Message>, ghost folders: seq<Folder>, names: set<Octets>)
    returns (r: ManifestCheck, counts: map<Octets, nat>)
    requires forall n :: n in names <==> FolderNamed(folders, n)
    ensures r.Accepted? <==> GoodMessages(messages, folders)
    ensures r.Refused? ==> !r.error.WrongCount?
    ensures r.Accepted? ==> CountsOf(messages, counts)
  {
    var byKey: set<(Octets, nat, nat)>, byPath: set<string> := {}, {};
    counts := map[];
    for i := 0 to |messages|
      invariant GoodMessages(messages[..i], folders)
      invariant Seen(messages[..i], byKey, byPath)
      invariant CountsOf(messages[..i], counts)
    {
      var m := messages[i];
      assert messages[..i + 1] == messages[..i] + [m];
      RefusedForGood(messages[..i], m, folders, names, byKey, byPath);
      r := ValidateMessage(m, names, byKey, byPath);
      if r.Refused? {
        GoodPrefix(messages, i + 1, folders);
        return r, counts;
      }
      SeenGrows(messages[..i], m, byKey, byPath);
      CountsGrow(messages[..i], m, counts);
      byKey, byPath := byKey + {Identity(m)}, byPath + {m.relPath};
      counts := counts[m.folder := (if m.folder in counts then counts[m.folder] else 0) + 1];
    }
    assert messages[..|messages|] == messages;
    r := Accepted;
  }

  method ValidateCounts(m: Manifest, counts: map<Octets, nat>) returns (r: ManifestCheck)
    requires CountsOf(m.messages, counts)
    ensures r.Accepted? <==> Counted(m)
    ensures r.Refused? ==> r.error == WrongCount
  {
    for i := 0 to |m.folders|
      invariant forall j :: 0 <= j < i ==> m.folders[j].messageCount == CountIn(m.messages, m.folders[j].name)
    {
      var name := m.folders[i].name;
      assert CountIn(m.messages, name) == if name in counts then counts[name] else 0;
      if m.folders[i].messageCount != if name in counts then counts[name] else 0 {
        return Refused(WrongCount);
      }
    }
    r := Accepted;
  }

  /** A manifest is accepted exactly when it is valid. */
  method ValidateManifest(m: Manifest) returns (r: ManifestCheck)
    ensures r.Accepted? <==> ValidManifest(m)
    ensures m.version != 1 ==> r == Refused(UnsupportedVersion(m.version))
    ensures r == Refused(WrongCount) <==>
      m.version == 1 && GoodFolders(m.folders) && GoodMessages(m.messages, m.folders) && !Counted(m)
  {
    if m.version != ARCHIVE_FORMAT_VERSION {
      return Refused(UnsupportedVersion(m.version));
    }
    var names, counts;
    r, names := ValidateFolders(m.folders);
    if r.Refused? {
      return r;
    }
    r, counts := ValidateMessages(m.messages, m.folders, names);
    if r.Refused? {
      return r;
    }
    r := ValidateCounts(m, counts);
  }

  /** In a valid manifest no two messages share a file and no two folders a directory. */
  lemma ValidFilesAreDistinct(m: Manifest, i: nat, j: nat)
    requires ValidManifest(m)
    ensures i < j < |m.messages| ==> m.messages[i].relPath != m.messages[j].relPath
    ensures i < j < |m.folders| ==> m.folders[i].encodedDir != m.folders[j].encodedDir
  {
    if i < j < |m.messages| {
      var a, b := m.messages[i], m.messages[j];
      assert GoodMessage(a) && GoodMessage(b) && Identity(a) != Identity(b);
      PathByName(a.folder, a.uidvalidity, a.uid);
      PathByName(b.folder, b.uidvalidity, b.uid);
      PathInjective(a.folder, a.uidvalidity, a.uid, b.folder, b.uidvalidity, b.uid);
    }
    if i < j < |m.folders| {
      SlugInjective(m.folders[i].name, m.folders[j].name);
    }
  }
}
