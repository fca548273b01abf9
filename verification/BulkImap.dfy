/** Bulk move, copy and delete over IMAP: chunks, a retry one UID at a time when a chunk
    fails, and move as COPY, STORE \Deleted, EXPUNGE, where any command may fail, and a
    STORE or EXPUNGE may take effect in part however it is answered. */
module BulkImap {
  import opened Wrappers
  import opened Ordering
  import opened SequenceSet

  datatype Mail = Mail(content: nat, deleted: bool)

  datatype Folder = Folder(mails: map<nat, Mail>, uidNext: nat)

  type Folders = map<string, Folder>

  /** UIDs are handed out in increasing order. */
  ghost predicate WellFormed(fs: Folders) {
    forall f, u :: f in fs && u in fs[f].mails ==> u < fs[f].uidNext
  }

  // ---- what the commands do to the folders ---------------------------------

  /** COPY: each listed message present gets a new UID in the other folder, flags kept. */
  function Append(source: map<nat, Mail>, uids: seq<nat>, into: Folder): Folder {
    if uids == [] then into
    else
      var n := |uids| - 1;
      var done := Append(source, uids[..n], into);
      if uids[n] in source
      then Folder(done.mails[done.uidNext := source[uids[n]]], done.uidNext + 1)
      else done
  }

  function CopyTo(fs: Folders, from: string, uids: seq<nat>, to: string): Folders
    requires from in fs && to in fs
  {
    fs[to := Append(fs[from].mails, uids, fs[to])]
  }

  /** STORE +FLAGS \Deleted, on the UIDs it reaches. */
  function Flag(fs: Folders, from: string, hit: set<nat>): Folders
    requires from in fs
  {
    var mails := fs[from].mails;
    fs[from := fs[from].(mails := map u | u in mails :: if u in hit then mails[u].(deleted := true) else mails[u])]
  }

  /** EXPUNGE, on the UIDs it reaches. */
  function Remove(fs: Folders, from: string, gone: set<nat>): Folders
    requires from in fs
  {
    fs[from := fs[from].(mails := fs[from].mails - gone)]
  }

  /** The UIDs an EXPUNGE may remove: with UIDPLUS only flagged targets. */
  function Expungeable(fs: Folders, from: string, targets: set<nat>, uidplus: bool): set<nat>
    requires from in fs
  {
    set u | u in fs[from].mails && fs[from].mails[u].deleted && (uidplus ==> u in targets)
  }

  // ---- what must never be lost ---------------------------------------------

  /** A bulk call as it begins. */
  datatype Job = Job(start: Folders, from: string, to: string, targets: set<nat>, uidplus: bool)
  {
    ghost predicate Valid() {
      WellFormed(start) && from in start && to in start
    }

    /** A call copies each target at most twice, in its chunk and alone, so these are the UIDs
        that its copies can be given. */
    function Ceiling(): nat
      requires to in start
    {
      start[to].uidNext + 2 * |targets|
    }

    /** No target is such a UID. */
    ghost predicate TargetsClear()
      requires to in start
    {
      from != to || forall u :: u in targets ==> u < start[to].uidNext || u >= Ceiling()
    }

    /** u was there at the start, and no other session had already flagged it for a bare EXPUNGE to take. */
    ghost predicate Protected(u: nat)
      requires from in start
    {
      u in start[from].mails && (uidplus || !start[from].mails[u].deleted)
    }
  }

  /** A copy, made since the start, of what had UID u at the start. */
  ghost predicate HasCopy(job: Job, now: Folders, u: nat, live: bool)
    requires job.Valid() && u in job.start[job.from].mails
  {
    job.to in now && exists n :: IsCopy(job, now[job.to], n, job.start[job.from].mails[u].content, live)
  }

  ghost predicate IsCopy(job: Job, folder: Folder, n: nat, content: nat, live: bool)
    requires job.Valid()
  {
    && job.start[job.to].uidNext <= n
    && n in folder.mails
    && folder.mails[n].content == content
    && (live ==> !folder.mails[n].deleted)
  }

  /** Untouched, or copied: an unflagged message has an unflagged copy. */
  ghost predicate Kept(job: Job, now: Folders, u: nat)
    requires job.Valid() && u in job.start[job.from].mails && job.from in now
  {
    var mail := job.start[job.from].mails[u];
    || (u in now[job.from].mails && now[job.from].mails[u] == mail)
    || HasCopy(job, now, u, !mail.deleted)
    || (mail.deleted && !job.uidplus)
  }

  /** The invariant of a bulk move, kept by every command and so by every run. */
  ghost predicate Conserves(job: Job, now: Folders)
    requires job.Valid()
  {
    && WellFormed(now) && now.Keys == job.start.Keys
    // folders not named are untouched
    && (forall f :: f in now && f != job.from && f != job.to ==> now[f] == job.start[f])
    // no UID is ever given a second meaning, and nothing new enters the source of a move elsewhere
    && job.start[job.to].uidNext <= now[job.to].uidNext
    && (job.from != job.to ==> now[job.from].uidNext == job.start[job.from].uidNext)
    && (forall u :: u in now[job.from].mails && u < job.start[job.from].uidNext ==>
         u in job.start[job.from].mails && now[job.from].mails[u].content == job.start[job.from].mails[u].content)
    // no message is lost
    && (forall u :: u in job.start[job.from].mails ==> Kept(job, now, u))
    // only targets leave or change, apart from what a bare EXPUNGE takes with it
    && (forall u :: job.Protected(u) && u !in job.targets ==>
         u in now[job.from].mails && now[job.from].mails[u] == job.start[job.from].mails[u])
    // what the destination held, it still holds
    && (job.from != job.to ==> forall n :: n in job.start[job.to].mails ==>
         n in now[job.to].mails && now[job.to].mails[n] == job.start[job.to].mails[n])
    // and what is new there is a copy of a target
    && (job.from != job.to ==> forall n :: n in now[job.to].mails && n !in job.start[job.to].mails ==>
         exists u :: u in job.targets && u in job.start[job.from].mails
           && job.start[job.from].mails[u].content == now[job.to].mails[n].content)
  }

  /** Protected messages that have their copy. A reported success is about these. */
  ghost predicate Delivered(job: Job, now: Folders, u: nat)
    requires job.Valid()
  {
    job.Protected(u) ==> HasCopy(job, now, u, !job.start[job.from].mails[u].deleted)
  }

  /** The copies a command has just made cover these UIDs. */
  ghost predicate Copied(job: Job, now: Folders, uids: set<nat>)
    requires job.Valid()
  {
    job.from in now && forall u :: u in uids && u in job.start[job.from].mails && u in now[job.from].mails ==>
      HasCopy(job, now, u, !job.start[job.from].mails[u].deleted)
  }

  lemma {:induction false} AppendKeeps(source: map<nat, Mail>, uids: seq<nat>, into: Folder)
    requires forall n :: n in into.mails ==> n < into.uidNext
    ensures var r := Append(source, uids, into);
      && into.uidNext <= r.uidNext <= into.uidNext + |uids|
      && (forall n :: n in r.mails ==> n < r.uidNext)
      && (forall n :: n in into.mails ==> n in r.mails && r.mails[n] == into.mails[n])
      && (forall n :: n in r.mails && n !in into.mails ==>
           into.uidNext <= n && exists u :: u in uids && u in source && source[u] == r.mails[n])
  {
    if uids == [] {
    } else {
      AppendKeeps(source, uids[..|uids| - 1], into);
    }
  }

  lemma {:induction false} AppendCopies(source: map<nat, Mail>, uids: seq<nat>, into: Folder, u: nat) returns (n: nat)
    requires forall n :: n in into.mails ==> n < into.uidNext
    requires u in uids && u in source
    ensures var r := Append(source, uids, into);
      into.uidNext <= n && n in r.mails && r.mails[n] == source[u]
  {
    var last := |uids| - 1;
    AppendKeeps(source, uids[..last], into);
    if u == uids[last] {
      n := Append(source, uids[..last], into).uidNext;
    } else {
      n := AppendCopies(source, uids[..last], into, u);
    }
  }

  lemma CopyKeepsCopies(job: Job, now: Folders, uids: seq<nat>, u: nat, live: bool)
    requires job.Valid() && Conserves(job, now)
    requires u in job.start[job.from].mails && HasCopy(job, now, u, live)
    ensures HasCopy(job, CopyTo(now, job.from, uids, job.to), u, live)
  {
    AppendKeeps(now[job.from].mails, uids, now[job.to]);
    var content := job.start[job.from].mails[u].content;
    var n :| IsCopy(job, now[job.to], n, content, live);
    assert IsCopy(job, CopyTo(now, job.from, uids, job.to)[job.to], n, content, live);
  }

  lemma CopyCopies(job: Job, now: Folders, uids: seq<nat>, u: nat)
    requires job.Valid() && Conserves(job, now)
    requires u in uids && u in job.start[job.from].mails && u in now[job.from].mails
    ensures HasCopy(job, CopyTo(now, job.from, uids, job.to), u, !job.start[job.from].mails[u].deleted)
  {
    var was, mail := job.start[job.from].mails[u], now[job.from].mails[u];
    if !was.deleted && mail.deleted {
      CopyKeepsCopies(job, now, uids, u, true);
    } else {
      var n := AppendCopies(now[job.from].mails, uids, now[job.to], u);
      assert IsCopy(job, CopyTo(now, job.from, uids, job.to)[job.to], n, was.content, !was.deleted);
    }
  }

  /** COPY keeps the invariant, and afterwards every UID it was given has its copy. */
  lemma CopyConserves(job: Job, now: Folders, uids: seq<nat>)
    requires job.Valid() && Conserves(job, now)
    requires forall u :: u in uids ==> u in job.targets
    ensures var after := CopyTo(now, job.from, uids, job.to);
      && Conserves(job, after)
      && Copied(job, after, set u | u in uids)
      && after[job.to].uidNext <= now[job.to].uidNext + |uids|
      && (forall u :: u in uids || Delivered(job, now, u) ==> Delivered(job, after, u))
  {
    var after := CopyTo(now, job.from, uids, job.to);
    AppendKeeps(now[job.from].mails, uids, now[job.to]);
    forall u | u in job.start[job.from].mails ensures Kept(job, after, u) {
      var live := !job.start[job.from].mails[u].deleted;
      if HasCopy(job, now, u, live) {
        CopyKeepsCopies(job, now, uids, u, live);
      }
    }
    forall u | u in uids && u in job.start[job.from].mails && u in after[job.from].mails
      ensures HasCopy(job, after, u, !job.start[job.from].mails[u].deleted)
    {
      CopyCopies(job, now, uids, u);
    }
    forall u | job.Protected(u) && (u in uids || Delivered(job, now, u)) ensures Delivered(job, after, u) {
      assert Kept(job, after, u);
      if Delivered(job, now, u) {
        CopyKeepsCopies(job, now, uids, u, !job.start[job.from].mails[u].deleted);
      } else if u in now[job.from].mails {
        CopyCopies(job, now, uids, u);
      }
    }
  }

  /** Flagging targets whose copies are made keeps the invariant. */
  lemma FlagConserves(job: Job, now: Folders, hit: set<nat>)
    requires job.Valid() && job.TargetsClear() && Conserves(job, now) && now[job.to].uidNext <= job.Ceiling()
    requires hit <= job.targets && Copied(job, now, hit)
    ensures Conserves(job, Flag(now, job.from, hit))
    ensures forall uids :: Copied(job, now, uids) ==> Copied(job, Flag(now, job.from, hit), uids)
    ensures forall u :: Delivered(job, now, u) ==> Delivered(job, Flag(now, job.from, hit), u)
  {
    var after := Flag(now, job.from, hit);
    forall u, live | u in job.start[job.from].mails && HasCopy(job, now, u, live)
      ensures HasCopy(job, after, u, live)
    {
      var content := job.start[job.from].mails[u].content;
      var n :| IsCopy(job, now[job.to], n, content, live);
      assert IsCopy(job, after[job.to], n, content, live);
    }
  }

  /** Expunging flagged messages keeps the invariant. */
  lemma RemoveConserves(job: Job, now: Folders, gone: set<nat>)
    requires job.Valid() && job.TargetsClear() && Conserves(job, now) && now[job.to].uidNext <= job.Ceiling()
    requires gone <= Expungeable(now, job.from, job.targets, job.uidplus)
    requires job.uidplus ==> Copied(job, now, gone)
    ensures Conserves(job, Remove(now, job.from, gone))
    ensures forall u :: Delivered(job, now, u) ==> Delivered(job, Remove(now, job.from, gone), u)
  {
    var after := Remove(now, job.from, gone);
    forall u | job.Protected(u) && Delivered(job, now, u) ensures Delivered(job, after, u) {
      var mail := job.start[job.from].mails[u];
      var n :| IsCopy(job, now[job.to], n, mail.content, !mail.deleted);
      assert IsCopy(job, after[job.to], n, mail.content, !mail.deleted);
    }
    forall u | u in job.start[job.from].mails ensures Kept(job, after, u) {
      if job.Protected(u) && HasCopy(job, now, u, !job.start[job.from].mails[u].deleted) {
        assert Delivered(job, after, u);
      }
    }
  }

  // ---- a whole move --------------------------------------------------------

  /** What a COPY, a STORE and an EXPUNGE may leave, however much of the last two takes effect. */
  ghost predicate MayEnd(before: Folders, from: string, uids: seq<nat>, to: string, uidplus: bool,
                         hit: set<nat>, gone: set<nat>, ended: Folders)
    requires from in before && to in before
  {
    var flagged := Flag(CopyTo(before, from, uids, to), from, hit);
    && hit <= UidSet(uids)
    && gone <= Expungeable(flagged, from, UidSet(uids), uidplus)
    && ended == Remove(flagged, from, gone)
  }

  lemma NothingGone(before: Folders, from: string, uids: seq<nat>, to: string, uidplus: bool, hit: set<nat>)
    requires from in before && to in before && hit <= UidSet(uids)
    ensures MayEnd(before, from, uids, to, uidplus, hit, {}, Flag(CopyTo(before, from, uids, to), from, hit))
  {
    var flagged := Flag(CopyTo(before, from, uids, to), from, hit);
    assert flagged[from].mails - {} == flagged[from].mails;
    assert Remove(flagged, from, {}) == flagged;
  }

  lemma NothingFlagged(before: Folders, from: string, uids: seq<nat>, to: string, uidplus: bool)
    requires from in before && to in before
    ensures MayEnd(before, from, uids, to, uidplus, {}, {}, CopyTo(before, from, uids, to))
  {
    var copied := CopyTo(before, from, uids, to);
    NothingGone(before, from, uids, to, uidplus, {});
    assert Flag(copied, from, {})[from].mails == copied[from].mails;
    assert Flag(copied, from, {}) == copied;
  }

  /** A whole move keeps the invariant, and then every UID it was given has its copy. */
  lemma MoveConserves(job: Job, now: Folders, uids: seq<nat>, hit: set<nat>, gone: set<nat>, ended: Folders)
    requires job.Valid() && job.TargetsClear() && Conserves(job, now) && UidSet(uids) <= job.targets
    requires now[job.to].uidNext + |uids| <= job.Ceiling()
    requires MayEnd(now, job.from, uids, job.to, job.uidplus, hit, gone, ended)
    ensures Conserves(job, ended) && ended[job.to].uidNext <= now[job.to].uidNext + |uids|
    ensures forall u :: u in uids || Delivered(job, now, u) ==> Delivered(job, ended, u)
  {
    var copied := CopyTo(now, job.from, uids, job.to);
    var flagged := Flag(copied, job.from, hit);
    CopyConserves(job, now, uids);
    FlagConserves(job, copied, hit);
    RemoveConserves(job, flagged, gone);
  }

  // ---- moving a folder onto itself -----------------------------------------

  ghost predicate JobMayEnd(job: Job, uids: seq<nat>, hit: set<nat>, gone: set<nat>, ended: Folders)
    requires job.Valid()
  {
    MayEnd(job.start, job.from, uids, job.to, job.uidplus, hit, gone, ended)
  }

  /** The copy of a protected message is given a UID that the move itself names. */
  ghost predicate CopyTakesTarget(job: Job, uids: seq<nat>)
    requires job.Valid()
  {
    var copied := Append(job.start[job.from].mails, uids, job.start[job.from]);
    exists t :: t in uids && t in copied.mails && job.start[job.from].uidNext <= t
      && (job.uidplus || !copied.mails[t].deleted)
  }

  ghost predicate ToldApart(mails: map<nat, Mail>) {
    forall u, v :: u in mails && v in mails && mails[u].content == mails[v].content ==> u == v
  }

  /** No other message has the content of this one. */
  ghost predicate Alone(mails: map<nat, Mail>, u: nat) {
    u in mails && forall v :: v in mails && mails[v].content == mails[u].content ==> v == u
  }

  /** Each message is copied once. */
  lemma {:induction false} AppendOnce(source: map<nat, Mail>, uids: seq<nat>, into: Folder, u: nat, n: nat, m: nat)
    requires Increasing(uids) && Alone(source, u)
    requires forall k :: k in into.mails ==> k < into.uidNext
    requires var r := Append(source, uids, into);
      into.uidNext <= n && into.uidNext <= m && n in r.mails && m in r.mails
      && r.mails[n].content == r.mails[m].content == source[u].content
    ensures n == m
  {
    if uids == [] {
    } else {
      var last := |uids| - 1;
      var done := Append(source, uids[..last], into).mails;
      AppendKeeps(source, uids[..last], into);
      if n in done && m in done {
        AppendOnce(source, uids[..last], into, u, n, m);
      }
    }
  }

  lemma SelfMoveKeeps(job: Job, uids: seq<nat>, hit: set<nat>, gone: set<nat>, ended: Folders, u: nat)
    requires job.Valid() && job.from == job.to && JobMayEnd(job, uids, hit, gone, ended)
    requires !CopyTakesTarget(job, uids) && u in job.start[job.from].mails
    ensures Kept(job, ended, u)
  {
    var folder := job.start[job.from];
    var copied := Append(folder.mails, uids, folder);
    AppendKeeps(folder.mails, uids, folder);
    if u in uids && job.Protected(u) {
      var n := AppendCopies(folder.mails, uids, folder, u);
      assert copied.mails[n] == folder.mails[u];
      assert n !in uids;
      assert IsCopy(job, ended[job.to], n, folder.mails[u].content, !folder.mails[u].deleted);
    }
  }

  /** A protected message, the target UID its copy is given, and no other copy. */
  lemma TakenTarget(job: Job, uids: seq<nat>) returns (u: nat, t: nat)
    requires job.Valid() && Increasing(uids) && ToldApart(job.start[job.from].mails) && CopyTakesTarget(job, uids)
    ensures var folder := job.start[job.from];
      var copied := Append(folder.mails, uids, folder).mails;
      && job.Protected(u) && {u, t} <= UidSet(uids)
      && u in copied && t in copied && copied[u] == copied[t] == folder.mails[u]
      && (forall n :: n in copied && folder.uidNext <= n && copied[n].content == folder.mails[u].content ==> n == t)
  {
    var folder := job.start[job.from];
    var copied := Append(folder.mails, uids, folder).mails;
    AppendKeeps(folder.mails, uids, folder);
    t :| t in uids && t in copied && folder.uidNext <= t && (job.uidplus || !copied[t].deleted);
    u :| u in uids && u in folder.mails && folder.mails[u] == copied[t];
    forall n | n in copied && folder.uidNext <= n && copied[n].content == folder.mails[u].content ensures n == t {
      AppendOnce(folder.mails, uids, folder, u, n, t);
    }
  }

  /** Both flagged and both expunged. */
  lemma SelfMoveLoses(job: Job, uids: seq<nat>) returns (u: nat, both: set<nat>, ended: Folders)
    requires job.Valid() && job.from == job.to && Increasing(uids) && ToldApart(job.start[job.from].mails)
    requires CopyTakesTarget(job, uids)
    ensures u in job.start[job.from].mails && JobMayEnd(job, uids, both, both, ended)
    ensures !Kept(job, ended, u)
  {
    var t: nat;
    u, t := TakenTarget(job, uids);
    both := {u, t};
    ended := Remove(Flag(CopyTo(job.start, job.from, uids, job.from), job.from, both), job.from, both);
  }

  /** A move of a folder onto itself keeps every message, whatever takes effect, if and only
      if no copy of a protected message is given a UID the move names. */
  lemma SelfMoveExact(job: Job, uids: seq<nat>)
    requires job.Valid() && job.from == job.to && Increasing(uids) && ToldApart(job.start[job.from].mails)
    ensures (forall hit, gone, ended, u ::
      JobMayEnd(job, uids, hit, gone, ended) && u in job.start[job.from].mails ==> Kept(job, ended, u))
      <==> !CopyTakesTarget(job, uids)
  {
    if CopyTakesTarget(job, uids) {
      var u, both, ended := SelfMoveLoses(job, uids);
      assert JobMayEnd(job, uids, both, both, ended);
    } else {
      forall hit, gone, ended, u | JobMayEnd(job, uids, hit, gone, ended) && u in job.start[job.from].mails
        ensures Kept(job, ended, u)
      {
        SelfMoveKeeps(job, uids, hit, gone, ended, u);
      }
    }
  }

  // ---- a chunk: one move of all its UIDs, or then of each --------------------

  /** A move that may fail before it does anything. */
  ghost predicate OneMove(before: Folders, from: string, uids: seq<nat>, to: string, uidplus: bool, after: Folders)
    requires from in before && to in before
  {
    after == before || exists hit, gone :: MayEnd(before, from, uids, to, uidplus, hit, gone, after)
  }

  ghost predicate SinglesMayEnd(before: Folders, from: string, uids: seq<nat>, to: string, uidplus: bool, after: Folders)
    requires from in before && to in before
    decreases |uids|
  {
    if uids == [] then after == before
    else
      var n := |uids| - 1;
      exists mid: Folders :: mid.Keys == before.Keys
        && SinglesMayEnd(before, from, uids[..n], to, uidplus, mid) && OneMove(mid, from, [uids[n]], to, uidplus, after)
  }

  lemma SinglesNext(before: Folders, from: string, uids: seq<nat>, i: nat, to: string, uidplus: bool, mid: Folders,
                    after: Folders)
    requires from in before && to in before && mid.Keys == before.Keys && i < |uids|
    requires SinglesMayEnd(before, from, uids[..i], to, uidplus, mid) && OneMove(mid, from, [uids[i]], to, uidplus, after)
    ensures SinglesMayEnd(before, from, uids[..i + 1], to, uidplus, after)
  {
    assert uids[..i + 1][..i] == uids[..i];
  }

  ghost predicate ChunkMayEnd(before: Folders, from: string, uids: seq<nat>, to: string, uidplus: bool, after: Folders)
    requires from in before && to in before
  {
    exists mid: Folders :: mid.Keys == before.Keys
      && OneMove(before, from, uids, to, uidplus, mid) && (after == mid || SinglesMayEnd(mid, from, uids, to, uidplus, after))
  }

  /** Every message of the folder is still there or has its copy. */
  ghost predicate AllKept(job: Job, now: Folders)
    requires job.Valid()
  {
    && WellFormed(now) && now.Keys == job.start.Keys && job.start[job.to].uidNext <= now[job.to].uidNext
    && forall u :: u in job.start[job.from].mails ==> Kept(job, now, u)
  }

  /** The chunks one after the other. */
  ghost predicate CallMayEnd(before: Folders, from: string, chunks: seq<seq<nat>>, to: string, uidplus: bool, after: Folders)
    requires from in before && to in before
    decreases |chunks|
  {
    if chunks == [] then after == before
    else
      var n := |chunks| - 1;
      exists mid: Folders :: mid.Keys == before.Keys
        && CallMayEnd(before, from, chunks[..n], to, uidplus, mid) && ChunkMayEnd(mid, from, chunks[n], to, uidplus, after)
  }

  lemma CallNext(before: Folders, from: string, chunks: seq<seq<nat>>, i: nat, to: string, uidplus: bool, mid: Folders,
                 after: Folders)
    requires from in before && to in before && mid.Keys == before.Keys && i < |chunks|
    requires CallMayEnd(before, from, chunks[..i], to, uidplus, mid) && ChunkMayEnd(mid, from, chunks[i], to, uidplus, after)
    ensures CallMayEnd(before, from, chunks[..i + 1], to, uidplus, after)
  {
    assert chunks[..i + 1][..i] == chunks[..i];
  }

  /** A message moved alone is given a UID other than its own, so the copy outlives it. */
  lemma SingleKeeps(job: Job, now: Folders, t: nat, hit: set<nat>, gone: set<nat>, ended: Folders, u: nat)
    requires job.Valid() && job.from == job.to && AllKept(job, now) && u in job.start[job.from].mails
    requires MayEnd(now, job.from, [t], job.to, job.uidplus, hit, gone, ended)
    ensures Kept(job, ended, u)
  {
    var folder, mail := now[job.from], job.start[job.from].mails[u];
    var copied := Append(folder.mails, [t], folder);
    AppendKeeps(folder.mails, [t], folder);
    if job.Protected(u) {
      var x := Witness(job, now, u);
      if x == t {
        var n := AppendCopies(folder.mails, [t], folder, t);
        assert IsCopy(job, ended[job.to], n, mail.content, !mail.deleted);
      } else {
        assert x in ended[job.from].mails && ended[job.from].mails[x] == folder.mails[x];
        if x != u || folder.mails[x] != mail {
          assert IsCopy(job, ended[job.to], x, mail.content, !mail.deleted);
        }
      }
    }
  }

  /** The message that keeps u's content: u untouched, or a copy. */
  lemma Witness(job: Job, now: Folders, u: nat) returns (x: nat)
    requires job.Valid() && job.from == job.to && AllKept(job, now) && job.Protected(u)
    ensures var folder, mail := now[job.from], job.start[job.from].mails[u];
      && x in folder.mails && folder.mails[x].content == mail.content && (!mail.deleted ==> !folder.mails[x].deleted)
      && ((x == u && folder.mails[x] == mail) || job.start[job.to].uidNext <= x)
  {
    var mail := job.start[job.from].mails[u];
    assert Kept(job, now, u);
    if u in now[job.from].mails && now[job.from].mails[u] == mail {
      x := u;
    } else {
      x :| IsCopy(job, now[job.to], x, mail.content, !mail.deleted);
    }
  }

  lemma MoveKeepsForm(before: Folders, from: string, uids: seq<nat>, uidplus: bool, hit: set<nat>, gone: set<nat>,
                      after: Folders)
    requires WellFormed(before) && from in before && MayEnd(before, from, uids, from, uidplus, hit, gone, after)
    ensures WellFormed(after) && after.Keys == before.Keys && before[from].uidNext <= after[from].uidNext
  {
    AppendKeeps(before[from].mails, uids, before[from]);
  }

  lemma OneSingleKeepsAll(job: Job, now: Folders, t: nat, after: Folders)
    requires job.Valid() && job.from == job.to && AllKept(job, now)
    requires OneMove(now, job.from, [t], job.to, job.uidplus, after)
    ensures AllKept(job, after)
  {
    if after != now {
      var hit, gone :| MayEnd(now, job.from, [t], job.to, job.uidplus, hit, gone, after);
      MoveKeepsForm(now, job.from, [t], job.uidplus, hit, gone, after);
      forall u | u in job.start[job.from].mails ensures Kept(job, after, u) {
        SingleKeeps(job, now, t, hit, gone, after, u);
      }
    }
  }

  lemma {:induction false} SinglesKeepAll(job: Job, now: Folders, uids: seq<nat>, after: Folders)
    requires job.Valid() && job.from == job.to && AllKept(job, now)
    requires SinglesMayEnd(now, job.from, uids, job.to, job.uidplus, after)
    ensures AllKept(job, after)
    decreases |uids|
  {
    if uids == [] {
    } else {
      var n := |uids| - 1;
      var mid: Folders :| mid.Keys == now.Keys && SinglesMayEnd(now, job.from, uids[..n], job.to, job.uidplus, mid)
        && OneMove(mid, job.from, [uids[n]], job.to, job.uidplus, after);
      SinglesKeepAll(job, now, uids[..n], mid);
      OneSingleKeepsAll(job, mid, uids[n], after);
    }
  }

  lemma ChunkKeepsAll(job: Job, uids: seq<nat>, ended: Folders)
    requires job.Valid() && job.from == job.to && !CopyTakesTarget(job, uids)
    requires ChunkMayEnd(job.start, job.from, uids, job.to, job.uidplus, ended)
    ensures AllKept(job, ended)
  {
    var mid: Folders :| mid.Keys == job.start.Keys && OneMove(job.start, job.from, uids, job.to, job.uidplus, mid)
      && (ended == mid || SinglesMayEnd(mid, job.from, uids, job.to, job.uidplus, ended));
    if mid != job.start {
      var hit, gone :| MayEnd(job.start, job.from, uids, job.to, job.uidplus, hit, gone, mid);
      MoveKeepsForm(job.start, job.from, uids, job.uidplus, hit, gone, mid);
      forall u | u in job.start[job.from].mails ensures Kept(job, mid, u) {
        SelfMoveKeeps(job, uids, hit, gone, mid, u);
      }
    }
    if ended != mid {
      SinglesKeepAll(job, mid, uids, ended);
    }
  }

  lemma CallOfOneChunk(before: Folders, from: string, uids: seq<nat>, to: string, uidplus: bool, after: Folders)
    requires from in before && to in before
    ensures CallMayEnd(before, from, [uids], to, uidplus, after) <==> ChunkMayEnd(before, from, uids, to, uidplus, after)
  {
    assert [uids][..0] == [];
    assert CallMayEnd(before, from, [], to, uidplus, before);
  }

  /** A bulk move of one chunk within a folder keeps every message, whatever fails and
      whatever takes effect, if and only if no copy that the batch makes of a protected
      message is given a UID of the chunk. The retries add no way to lose one. */
  lemma SelfChunkExact(job: Job, uids: seq<nat>)
    requires job.Valid() && job.from == job.to && Increasing(uids) && ToldApart(job.start[job.from].mails)
    ensures (forall ended :: CallMayEnd(job.start, job.from, [uids], job.to, job.uidplus, ended) ==> AllKept(job, ended))
      <==> !CopyTakesTarget(job, uids)
  {
    if CopyTakesTarget(job, uids) {
      var ended := SelfCallLoses(job, [uids], 0);
    } else {
      forall ended | CallMayEnd(job.start, job.from, [uids], job.to, job.uidplus, ended) ensures AllKept(job, ended) {
        CallOfOneChunk(job.start, job.from, uids, job.to, job.uidplus, ended);
        ChunkKeepsAll(job, uids, ended);
      }
    }
  }

  /** The chunks before j and those after it may all fail at once. */
  lemma {:induction false} OneChunkActs(before: Folders, from: string, chunks: seq<seq<nat>>, j: nat, to: string,
                                        uidplus: bool, after: Folders)
    requires from in before && to in before && after.Keys == before.Keys && j < |chunks|
    requires ChunkMayEnd(before, from, chunks[j], to, uidplus, after)
    ensures CallMayEnd(before, from, chunks, to, uidplus, after)
    decreases |chunks|
  {
    var n := |chunks| - 1;
    if j == n {
      NothingActs(before, from, chunks[..n], to, uidplus);
    } else {
      OneChunkActs(before, from, chunks[..n], j, to, uidplus, after);
      assert OneMove(after, from, chunks[n], to, uidplus, after);
      assert ChunkMayEnd(after, from, chunks[n], to, uidplus, after);
    }
  }

  lemma {:induction false} NothingActs(before: Folders, from: string, chunks: seq<seq<nat>>, to: string, uidplus: bool)
    requires from in before && to in before
    ensures CallMayEnd(before, from, chunks, to, uidplus, before)
    decreases |chunks|
  {
    if chunks == [] {
    } else {
      var n := |chunks| - 1;
      NothingActs(before, from, chunks[..n], to, uidplus);
      assert OneMove(before, from, chunks[n], to, uidplus, before);
      assert ChunkMayEnd(before, from, chunks[n], to, uidplus, before);
    }
  }

  /** A whole bulk move within a folder may lose a message as soon as one of its chunks may. */
  lemma SelfCallLoses(job: Job, chunks: seq<seq<nat>>, j: nat) returns (ended: Folders)
    requires job.Valid() && job.from == job.to && ToldApart(job.start[job.from].mails)
    requires j < |chunks| && Increasing(chunks[j]) && CopyTakesTarget(job, chunks[j])
    ensures CallMayEnd(job.start, job.from, chunks, job.to, job.uidplus, ended) && !AllKept(job, ended)
  {
    var u, both;
    u, both, ended := SelfMoveLoses(job, chunks[j]);
    MoveKeepsForm(job.start, job.from, chunks[j], job.uidplus, both, both, ended);
    assert OneMove(job.start, job.from, chunks[j], job.to, job.uidplus, ended);
    assert ChunkMayEnd(job.start, job.from, chunks[j], job.to, job.uidplus, ended);
    OneChunkActs(job.start, job.from, chunks, j, job.to, job.uidplus, ended);
  }

  /** Such a move: UID 6 is free, the copy of message 5 is given it, and both are gone. */
  lemma SelfMoveMayLose() returns (ended: Folders)
    ensures var job := Job(map["A" := Folder(map[5 := Mail(1, false)], 6)], "A", "A", {5, 6}, true);
      job.Valid() && ChunkMayEnd(job.start, "A", [5, 6], "A", true, ended) && !Kept(job, ended, 5)
  {
    var source := map[5 := Mail(1, false)];
    var job := Job(map["A" := Folder(source, 6)], "A", "A", {5, 6}, true);
    assert [5, 6][..1] == [5] && [5][..0] == [];
    assert Append(source, [5], Folder(source, 6)) == Folder(source[6 := Mail(1, false)], 7);
    assert 6 in [5, 6];
    assert CopyTakesTarget(job, [5, 6]);
    var u, both;
    u, both, ended := SelfMoveLoses(job, [5, 6]);
    MoveKeepsForm(job.start, "A", [5, 6], true, both, both, ended);
    assert OneMove(job.start, "A", [5, 6], "A", true, ended);
  }

  // ---- a copy of an earlier chunk decides ------------------------------------

  function FirstUids(n: nat): (uids: seq<nat>)
    ensures |uids| == n && forall i :: 0 <= i < n ==> uids[i] == i + 1
  {
    seq(n, i requires 0 <= i < n => i + 1)
  }

  lemma {:induction false} AppendOnlyFirst(source: map<nat, Mail>, n: nat, into: Folder)
    requires 1 in source && n > 0 && forall u :: u in source && u <= n ==> u == 1
    ensures Append(source, FirstUids(n), into) == Folder(into.mails[into.uidNext := source[1]], into.uidNext + 1)
  {
    assert FirstUids(n)[..n - 1] == FirstUids(n - 1);
    if n == 1 {
      assert Append(source, [], into) == into;
    } else {
      AppendOnlyFirst(source, n - 1, into);
    }
  }

  const TWO_MAILS: map<nat, Mail> := map[1 := Mail(1, false), 300 := Mail(2, false)]

  function TwoChunks(): Job {
    Job(map["A" := Folder(TWO_MAILS, 301)], "A", "A", UidSet(FirstUids(200)) + {300, 302}, true)
  }

  const COPIED: map<nat, Mail> := TWO_MAILS[301 := Mail(1, false)]

  lemma FirstChunkCopies()
    ensures var job := TwoChunks();
      && job.Valid() && CopyTo(job.start, "A", FirstUids(200), "A") == map["A" := Folder(COPIED, 302)]
      && !CopyTakesTarget(job, FirstUids(200))
  {
    AppendOnlyFirst(TWO_MAILS, 200, Folder(TWO_MAILS, 301));
  }

  lemma SecondChunkIsClear()
    ensures TwoChunks().Valid() && !CopyTakesTarget(TwoChunks(), [300, 302])
  {
    assert [300, 302][..1] == [300] && [300][..0] == [];
    assert Append(TWO_MAILS, [300], Folder(TWO_MAILS, 301)) == Folder(TWO_MAILS[301 := Mail(2, false)], 302);
    assert Append(TWO_MAILS, [300, 302], Folder(TWO_MAILS, 301)) == Folder(TWO_MAILS[301 := Mail(2, false)], 302);
  }

  lemma SecondChunkLoses() returns (ended: Folders)
    ensures MayEnd(map["A" := Folder(COPIED, 302)], "A", [300, 302], "A", true, {300, 302}, {300, 302}, ended)
    ensures ended == map["A" := Folder(map[1 := Mail(1, false), 301 := Mail(1, false)], 303)]
  {
    assert [300, 302][..1] == [300] && [300][..0] == [];
    assert Append(COPIED, [300], Folder(COPIED, 302)) == Folder(COPIED[302 := Mail(2, false)], 303);
    assert Append(COPIED, [300, 302], Folder(COPIED, 302)) == Folder(COPIED[302 := Mail(2, false)], 303);
    var before := map["A" := Folder(COPIED, 302)];
    var flagged := Flag(CopyTo(before, "A", [300, 302], "A"), "A", {300, 302});
    ended := Remove(flagged, "A", {300, 302});
    assert ended["A"].mails == map[1 := Mail(1, false), 301 := Mail(1, false)];
  }

  lemma CallOfTwoChunks(before: Folders, from: string, first: seq<nat>, second: seq<nat>, to: string, uidplus: bool,
                        mid: Folders, after: Folders)
    requires from in before && to in before && mid.Keys == before.Keys
    requires OneMove(before, from, first, to, uidplus, mid) && OneMove(mid, from, second, to, uidplus, after)
    requires after.Keys == before.Keys
    ensures CallMayEnd(before, from, [first, second], to, uidplus, after)
  {
    var chunks := [first, second];
    CallOfOneChunk(before, from, first, to, uidplus, mid);
    assert chunks[..1] == [first] && chunks[..2] == chunks;
    CallNext(before, from, chunks, 1, to, uidplus, mid, after);
  }

  lemma TwoChunksRun() returns (ended: Folders)
    ensures TwoChunks().Valid() && CallMayEnd(TwoChunks().start, "A", [FirstUids(200), [300, 302]], "A", true, ended)
    ensures ended == map["A" := Folder(map[1 := Mail(1, false), 301 := Mail(1, false)], 303)]
  {
    var start, mid := TwoChunks().start, map["A" := Folder(COPIED, 302)];
    FirstChunkCopies();
    NothingFlagged(start, "A", FirstUids(200), "A", true);
    ended := SecondChunkLoses();
    CallOfTwoChunks(start, "A", FirstUids(200), [300, 302], "A", true, mid, ended);
  }

  lemma SecondIsLost(ended: Folders)
    requires ended == map["A" := Folder(map[1 := Mail(1, false), 301 := Mail(1, false)], 303)]
    ensures TwoChunks().Valid() && !Kept(TwoChunks(), ended, 300)
  {
    var job := TwoChunks();
    forall n ensures !IsCopy(job, ended["A"], n, 2, true) {
    }
  }

  /** Neither chunk takes a target as the call begins, and yet message 300 is lost: the first
      chunk's copy of message 1 is given UID 301, so the copy of 300 is given 302. */
  lemma EarlierCopyDecides() returns (ended: Folders)
    ensures TwoChunks().Valid()
    ensures !CopyTakesTarget(TwoChunks(), FirstUids(200)) && !CopyTakesTarget(TwoChunks(), [300, 302])
    ensures CallMayEnd(TwoChunks().start, "A", [FirstUids(200), [300, 302]], "A", true, ended)
    ensures 300 in TwoChunks().start["A"].mails && "A" in ended && !Kept(TwoChunks(), ended, 300)
  {
    FirstChunkCopies();
    SecondChunkIsClear();
    ended := TwoChunksRun();
    SecondIsLost(ended);
  }

  /** A delete takes only targets, apart from what a bare EXPUNGE takes with them. */
  ghost predicate OnlyTargetsLeft(start: Folders, now: Folders, folder: string, targets: set<nat>, uidplus: bool) {
    && now.Keys == start.Keys
    && (forall f :: f in now && f != folder ==> now[f] == start[f])
    && (folder in now ==>
         && now[folder].uidNext == start[folder].uidNext
         && now[folder].mails.Keys <= start[folder].mails.Keys
         && (forall u :: u in now[folder].mails ==> now[folder].mails[u].content == start[folder].mails[u].content)
         && (forall u :: u in start[folder].mails && u !in targets && (uidplus || !start[folder].mails[u].deleted) ==>
              u in now[folder].mails && now[folder].mails[u] == start[folder].mails[u]))
  }

  datatype Op = MoveTo(to: string) | CopyInto(to: string) | Delete

  datatype BulkResult = BulkResult(resolved: seq<nat>, succeeded: seq<nat>, failed: seq<nat>, dryRun: bool)

  datatype BulkError = NoTargets | LimitExceeded(count: nat, limit: nat)

  /** The UIDs reported so far and those still to come. */
  function Reported(succeeded: seq<nat>, failed: seq<nat>, rest: seq<nat>): multiset<nat> {
    multiset(succeeded) + multiset(failed) + multiset(rest)
  }

  lemma ReportNext(succeeded: seq<nat>, failed: seq<nat>, chunk: seq<nat>, i: nat)
    requires i < |chunk|
    ensures Reported(succeeded + [chunk[i]], failed, chunk[i + 1..]) == Reported(succeeded, failed, chunk[i..])
    ensures Reported(succeeded, failed + [chunk[i]], chunk[i + 1..]) == Reported(succeeded, failed, chunk[i..])
  {
    assert chunk[i..] == [chunk[i]] + chunk[i + 1..];
  }

  lemma ChunksNext(chunks: seq<seq<nat>>, i: nat)
    requires i < |chunks|
    ensures Concat(chunks[i..]) == chunks[i] + Concat(chunks[i + 1..])
    ensures multiset(Concat(chunks[i..])) == multiset(chunks[i]) + multiset(Concat(chunks[i + 1..]))
    ensures UidSet(Concat(chunks[i..])) == UidSet(chunks[i]) + UidSet(Concat(chunks[i + 1..]))
  {
    assert chunks[i..][1..] == chunks[i + 1..];
  }

  lemma ReportedNext(succeeded0: seq<nat>, failed0: seq<nat>, succeeded: seq<nat>, failed: seq<nat>, chunks: seq<seq<nat>>, i: nat)
    requires i < |chunks| && multiset(succeeded) + multiset(failed) == Reported(succeeded0, failed0, chunks[i])
    ensures Reported(succeeded, failed, Concat(chunks[i + 1..])) == Reported(succeeded0, failed0, Concat(chunks[i..]))
  {
    ChunksNext(chunks, i);
  }

  // ---- the client ----------------------------------------------------------

  const BULK_UID_LIMIT: nat := 500

  /** `validate_imap_input`. */
  predicate ValidInput(s: string) {
    forall c :: c in s ==> c !in {'\r', '\n', '\0', '{', '}'}
  }

  /** The commands as they go out. */
  datatype Command =
    | SelectFolder(name: string)
    | Copy(uids: seq<nat>, to: string)
    | StoreDeleted(uids: seq<nat>)
    | UidExpunge(uids: seq<nat>)
    | BareExpunge

  function ExpungeCommand(uids: seq<nat>, uidplus: bool): Command {
    if uidplus then UidExpunge(uids) else BareExpunge
  }

  function UidSet(uids: seq<nat>): set<nat> {
    set u | u in uids
  }

  // ---- the commands of a call ------------------------------------------------

  /** What has been sent and reported so far. */
  datatype Report = Report(sent: seq<Command>, succeeded: seq<nat>, failed: seq<nat>)

  datatype Request = Request(op: Op, folder: string, uidplus: bool)
  {
    predicate Named() {
      ValidInput(folder) && (op.Delete? || ValidInput(op.to))
    }
  }

  /** Sent: nothing if a name is refused, else a beginning of the script, with the SELECT at
      least, and all of it on success. */
  ghost predicate SentOf(script: seq<Command>, valid: bool, ok: bool, log: seq<Command>) {
    && log <= script
    && (ok ==> log == script)
    && (valid ==> log != [])
    && (!valid ==> log == [] && !ok)
  }

  /** One try of the operation on one sequence-set. */
  ghost predicate Tried(q: Request, uids: seq<nat>, ok: bool, log: seq<Command>) {
    match q.op
    case MoveTo(to) =>
      SentOf([SelectFolder(q.folder), Copy(uids, to), StoreDeleted(uids),
              if q.uidplus then UidExpunge(uids) else BareExpunge], ValidInput(q.folder) && ValidInput(to), ok, log)
    case CopyInto(to) =>
      SentOf([SelectFolder(q.folder), Copy(uids, to)], ValidInput(q.folder) && ValidInput(to), ok, log)
    case Delete =>
      SentOf([SelectFolder(q.folder), StoreDeleted(uids),
              if q.uidplus then UidExpunge(uids) else BareExpunge], ValidInput(q.folder), ok, log)
  }

  /** The parts of a call. */
  datatype Part = Whole(chunk: seq<nat>, ok: bool) | One(uid: nat) | Singles(uids: seq<nat>) | Chunk(chunk: seq<nat>) | Call(chunks: seq<seq<nat>>)
  {
    function Rank(): nat {
      match this case Call(_) => 3 case Chunk(_) => 2 case Singles(_) => 1 case _ => 0
    }

    function Size(): nat {
      match this case Call(chunks) => |chunks| case Singles(uids) => |uids| case _ => 0
    }
  }

  /** A call tries its chunks in order, each at once and, exactly if that fails, its UIDs one
      at a time; a try reports its UIDs, except that a chunk does not report that it failed. */
  ghost predicate Runs(q: Request, part: Part, before: Report, after: Report)
    decreases part.Rank(), part.Size()
  {
    match part
    case Whole(chunk, ok) =>
      exists log ::
        && Tried(q, chunk, ok, log)
        && after == Report(before.sent + log, before.succeeded + if ok then chunk else [], before.failed)
    case One(uid) =>
      exists ok, log ::
        && Tried(q, [uid], ok, log)
        && after == Report(before.sent + log, before.succeeded + if ok then [uid] else [], before.failed + if ok then [] else [uid])
    case Singles(uids) =>
      if uids == [] then after == before
      else
        var n := |uids| - 1;
        exists mid :: Runs(q, Singles(uids[..n]), before, mid) && Runs(q, One(uids[n]), mid, after)
    case Chunk(chunk) =>
      || Runs(q, Whole(chunk, true), before, after)
      || exists mid :: Runs(q, Whole(chunk, false), before, mid) && Runs(q, Singles(chunk), mid, after)
    case Call(chunks) =>
      if chunks == [] then after == before
      else
        var n := |chunks| - 1;
        exists mid :: Runs(q, Call(chunks[..n]), before, mid) && Runs(q, Chunk(chunks[n]), mid, after)
  }

  lemma WholeRuns(q: Request, chunk: seq<nat>, ok: bool, log: seq<Command>, before: Report, after: Report)
    requires Tried(q, chunk, ok, log)
    requires after == Report(before.sent + log, before.succeeded + if ok then chunk else [], before.failed)
    ensures Runs(q, Whole(chunk, ok), before, after)
  {
  }

  lemma ChunkRuns(q: Request, chunk: seq<nat>, before: Report, mid: Report, after: Report)
    requires Runs(q, Whole(chunk, false), before, mid) && Runs(q, Singles(chunk), mid, after)
    ensures Runs(q, Chunk(chunk), before, after)
  {
  }

  lemma SinglesRunNext(q: Request, uids: seq<nat>, i: nat, ok: bool, log: seq<Command>, before: Report, mid: Report, after: Report)
    requires i < |uids| && Runs(q, Singles(uids[..i]), before, mid) && Tried(q, [uids[i]], ok, log)
    requires after == Report(mid.sent + log, mid.succeeded + if ok then [uids[i]] else [], mid.failed + if ok then [] else [uids[i]])
    ensures Runs(q, Singles(uids[..i + 1]), before, after)
  {
    assert uids[..i + 1][..i] == uids[..i];
    assert Runs(q, One(uids[i]), mid, after);
  }

  lemma CallRunNext(q: Request, chunks: seq<seq<nat>>, i: nat, before: Report, mid: Report, after: Report)
    requires i < |chunks| && Runs(q, Call(chunks[..i]), before, mid) && Runs(q, Chunk(chunks[i]), mid, after)
    ensures Runs(q, Call(chunks[..i + 1]), before, after)
  {
    assert chunks[..i + 1][..i] == chunks[..i];
  }

  /** The commands of the script stand together in the log. */
  ghost predicate Together(log: seq<Command>, script: seq<Command>) {
    exists before, after :: log == before + script + after
  }

  lemma TogetherStays(log: seq<Command>, more: seq<Command>, script: seq<Command>)
    requires Together(log, script) || script == more
    ensures Together(log + more, script)
  {
    if Together(log, script) {
      var before, after :| log == before + script + after;
      assert log + more == before + script + (after + more);
    } else {
      assert log + more == log + script + [];
    }
  }

  /** The commands for some list with the UID in it went out together. */
  ghost predicate Backs(q: Request, log: seq<Command>, u: nat, l: seq<nat>) {
    u in l && match q.op
      case MoveTo(to) =>
        Together(log, [SelectFolder(q.folder), Copy(l, to), StoreDeleted(l), if q.uidplus then UidExpunge(l) else BareExpunge])
      case CopyInto(to) => Together(log, [SelectFolder(q.folder), Copy(l, to)])
      case Delete =>
        Together(log, [SelectFolder(q.folder), StoreDeleted(l), if q.uidplus then UidExpunge(l) else BareExpunge])
  }

  /** What is reported succeeded was sent, and what is reported failed was at least begun. */
  ghost predicate Backed(q: Request, start: nat, r: Report) {
    && start <= |r.sent|
    && (forall u :: u in r.succeeded ==> exists l :: Backs(q, r.sent[start..], u, l))
    && (q.Named() ==> multiset(r.sent[start..])[SelectFolder(q.folder)] >= |r.failed|)
  }

  lemma TryBacks(q: Request, log: seq<Command>, uids: seq<nat>, more: seq<Command>, u: nat)
    requires Tried(q, uids, true, more) && u in uids
    ensures Backs(q, log + more, u, uids)
  {
    TogetherStays(log, more, more);
  }

  lemma StillBacks(q: Request, log: seq<Command>, more: seq<Command>, u: nat, l: seq<nat>)
    requires Backs(q, log, u, l)
    ensures Backs(q, log + more, u, l)
  {
    match q.op {
      case MoveTo(to) =>
        TogetherStays(log, more,
          [SelectFolder(q.folder), Copy(l, to), StoreDeleted(l), if q.uidplus then UidExpunge(l) else BareExpunge]);
      case CopyInto(to) => TogetherStays(log, more, [SelectFolder(q.folder), Copy(l, to)]);
      case Delete =>
        TogetherStays(log, more, [SelectFolder(q.folder), StoreDeleted(l), if q.uidplus then UidExpunge(l) else BareExpunge]);
    }
  }

  lemma TryBacksAll(q: Request, was: seq<Command>, won: seq<nat>, uids: seq<nat>, ok: bool, log: seq<Command>)
    requires Tried(q, uids, ok, log)
    requires forall u :: u in won ==> exists l :: Backs(q, was, u, l)
    ensures forall u :: u in won || (ok && u in uids) ==> exists l :: Backs(q, was + log, u, l)
  {
    forall u | u in won || (ok && u in uids) ensures exists l :: Backs(q, was + log, u, l) {
      if u in won {
        var l :| Backs(q, was, u, l);
        StillBacks(q, was, log, u, l);
      } else {
        TryBacks(q, was, uids, log, u);
      }
    }
  }

  lemma TrySelects(q: Request, was: seq<Command>, uids: seq<nat>, ok: bool, log: seq<Command>)
    requires Tried(q, uids, ok, log) && q.Named()
    ensures multiset(was + log)[SelectFolder(q.folder)] > multiset(was)[SelectFolder(q.folder)]
  {
    assert log[0] == SelectFolder(q.folder) && log[0] in multiset(log);
  }

  lemma TryKeepsBacked(q: Request, start: nat, before: Report, uids: seq<nat>, ok: bool, log: seq<Command>, after: Report)
    requires Backed(q, start, before) && Tried(q, uids, ok, log)
    requires after.sent == before.sent + log && |after.failed| <= |before.failed| + 1
    requires after.succeeded == before.succeeded + if ok then uids else []
    ensures Backed(q, start, after)
  {
    assert after.sent[start..] == before.sent[start..] + log;
    TryBacksAll(q, before.sent[start..], before.succeeded, uids, ok, log);
    if q.Named() {
      TrySelects(q, before.sent[start..], uids, ok, log);
    }
  }

  /** Whatever fails in a call, what it reports is backed by what it sent. */
  lemma {:induction false} RunsKeepBacked(q: Request, start: nat, part: Part, before: Report, after: Report)
    requires Backed(q, start, before) && Runs(q, part, before, after)
    ensures Backed(q, start, after)
    decreases part.Rank(), part.Size()
  {
    if part.Whole? {
      var log :| Tried(q, part.chunk, part.ok, log)
        && after == Report(before.sent + log, before.succeeded + if part.ok then part.chunk else [], before.failed);
      TryKeepsBacked(q, start, before, part.chunk, part.ok, log, after);
    } else if part.One? {
      var ok, log :| Tried(q, [part.uid], ok, log)
        && after == Report(before.sent + log, before.succeeded + if ok then [part.uid] else [],
                           before.failed + if ok then [] else [part.uid]);
      TryKeepsBacked(q, start, before, [part.uid], ok, log, after);
    } else if !part.Chunk? && part.Size() == 0 {
    } else {
      var first, second, mid := Halves(q, part, before, after);
      RunsKeepBacked(q, start, first, before, mid);
      RunsKeepBacked(q, start, second, mid, after);
    }
  }

  /** A part of more than one try is run in two. */
  lemma Halves(q: Request, part: Part, before: Report, after: Report) returns (first: Part, second: Part, mid: Report)
    requires Runs(q, part, before, after) && (part.Chunk? || ((part.Singles? || part.Call?) && part.Size() > 0))
    ensures Runs(q, first, before, mid) && Runs(q, second, mid, after)
    ensures first.Rank() < part.Rank() || (first.Rank() == part.Rank() && first.Size() < part.Size())
    ensures second.Rank() < part.Rank()
  {
    match part {
      case Singles(uids) =>
        var n := |uids| - 1;
        mid :| Runs(q, Singles(uids[..n]), before, mid) && Runs(q, One(uids[n]), mid, after);
        first, second := Singles(uids[..n]), One(uids[n]);
      case Chunk(chunk) =>
        first, second := Whole(chunk, false), Singles(chunk);
        if Runs(q, Whole(chunk, true), before, after) {
          first, second, mid := Whole(chunk, true), Singles([]), after;
        } else {
          mid :| Runs(q, Whole(chunk, false), before, mid) && Runs(q, Singles(chunk), mid, after);
        }
      case Call(chunks) =>
        var n := |chunks| - 1;
        mid :| Runs(q, Call(chunks[..n]), before, mid) && Runs(q, Chunk(chunks[n]), mid, after);
        first, second := Call(chunks[..n]), Chunk(chunks[n]);
    }
  }

  lemma {:induction false} RunsOnlySend(q: Request, part: Part, before: Report, after: Report)
    requires Runs(q, part, before, after)
    ensures before.sent <= after.sent
    decreases part.Rank(), part.Size()
  {
    if part.Whole? || part.One? || (!part.Chunk? && part.Size() == 0) {
    } else {
      var first, second, mid := Halves(q, part, before, after);
      RunsOnlySend(q, first, before, mid);
      RunsOnlySend(q, second, mid, after);
    }
  }

  /** What a call reports, by the commands it sent. */
  lemma ReportBacked(q: Request, chunks: seq<seq<nat>>, sent: seq<Command>, r: Report)
    requires Runs(q, Call(chunks), Report(sent, [], []), r)
    ensures sent <= r.sent
    ensures q.op.MoveTo? ==> forall u :: u in r.succeeded ==> exists l ::
      && u in l
      && Together(r.sent[|sent|..], [SelectFolder(q.folder), Copy(l, q.op.to), StoreDeleted(l),
                                     if q.uidplus then UidExpunge(l) else BareExpunge])
    ensures q.op.CopyInto? ==> forall u :: u in r.succeeded ==> exists l ::
      && u in l
      && Together(r.sent[|sent|..], [SelectFolder(q.folder), Copy(l, q.op.to)])
    ensures q.op.Delete? ==> forall u :: u in r.succeeded ==> exists l ::
      && u in l
      && Together(r.sent[|sent|..], [SelectFolder(q.folder), StoreDeleted(l), if q.uidplus then UidExpunge(l) else BareExpunge])
    ensures q.Named() ==> multiset(r.sent[|sent|..])[SelectFolder(q.folder)] >= |r.failed|
  {
    RunsOnlySend(q, Call(chunks), Report(sent, [], []), r);
    RunsKeepBacked(q, |sent|, Call(chunks), Report(sent, [], []), r);
  }

  /** A session with a server. The methods' bodies decide arbitrarily what fails and what
      takes effect; callers know only the contracts. */
  class ImapClient {
    var folders: Folders
    var selected: Option<string>
    var warnedBareExpunge: bool
    const uidplus: bool
    ghost var sent: seq<Command>

    /** Sent since: a beginning of the script, and all of it on success. */
    twostate predicate Follows(script: seq<Command>, ok: bool)
      reads this
    {
      old(sent) <= sent <= old(sent) + script && (ok ==> sent == old(sent) + script)
    }

    /** Room is left for so many copies. */
    ghost predicate Ready(job: Job, room: nat)
      reads this
    {
      && job.Valid() && job.TargetsClear() && job.uidplus == uidplus && Conserves(job, folders)
      && folders[job.to].uidNext + room <= job.Ceiling()
    }

    method Arbitrary() returns (b: bool) {
      b := *;
    }

    method ArbitraryPart(s: set<nat>) returns (part: set<nat>)
      ensures part <= s
    {
      part := *;
      part := part * s;
    }

    method Select(name: string) returns (ok: bool)
      modifies this`selected, this`sent
      ensures ok ==> selected == Some(name) && name in folders
      ensures sent == old(sent) + [SelectFolder(name)]
    {
      sent := sent + [SelectFolder(name)];
      ok := Arbitrary();
      ok := ok && name in folders;
      selected := if ok then Some(name) else None;
    }

    /** COPY is all or nothing (section 6.4.7 of RFC 3501), but its answer may be lost. */
    method UidCopy(uids: seq<nat>, to: string) returns (ok: bool)
      requires selected.Some? && selected.value in folders
      modifies this`folders, this`sent
      ensures sent == old(sent) + [Copy(uids, to)]
      ensures folders == old(folders) || (to in old(folders) && folders == CopyTo(old(folders), selected.value, uids, to))
      ensures ok ==> to in old(folders) && folders == CopyTo(old(folders), selected.value, uids, to)
    {
      sent := sent + [Copy(uids, to)];
      var done := Arbitrary();
      var answered := Arbitrary();
      ok := done && answered && to in folders;
      if done && to in folders {
        folders := CopyTo(folders, selected.value, uids, to);
      }
    }

    /** Errors in the STORE responses are drained unread: ok promises nothing. */
    method UidStoreDeleted(uids: seq<nat>) returns (ok: bool, ghost hit: set<nat>)
      requires selected.Some? && selected.value in folders
      modifies this`folders, this`sent
      ensures sent == old(sent) + [StoreDeleted(uids)]
      ensures hit <= UidSet(uids) && folders == Flag(old(folders), selected.value, hit)
    {
      sent := sent + [StoreDeleted(uids)];
      var part := ArbitraryPart(UidSet(uids));
      folders := Flag(folders, selected.value, part);
      ok := Arbitrary();
      hit := part;
    }

    /** UID EXPUNGE when the server has UIDPLUS, else a bare EXPUNGE, which warns once.
        Its responses are drained unread too. */
    method ExpungeUids(uids: seq<nat>) returns (ok: bool, ghost gone: set<nat>)
      requires selected.Some? && selected.value in folders
      modifies this`folders, this`warnedBareExpunge, this`sent
      ensures Follows([ExpungeCommand(uids, uidplus)], ok)
      ensures gone <= Expungeable(old(folders), selected.value, UidSet(uids), uidplus)
      ensures folders == Remove(old(folders), selected.value, gone)
      ensures uidplus ==> warnedBareExpunge == old(warnedBareExpunge)
      ensures !uidplus && ok ==> warnedBareExpunge
    {
      var known := Arbitrary();
      var part := ArbitraryPart(Expungeable(folders, selected.value, UidSet(uids), uidplus));
      if !known {
        part := {};
      } else {
        warnedBareExpunge := warnedBareExpunge || !uidplus;
        sent := sent + [ExpungeCommand(uids, uidplus)];
      }
      folders := Remove(folders, selected.value, part);
      ok := Arbitrary();
      ok, gone := ok && known, part;
    }

    /** What a command owes a bulk move or copy it is part of. */
    twostate predicate Keeps(job: Job, uids: seq<nat>, room: nat, ok: bool)
      reads this
    {
      old(Ready(job, room + |uids|)) && UidSet(uids) <= job.targets ==>
        && Ready(job, room)
        && (forall u :: old(Delivered(job, folders, u)) ==> Delivered(job, folders, u))
        && (ok ==> forall u :: u in uids ==> Delivered(job, folders, u))
    }

    /** COPY, then STORE, then EXPUNGE; any failure stops the command. */
    method MoveMessages(uids: seq<nat>, from: string, to: string, ghost job: Job, ghost room: nat) returns (ok: bool)
      requires job.from == from && job.to == to
      modifies this
      ensures Keeps(job, uids, room, ok)
      ensures (folders == old(folders) && !ok)
        || (from in old(folders) && to in old(folders)
            && exists hit, gone :: MayEnd(old(folders), from, uids, to, uidplus, hit, gone, folders))
      ensures Follows([SelectFolder(from), Copy(uids, to), StoreDeleted(uids), ExpungeCommand(uids, uidplus)], ok)
      ensures if ValidInput(from) && ValidInput(to) then sent != old(sent) else sent == old(sent) && !ok
    {
      if !ValidInput(from) || !ValidInput(to) {
        return false;
      }
      ok := Select(from);
      if ok {
        ghost var hit, gone, mine, now := {}, {}, Ready(job, room + |uids|) && UidSet(uids) <= job.targets, folders;
        ok, hit, gone := CopyFlagExpunge(uids, to);
        if mine && (ok || folders != now) {
          MoveConserves(job, now, uids, hit, gone, folders);
        }
      }
    }

    /** The three commands of a move, once the source is selected. */
    method CopyFlagExpunge(uids: seq<nat>, to: string) returns (ok: bool, ghost hit: set<nat>, ghost gone: set<nat>)
      requires selected.Some? && selected.value in folders
      modifies this
      ensures (folders == old(folders) && !ok)
        || (to in old(folders) && MayEnd(old(folders), old(selected).value, uids, to, uidplus, hit, gone, folders))
      ensures Follows([Copy(uids, to), StoreDeleted(uids), ExpungeCommand(uids, uidplus)], ok)
    {
      hit, gone := {}, {};
      ghost var before, from := folders, selected.value;
      ok := UidCopy(uids, to);
      if folders != before {
        NothingFlagged(before, from, uids, to, uidplus);
      }
      if ok {
        ok, hit := UidStoreDeleted(uids);
        NothingGone(before, from, uids, to, uidplus, hit);
        if ok {
          ok, gone := ExpungeUids(uids);
        }
      }
    }

    method CopyMessages(uids: seq<nat>, from: string, to: string, ghost job: Job, ghost room: nat) returns (ok: bool)
      requires job.from == from && job.to == to
      modifies this
      ensures Keeps(job, uids, room, ok)
      ensures from !in old(folders) || to !in old(folders) ==> folders == old(folders) && !ok
      ensures from in folders && from in old(folders) && from != to ==> folders[from] == old(folders)[from]
      ensures Follows([SelectFolder(from), Copy(uids, to)], ok)
      ensures if ValidInput(from) && ValidInput(to) then sent != old(sent) else sent == old(sent) && !ok
    {
      if !ValidInput(from) || !ValidInput(to) {
        return false;
      }
      ok := Select(from);
      if !ok {
        return;
      }
      if Ready(job, room + |uids|) && UidSet(uids) <= job.targets {
        CopyConserves(job, folders, uids);
      }
      ok := UidCopy(uids, to);
    }

    method DeleteMessages(uids: seq<nat>, folder: string, ghost start: Folders, ghost targets: set<nat>) returns (ok: bool)
      modifies this
      ensures old(OnlyTargetsLeft(start, folders, folder, targets, uidplus)) && UidSet(uids) <= targets ==>
        OnlyTargetsLeft(start, folders, folder, targets, uidplus)
      ensures folder !in old(folders) ==> folders == old(folders) && !ok
      ensures Follows([SelectFolder(folder), StoreDeleted(uids), ExpungeCommand(uids, uidplus)], ok)
      ensures if ValidInput(folder) then sent != old(sent) else sent == old(sent) && !ok
    {
      if !ValidInput(folder) {
        return false;
      }
      ok := Select(folder);
      if !ok {
        return;
      }
      ghost var hit, gone;
      ok, hit := UidStoreDeleted(uids);
      if !ok {
        return;
      }
      ok, gone := ExpungeUids(uids);
    }

    /** One operation on one sequence-set. */
    method Apply(op: Op, uids: seq<nat>, folder: string, ghost job: Job, ghost room: nat)
      returns (ok: bool, ghost log: seq<Command>)
      requires job.from == folder && (op.MoveTo? || op.CopyInto? ==> job.to == op.to)
      modifies this
      ensures op.MoveTo? || op.CopyInto? ==> Keeps(job, uids, room, ok)
      ensures op.MoveTo? || op.CopyInto? ==>
        (folder !in old(folders) || op.to !in old(folders) ==> folders == old(folders) && !ok)
      ensures op.MoveTo? && folder in old(folders) && op.to in old(folders) ==>
        folders.Keys == old(folders).Keys && OneMove(old(folders), folder, uids, op.to, uidplus, folders)
      ensures op.CopyInto? && op.to != folder && folder in old(folders) && folder in folders ==>
        folders[folder] == old(folders)[folder]
      ensures op.Delete? && UidSet(uids) <= job.targets ==>
        old(OnlyTargetsLeft(job.start, folders, folder, job.targets, uidplus)) ==>
        OnlyTargetsLeft(job.start, folders, folder, job.targets, uidplus)
      ensures Tried(Request(op, folder, uidplus), uids, ok, log) && sent == old(sent) + log
    {
      match op {
        case MoveTo(to) => ok := MoveMessages(uids, folder, to, job, room);
        case CopyInto(to) => ok := CopyMessages(uids, folder, to, job, room);
        case Delete => ok := DeleteMessages(uids, folder, job.start, job.targets);
      }
      log := sent[|old(sent)|..];
    }

    /** What holds between the steps of a bulk call. */
    ghost predicate Running(op: Op, job: Job, room: nat, succeeded: seq<nat>)
      reads this
    {
      && (op.MoveTo? || op.CopyInto? ==>
           && (job.from !in job.start || op.to !in job.start ==> folders == job.start && succeeded == [])
           && (job.Valid() && job.TargetsClear() ==>
                Ready(job, room) && forall u :: u in succeeded ==> Delivered(job, folders, u)))
      && (op.Delete? ==> OnlyTargetsLeft(job.start, folders, job.from, job.targets, uidplus))
    }

    /** A chunk at once; if that fails, its UIDs one at a time. */
    method ApplyChunk(op: Op, chunk: seq<nat>, folder: string, succeeded0: seq<nat>, failed0: seq<nat>, ghost job: Job,
                      ghost room: nat)
      returns (succeeded: seq<nat>, failed: seq<nat>)
      requires job.from == folder && (op.MoveTo? || op.CopyInto? ==> job.to == op.to)
      requires job.uidplus == uidplus && UidSet(chunk) <= job.targets
      requires Running(op, job, room + 2 * |chunk|, succeeded0)
      modifies this
      ensures Runs(Request(op, folder, uidplus), Chunk(chunk), Report(old(sent), succeeded0, failed0), Report(sent, succeeded, failed))
      ensures Running(op, job, room, succeeded)
      ensures multiset(succeeded) + multiset(failed) == Reported(succeeded0, failed0, chunk)
      ensures op.MoveTo? && folder in old(folders) && op.to in old(folders) ==>
        folders.Keys == old(folders).Keys && ChunkMayEnd(old(folders), folder, chunk, op.to, uidplus, folders)
    {
      ghost var before, log := Report(sent, succeeded0, failed0), [];
      var ok;
      ok, log := Apply(op, chunk, folder, job, room + |chunk|);
      WholeRuns(Request(op, folder, uidplus), chunk, ok, log, before,
                Report(sent, succeeded0 + if ok then chunk else [], failed0));
      if ok {
        succeeded, failed := succeeded0 + chunk, failed0;
      } else {
        ghost var mid := Report(sent, succeeded0, failed0);
        succeeded, failed := ApplySingly(op, chunk, folder, succeeded0, failed0, job, room);
        ChunkRuns(Request(op, folder, uidplus), chunk, before, mid, Report(sent, succeeded, failed));
      }
    }

    ghost predicate MovedSingly(op: Op, folder: string, uids: seq<nat>, start: Folders)
      reads this
    {
      op.MoveTo? && folder in start && op.to in start ==>
        folders.Keys == start.Keys && SinglesMayEnd(start, folder, uids, op.to, uidplus, folders)
    }

    /** What holds after the first i UIDs of a chunk, alone; reported is what it all adds up to. */
    ghost predicate SingledTo(op: Op, chunk: seq<nat>, i: nat, job: Job, room: nat, start: Folders, before: Report,
                              reported: multiset<nat>, succeeded: seq<nat>, failed: seq<nat>)
      reads this
    {
      && i <= |chunk|
      && (op.MoveTo? || op.CopyInto? ==> job.to == op.to)
      && UidSet(chunk) <= job.targets
      && Running(op, job, room + (|chunk| - i), succeeded)
      && MovedSingly(op, job.from, chunk[..i], start)
      && Reported(succeeded, failed, chunk[i..]) == reported
      && Runs(Request(op, job.from, uidplus), Singles(chunk[..i]), before, Report(sent, succeeded, failed))
    }

    /** One UID alone. */
    method ApplyOne(op: Op, chunk: seq<nat>, i: nat, folder: string, succeeded0: seq<nat>, failed0: seq<nat>, ghost job: Job,
                    ghost room: nat, ghost start: Folders, ghost before: Report, ghost reported: multiset<nat>)
      returns (succeeded: seq<nat>, failed: seq<nat>)
      requires i < |chunk| && job.from == folder && job.uidplus == uidplus
      requires SingledTo(op, chunk, i, job, room, start, before, reported, succeeded0, failed0)
      modifies this
      ensures SingledTo(op, chunk, i + 1, job, room, start, before, reported, succeeded, failed)
    {
      succeeded, failed := succeeded0, failed0;
      ReportNext(succeeded, failed, chunk, i);
      var ok;
      ghost var mid, here, log := folders, Report(sent, succeeded, failed), [];
      ok, log := Apply(op, [chunk[i]], folder, job, room + (|chunk| - i - 1));
      if ok {
        succeeded := succeeded + [chunk[i]];
      } else {
        failed := failed + [chunk[i]];
      }
      SinglesRunNext(Request(op, folder, uidplus), chunk, i, ok, log, before, here, Report(sent, succeeded, failed));
      if op.MoveTo? && folder in start && op.to in start {
        SinglesNext(start, folder, chunk, i, op.to, uidplus, mid, folders);
      }
    }

    /** The UIDs of a chunk that failed, one at a time. */
    method ApplySingly(op: Op, chunk: seq<nat>, folder: string, succeeded0: seq<nat>, failed0: seq<nat>, ghost job: Job,
                       ghost room: nat)
      returns (succeeded: seq<nat>, failed: seq<nat>)
      requires job.from == folder && (op.MoveTo? || op.CopyInto? ==> job.to == op.to)
      requires job.uidplus == uidplus && UidSet(chunk) <= job.targets
      requires Running(op, job, room + |chunk|, succeeded0)
      modifies this
      ensures Runs(Request(op, folder, uidplus), Singles(chunk), Report(old(sent), succeeded0, failed0), Report(sent, succeeded, failed))
      ensures Running(op, job, room, succeeded)
      ensures multiset(succeeded) + multiset(failed) == Reported(succeeded0, failed0, chunk)
      ensures MovedSingly(op, folder, chunk, old(folders))
    {
      succeeded, failed := succeeded0, failed0;
      ghost var start, before, reported := folders, Report(sent, succeeded, failed), Reported(succeeded, failed, chunk);
      for i := 0 to |chunk|
        invariant SingledTo(op, chunk, i, job, room, start, before, reported, succeeded, failed)
      {
        succeeded, failed := ApplyOne(op, chunk, i, folder, succeeded, failed, job, room, start, before, reported);
      }
      assert chunk[..|chunk|] == chunk;
    }

    ghost predicate MovedInChunks(op: Op, folder: string, chunks: seq<seq<nat>>, start: Folders)
      reads this
    {
      op.MoveTo? && folder in start && op.to in start ==>
        folders.Keys == start.Keys && CallMayEnd(start, folder, chunks, op.to, uidplus, folders)
    }

    /** What holds after the first i chunks. */
    ghost predicate CalledTo(op: Op, chunks: seq<seq<nat>>, i: nat, job: Job, start: Folders, before: Report,
                             succeeded: seq<nat>, failed: seq<nat>)
      reads this
    {
      && i <= |chunks|
      && (op.MoveTo? || op.CopyInto? ==> job.to == op.to)
      && Running(op, job, 2 * |Concat(chunks[i..])|, succeeded)
      && MovedInChunks(op, job.from, chunks[..i], start)
      && Reported(succeeded, failed, Concat(chunks[i..])) == multiset(Concat(chunks))
      && UidSet(Concat(chunks[i..])) <= job.targets
      && Runs(Request(op, job.from, uidplus), Call(chunks[..i]), before, Report(sent, succeeded, failed))
    }

    /** One chunk of the loop. */
    method ApplyNth(op: Op, chunks: seq<seq<nat>>, i: nat, succeeded0: seq<nat>, failed0: seq<nat>, ghost job: Job,
                    folder: string, ghost start: Folders, ghost before: Report)
      returns (succeeded: seq<nat>, failed: seq<nat>)
      requires i < |chunks| && job.from == folder && job.uidplus == uidplus
      requires CalledTo(op, chunks, i, job, start, before, succeeded0, failed0)
      modifies this
      ensures CalledTo(op, chunks, i + 1, job, start, before, succeeded, failed)
    {
      ChunksNext(chunks, i);
      ghost var mid, here := folders, Report(sent, succeeded0, failed0);
      succeeded, failed := ApplyChunk(op, chunks[i], folder, succeeded0, failed0, job, 2 * |Concat(chunks[i + 1..])|);
      CallRunNext(Request(op, folder, uidplus), chunks, i, before, here, Report(sent, succeeded, failed));
      ReportedNext(succeeded0, failed0, succeeded, failed, chunks, i);
      if op.MoveTo? && folder in start && op.to in start {
        CallNext(start, folder, chunks, i, op.to, uidplus, mid, folders);
      }
    }

    /** The loop over the chunks. */
    method ApplyAll(op: Op, resolved: seq<nat>, folder: string, ghost job: Job) returns (succeeded: seq<nat>, failed: seq<nat>)
      requires job.from == folder && (op.MoveTo? || op.CopyInto? ==> job.to == op.to)
      requires job.uidplus == uidplus && UidSet(resolved) == job.targets
      requires Running(op, job, 2 * |resolved|, [])
      modifies this
      ensures Running(op, job, 0, succeeded)
      ensures multiset(succeeded) + multiset(failed) == multiset(resolved)
      ensures MovedInChunks(op, folder, Chunks(resolved), old(folders))
      ensures Runs(Request(op, folder, uidplus), Call(Chunks(resolved)), Report(old(sent), [], []), Report(sent, succeeded, failed))
    {
      succeeded, failed := [], [];
      var chunks := Chunks(resolved);
      ghost var start, before := folders, Report(sent, [], []);
      for i := 0 to |chunks|
        invariant CalledTo(op, chunks, i, job, start, before, succeeded, failed)
      {
        succeeded, failed := ApplyNth(op, chunks, i, succeeded, failed, job, folder, start, before);
      }
      assert chunks[..|chunks|] == chunks;
    }

    /** The whole call. */
    method Execute(uids: seq<nat>, op: Op, folder: string, dryRun: bool) returns (r: Result<BulkResult, BulkError>)
      modifies this
      // refused calls and dry runs change nothing and send nothing
      ensures r.Err? || dryRun ==> folders == old(folders) && sent == old(sent)
      ensures r == Err(NoTargets) <==> uids == []
      ensures r.Err? && r.error.LimitExceeded? <==> |UidSet(uids)| > 500
      ensures r.Err? && r.error.LimitExceeded? ==> r.error == LimitExceeded(|UidSet(uids)|, 500)
      ensures r.Ok? ==> r.value.resolved == SortNats(uids) && r.value.dryRun == dryRun
      ensures r.Ok? ==> Increasing(r.value.resolved) && UidSet(r.value.resolved) == UidSet(uids)
      ensures r.Ok? && dryRun ==> r.value.succeeded == [] && r.value.failed == []
      // every UID is reported once
      ensures r.Ok? && !dryRun ==>
        multiset(r.value.succeeded) + multiset(r.value.failed) == multiset(r.value.resolved)
      // nothing is lost, and what is reported succeeded has its copy
      ensures r.Ok? && (op.MoveTo? || op.CopyInto?) ==>
        var job := Job(old(folders), folder, op.to, UidSet(uids), uidplus);
        && (folder !in old(folders) || op.to !in old(folders) ==> folders == old(folders) && r.value.succeeded == [])
        && (job.Valid() && job.TargetsClear() ==>
             Conserves(job, folders) && forall u :: u in r.value.succeeded ==> Delivered(job, folders, u))
      // a move ends as its chunks, their retries and failures may leave the folders
      ensures r.Ok? && !dryRun ==> MovedInChunks(op, folder, Chunks(SortNats(uids)), old(folders))
      ensures r.Ok? && op.Delete? ==> OnlyTargetsLeft(old(folders), folders, folder, UidSet(uids), uidplus)
      // each chunk is tried at once, then, if that failed, one UID at a time
      ensures r.Ok? && !dryRun ==>
        Runs(Request(op, folder, uidplus), Call(Chunks(SortNats(uids))), Report(old(sent), [], []),
             Report(sent, r.value.succeeded, r.value.failed))
      ensures old(sent) <= sent
      // a UID succeeds only if the commands of a try that names it went out together
      ensures r.Ok? && op.MoveTo? ==> forall u :: u in r.value.succeeded ==> exists l ::
        && u in l
        && Together(sent[|old(sent)|..],
                    [SelectFolder(folder), Copy(l, op.to), StoreDeleted(l), if uidplus then UidExpunge(l) else BareExpunge])
      ensures r.Ok? && op.CopyInto? ==> forall u :: u in r.value.succeeded ==> exists l ::
        && u in l
        && Together(sent[|old(sent)|..], [SelectFolder(folder), Copy(l, op.to)])
      ensures r.Ok? && op.Delete? ==> forall u :: u in r.value.succeeded ==> exists l ::
        && u in l
        && Together(sent[|old(sent)|..], [SelectFolder(folder), StoreDeleted(l), if uidplus then UidExpunge(l) else BareExpunge])
      // and with valid names the folder is selected for each UID that fails
      ensures r.Ok? && ValidInput(folder) && (op.Delete? || ValidInput(op.to)) ==>
        multiset(sent[|old(sent)|..])[SelectFolder(folder)] >= |r.value.failed|
    {
      var resolved := SortNats(uids);
      assert uids != [] ==> uids[0] in resolved;
      if resolved == [] {
        return Err(NoTargets);
      }
      assert resolved[0] in uids;
      IncreasingCount(resolved, UidSet(uids));
      if |resolved| > BULK_UID_LIMIT {
        return Err(LimitExceeded(|resolved|, BULK_UID_LIMIT));
      }
      if dryRun {
        return Ok(BulkResult(resolved, [], [], true));
      }
      ghost var to := if op.Delete? then folder else op.to;
      ghost var job := Job(folders, folder, to, UidSet(uids), uidplus);
      assert UidSet(resolved) == UidSet(uids);
      IncreasingSize(resolved, UidSet(uids));
      var succeeded, failed := ApplyAll(op, resolved, folder, job);
      r := Ok(BulkResult(resolved, succeeded, failed, false));
      ReportBacked(Request(op, folder, uidplus), Chunks(resolved), old(sent), Report(sent, succeeded, failed));
    }
  }
}
