/** Crash-safe restore: a line Pending before each APPEND, a line Done after it, a loader
    that takes an unanswered Pending for done, and a planner that skips what is loaded. */
module RestoreJournal {
  import opened Wrappers

  /** What a journal line identifies: the fields that count for equality. */
  datatype Key = Key(folder: string, uidvalidity: nat, uid: nat, sha256: string)

  datatype Status = Pending | Done

  datatype Line = Entry(key: Key, status: Status) | Blank | Malformed(content: string)

  datatype Warning = MalformedLine(number: nat, content: string) | PendingWithoutDone(key: Key)

  predicate Has(journal: seq<Line>, key: Key, status: Status) {
    Entry(key, status) in journal
  }

  predicate Journaled(journal: seq<Line>, key: Key) {
    Has(journal, key, Pending) || Has(journal, key, Done)
  }

  /** Written before an APPEND whose outcome was never written. */
  predicate InDoubt(journal: seq<Line>, key: Key) {
    Has(journal, key, Pending) && !Has(journal, key, Done)
  }

  method LoadRestoreState(journal: seq<Line>) returns (records: set<Key>, warnings: seq<Warning>)
    ensures forall k :: k in records <==> Journaled(journal, k)
    ensures forall k :: PendingWithoutDone(k) in warnings <==> InDoubt(journal, k)
    ensures forall n: nat, c :: MalformedLine(n, c) in warnings <==> 0 < n <= |journal| && journal[n - 1] == Malformed(c)
    ensures forall i, j :: 0 <= i < j < |warnings| ==> warnings[i] != warnings[j]
  {
    var done: set<Key>, pending: set<Key> := {}, {};
    warnings := [];
    for i := 0 to |journal|
      invariant forall k :: k in done <==> Has(journal[..i], k, Done)
      invariant forall k :: k in pending <==> Has(journal[..i], k, Pending)
      invariant forall w :: w in warnings <==>
        w.MalformedLine? && 0 < w.number <= i && journal[w.number - 1] == Malformed(w.content)
      invariant forall j, k :: 0 <= j < k < |warnings| ==> warnings[j] != warnings[k]
    {
      assert journal[..i + 1] == journal[..i] + [journal[i]];
      match journal[i] {
        case Entry(key, Pending) => pending := pending + {key};
        case Entry(key, Done) => done := done + {key};
        case Blank =>
        case Malformed(content) => warnings := warnings + [MalformedLine(i + 1, content)];
      }
    }
    assert journal[..|journal|] == journal;
    records := done;
    ghost var malformed := warnings;
    var rest := pending;
    while rest != {}
      invariant rest <= pending
      invariant forall k :: k in records <==> k in done || (k in pending && k !in rest)
      invariant forall n: nat, c :: MalformedLine(n, c) in warnings <==> MalformedLine(n, c) in malformed
      invariant forall k :: PendingWithoutDone(k) in warnings <==> k in pending && k !in done && k !in rest
      invariant forall i, j :: 0 <= i < j < |warnings| ==> warnings[i] != warnings[j]
    {
      var k :| k in rest;
      rest := rest - {k};
      if k !in records {
        warnings := warnings + [PendingWithoutDone(k)];
        records := records + {k};
      }
    }
  }

  // ---- the plan ------------------------------------------------------------

  datatype Message = Message(key: Key, messageId: Option<string>)

  datatype Mapping = Mapping(source: string, destination: string)

  datatype PlannedAppend = PlannedAppend(message: Message, destination: string)

  datatype Plan = Plan(appends: seq<PlannedAppend>, destinations: seq<string>, excluded: nat, already: nat)

  /** The first mapping of a folder wins; an unmapped folder keeps its name. */
  function ApplyFolderMapping(source: string, mappings: seq<Mapping>): string {
    if mappings == [] then source
    else if mappings[0].source == source then mappings[0].destination
    else ApplyFolderMapping(source, mappings[1..])
  }

  ghost predicate FirstFor(mappings: seq<Mapping>, folder: string, i: int) {
    && 0 <= i < |mappings| && mappings[i].source == folder
    && (forall j :: 0 <= j < i ==> mappings[j].source != folder)
  }

  /** The destination of the first mapping for the folder, or the folder if there is none. */
  ghost predicate GoesTo(mappings: seq<Mapping>, folder: string, destination: string) {
    && (forall i :: FirstFor(mappings, folder, i) ==> destination == mappings[i].destination)
    && ((forall i :: 0 <= i < |mappings| ==> mappings[i].source != folder) ==> destination == folder)
  }

  lemma {:induction false} FirstMappingWins(mappings: seq<Mapping>, folder: string, destination: string)
    ensures GoesTo(mappings, folder, destination) <==> destination == ApplyFolderMapping(folder, mappings)
  {
    if mappings == [] {
    } else if mappings[0].source == folder {
      assert FirstFor(mappings, folder, 0);
    } else {
      FirstMappingWins(mappings[1..], folder, destination);
      GoesToTail(mappings, folder, destination);
    }
  }

  lemma FirstForTail(mappings: seq<Mapping>, folder: string, i: int)
    requires mappings != [] && mappings[0].source != folder
    ensures FirstFor(mappings, folder, i) <==> FirstFor(mappings[1..], folder, i - 1)
  {
    if FirstFor(mappings[1..], folder, i - 1) {
      forall j | 0 <= j < i ensures mappings[j].source != folder {
        assert j > 0 ==> mappings[j] == mappings[1..][j - 1];
      }
    }
  }

  lemma GoesToTail(mappings: seq<Mapping>, folder: string, destination: string)
    requires mappings != [] && mappings[0].source != folder
    ensures GoesTo(mappings, folder, destination) <==> GoesTo(mappings[1..], folder, destination)
  {
    forall i ensures FirstFor(mappings, folder, i) <==> FirstFor(mappings[1..], folder, i - 1) {
      FirstForTail(mappings, folder, i);
    }
    if GoesTo(mappings, folder, destination) {
      forall i | FirstFor(mappings[1..], folder, i) ensures destination == mappings[1..][i].destination {
        assert FirstFor(mappings, folder, i + 1);
      }
    }
    assert forall i :: 0 < i < |mappings| ==> mappings[i] == mappings[1..][i - 1];
    assert forall i :: 0 <= i < |mappings| - 1 ==> mappings[1..][i] == mappings[i + 1];
  }

  /** The appends due, in manifest order. */
  function Due(messages: seq<Message>, state: set<Key>, mappings: seq<Mapping>, selected: string -> bool): seq<PlannedAppend> {
    if messages == [] then []
    else
      var n, m := |messages| - 1, messages[|messages| - 1];
      var due := Due(messages[..n], state, mappings, selected);
      if selected(m.key.folder) && m.key !in state
      then due + [PlannedAppend(m, ApplyFolderMapping(m.key.folder, mappings))]
      else due
  }

  predicate Planned(m: Message, state: set<Key>, selected: string -> bool) {
    selected(m.key.folder) && m.key !in state
  }

  /** The appends are those of the messages at these positions, each to where its folder goes,
      and the positions are all those of selected messages not yet journaled. */
  ghost predicate PlannedAt(appends: seq<PlannedAppend>, at: seq<nat>, messages: seq<Message>, state: set<Key>,
                            mappings: seq<Mapping>, selected: string -> bool)
  {
    && |appends| == |at|
    && (forall j, k :: 0 <= j < k < |at| ==> at[j] < at[k])
    && (forall k :: 0 <= k < |at| ==>
         && at[k] < |messages| && appends[k].message == messages[at[k]]
         && GoesTo(mappings, messages[at[k]].key.folder, appends[k].destination))
    && (forall i :: 0 <= i < |messages| ==> (i in at <==> selected(messages[i].key.folder) && messages[i].key !in state))
  }

  /** Every destination once, in the order in which the appends first name them. */
  ghost predicate FirstNamed(destinations: seq<string>, appends: seq<PlannedAppend>) {
    && (forall d :: d in destinations <==> exists a :: a in appends && a.destination == d)
    && (forall i, j :: 0 <= i < j < |destinations| ==> NamedBefore(appends, destinations[i], destinations[j]))
  }

  /** Some append names d before any names e. */
  ghost predicate NamedBefore(appends: seq<PlannedAppend>, d: string, e: string) {
    exists k :: 0 <= k < |appends| && appends[k].destination == d && forall l :: 0 <= l <= k ==> appends[l].destination != e
  }

  lemma NamedStays(appends: seq<PlannedAppend>, a: PlannedAppend, d: string, e: string)
    requires NamedBefore(appends, d, e)
    ensures NamedBefore(appends + [a], d, e)
  {
    var k :| 0 <= k < |appends| && appends[k].destination == d && forall l :: 0 <= l <= k ==> appends[l].destination != e;
    assert (appends + [a])[k] == appends[k];
  }

  lemma NamedLast(appends: seq<PlannedAppend>, a: PlannedAppend, d: string)
    requires exists b :: b in appends && b.destination == d
    requires forall b :: b in appends ==> b.destination != a.destination
    ensures NamedBefore(appends + [a], d, a.destination)
  {
    var b :| b in appends && b.destination == d;
    var k :| 0 <= k < |appends| && appends[k] == b;
    assert (appends + [a])[k] == b;
    assert forall l :: 0 <= l <= k ==> (appends + [a])[l] in appends;
  }

  lemma DestinationAdded(destinations: seq<string>, appends: seq<PlannedAppend>, a: PlannedAppend)
    requires FirstNamed(destinations, appends)
    ensures FirstNamed(if a.destination in destinations then destinations else destinations + [a.destination], appends + [a])
  {
    var longer := if a.destination in destinations then destinations else destinations + [a.destination];
    assert forall b :: b in appends + [a] <==> b in appends || b == a;
    forall i, j | 0 <= i < j < |longer| ensures NamedBefore(appends + [a], longer[i], longer[j]) {
      if j < |destinations| {
        NamedStays(appends, a, destinations[i], destinations[j]);
      } else {
        assert destinations[i] in destinations;
        NamedLast(appends, a, destinations[i]);
      }
    }
  }

  lemma PositionAdded(appends: seq<PlannedAppend>, at: seq<nat>, messages: seq<Message>, i: nat, state: set<Key>,
                      mappings: seq<Mapping>, selected: string -> bool)
    requires i < |messages| && PlannedAt(appends, at, messages[..i], state, mappings, selected)
    ensures var m := messages[i];
      if Planned(m, state, selected)
      then PlannedAt(appends + [PlannedAppend(m, ApplyFolderMapping(m.key.folder, mappings))], at + [i], messages[..i + 1],
                     state, mappings, selected)
      else PlannedAt(appends, at, messages[..i + 1], state, mappings, selected)
  {
    var m, longer := messages[i], messages[..i + 1];
    FirstMappingWins(mappings, m.key.folder, ApplyFolderMapping(m.key.folder, mappings));
    assert longer[i] == m && forall k :: 0 <= k < i ==> longer[k] == messages[..i][k];
    if Planned(m, state, selected) {
      forall k | 0 <= k < |longer| ensures k in at + [i] <==> selected(longer[k].key.folder) && longer[k].key !in state {
        assert k < i ==> (k in at + [i] <==> k in at);
      }
    } else {
      assert i !in at;
    }
  }

  function Unselected(messages: seq<Message>, selected: string -> bool): set<nat> {
    set i: nat | i < |messages| && !selected(messages[i].key.folder)
  }

  function AlreadyThere(messages: seq<Message>, state: set<Key>, selected: string -> bool): set<nat> {
    set i: nat | i < |messages| && selected(messages[i].key.folder) && messages[i].key in state
  }

  lemma CountsNext(messages: seq<Message>, i: nat, state: set<Key>, selected: string -> bool)
    requires i < |messages|
    ensures |Unselected(messages[..i + 1], selected)| ==
      |Unselected(messages[..i], selected)| + if selected(messages[i].key.folder) then 0 else 1
    ensures |AlreadyThere(messages[..i + 1], state, selected)| ==
      |AlreadyThere(messages[..i], state, selected)| + if selected(messages[i].key.folder) && messages[i].key in state then 1 else 0
  {
    assert Unselected(messages[..i + 1], selected) ==
      Unselected(messages[..i], selected) + if selected(messages[i].key.folder) then {} else {i};
    assert AlreadyThere(messages[..i + 1], state, selected) ==
      AlreadyThere(messages[..i], state, selected) + if selected(messages[i].key.folder) && messages[i].key in state then {i} else {};
  }

  method PlanRestore(messages: seq<Message>, state: set<Key>, mappings: seq<Mapping>, selected: string -> bool)
    returns (plan: Plan)
    ensures plan.appends == Due(messages, state, mappings, selected)
    ensures exists at :: PlannedAt(plan.appends, at, messages, state, mappings, selected)
    ensures plan.excluded == |set i: nat | i < |messages| && !selected(messages[i].key.folder)|
    ensures plan.already == |set i: nat | i < |messages| && selected(messages[i].key.folder) && messages[i].key in state|
    ensures FirstNamed(plan.destinations, plan.appends)
    ensures forall i, j :: 0 <= i < j < |plan.destinations| ==> plan.destinations[i] != plan.destinations[j]
  {
    plan := Plan([], [], 0, 0);
    ghost var at: seq<nat> := [];
    for i := 0 to |messages|
      invariant plan.appends == Due(messages[..i], state, mappings, selected)
      invariant PlannedAt(plan.appends, at, messages[..i], state, mappings, selected)
      invariant plan.excluded == |Unselected(messages[..i], selected)|
      invariant plan.already == |AlreadyThere(messages[..i], state, selected)|
      invariant FirstNamed(plan.destinations, plan.appends)
    {
      var m := messages[i];
      assert messages[..i + 1][..i] == messages[..i];
      PositionAdded(plan.appends, at, messages, i, state, mappings, selected);
      CountsNext(messages, i, state, selected);
      if !selected(m.key.folder) {
        plan := plan.(excluded := plan.excluded + 1);
      } else if m.key in state {
        plan := plan.(already := plan.already + 1);
      } else {
        var a := PlannedAppend(m, ApplyFolderMapping(m.key.folder, mappings));
        DestinationAdded(plan.destinations, plan.appends, a);
        if a.destination !in plan.destinations {
          plan := plan.(destinations := plan.destinations + [a.destination]);
        }
        plan := plan.(appends := plan.appends + [a]);
        at := at + [i];
      }
    }
    assert messages[..|messages|] == messages;
  }

  /** What the manifest validator guarantees: no identity twice. */
  ghost predicate DistinctKeys(messages: seq<Message>) {
    forall i, j :: 0 <= i < j < |messages| ==> messages[i].key != messages[j].key
  }

  ghost predicate IsDue(a: PlannedAppend, messages: seq<Message>, state: set<Key>, mappings: seq<Mapping>, selected: string -> bool) {
    && a.message in messages
    && selected(a.message.key.folder)
    && a.message.key !in state
    && GoesTo(mappings, a.message.key.folder, a.destination)
  }

  /** The plan holds exactly the selected messages not yet journaled. */
  lemma {:induction false} DueExact(messages: seq<Message>, state: set<Key>, mappings: seq<Mapping>,
                                    selected: string -> bool, a: PlannedAppend)
    ensures a in Due(messages, state, mappings, selected) <==> IsDue(a, messages, state, mappings, selected)
  {
    if messages == [] {
    } else {
      var n := |messages| - 1;
      DueExact(messages[..n], state, mappings, selected, a);
      FirstMappingWins(mappings, a.message.key.folder, a.destination);
      assert messages == messages[..n] + [messages[n]];
    }
  }

  /** And each of them once. */
  lemma {:induction false} DueDistinct(messages: seq<Message>, state: set<Key>, mappings: seq<Mapping>, selected: string -> bool)
    requires DistinctKeys(messages)
    ensures forall i, j :: 0 <= i < j < |Due(messages, state, mappings, selected)| ==>
      Due(messages, state, mappings, selected)[i].message.key != Due(messages, state, mappings, selected)[j].message.key
  {
    if messages == [] {
    } else {
      var n := |messages| - 1;
      var due := Due(messages[..n], state, mappings, selected);
      DueDistinct(messages[..n], state, mappings, selected);
      forall i | 0 <= i < |due| ensures due[i].message.key != messages[n].key {
        DueExact(messages[..n], state, mappings, selected, due[i]);
        var k :| 0 <= k < n && messages[..n][k] == due[i].message;
        assert messages[k] == due[i].message;
      }
    }
  }

  // ---- runs and crashes ----------------------------------------------------

  /** Where a run stands with the message it is on. */
  datatype Phase =
    | Idle
    | Between(todo: seq<PlannedAppend>)
    | Intended(now: PlannedAppend, todo: seq<PlannedAppend>)
    | Restored(now: PlannedAppend, todo: seq<PlannedAppend>)

  /** The sidecar, what the destination was sent, and the current run. */
  datatype World = World(journal: seq<Line>, appended: multiset<Key>, phase: Phase, selected: string -> bool)

  datatype Step =
    | Start(selected: string -> bool, mappings: seq<Mapping>)
    | WritePending
    | Append
    | AppendFailed(arrived: bool)
    | FoundDuplicate
    | WriteDone
    | Finish
    | Crash

  function Loaded(journal: seq<Line>): set<Key> {
    set line | line in journal && line.Entry? :: line.key
  }

  predicate Enabled(w: World, step: Step) {
    match step
    case Start(_, _) => w.phase.Idle?
    case WritePending => w.phase.Between? && w.phase.todo != []
    case Append => w.phase.Intended?
    case AppendFailed(_) => w.phase.Intended?
    case FoundDuplicate => w.phase.Intended?
    case WriteDone => w.phase.Restored?
    case Finish => w.phase.Between? && w.phase.todo == []
    case Crash => true
  }

  function Next(manifest: seq<Message>, w: World, step: Step): World
    requires Enabled(w, step)
  {
    match step
    case Start(selected, mappings) =>
      w.(phase := Between(Due(manifest, Loaded(w.journal), mappings, selected)), selected := selected)
    case WritePending =>
      var a := w.phase.todo[0];
      w.(journal := w.journal + [Entry(a.message.key, Pending)], phase := Intended(a, w.phase.todo[1..]))
    case Append =>
      w.(appended := w.appended + multiset{w.phase.now.message.key}, phase := Restored(w.phase.now, w.phase.todo))
    case AppendFailed(arrived) =>
      w.(appended := if arrived then w.appended + multiset{w.phase.now.message.key} else w.appended,
         phase := Between(w.phase.todo))
    case FoundDuplicate => w.(phase := Restored(w.phase.now, w.phase.todo))
    case WriteDone => w.(journal := w.journal + [Entry(w.phase.now.message.key, Done)], phase := Between(w.phase.todo))
    case Finish => w.(phase := Idle)
    case Crash => w.(phase := Idle)
  }

  /** No key is to be appended that the journal or the rest of the run already has. */
  ghost predicate Fresh(journal: seq<Line>, todo: seq<PlannedAppend>) {
    && (forall a :: a in todo ==> !Journaled(journal, a.message.key))
    && (forall i, j :: 0 <= i < j < |todo| ==> todo[i].message.key != todo[j].message.key)
  }

  /** Every selected message is journaled or still to come. */
  ghost predicate Accounted(manifest: seq<Message>, w: World, todo: seq<PlannedAppend>) {
    forall m :: m in manifest && w.selected(m.key.folder) ==>
      Journaled(w.journal, m.key) || exists a :: a in todo && a.message == m
  }

  /** What every step keeps. */
  ghost predicate Inv(manifest: seq<Message>, w: World) {
    && (forall k :: w.appended[k] <= 1)
    && (forall k :: w.appended[k] > 0 ==> Journaled(w.journal, k))
    && (!w.phase.Idle? ==> Fresh(w.journal, w.phase.todo) && Accounted(manifest, w, w.phase.todo))
    && (w.phase.Intended? ==> w.appended[w.phase.now.message.key] == 0 && Has(w.journal, w.phase.now.message.key, Pending))
    && (w.phase.Restored? ==> Has(w.journal, w.phase.now.message.key, Pending))
  }

  lemma StatusCases(line: Line)
    requires line.Entry?
    ensures line == Entry(line.key, Pending) || line == Entry(line.key, Done)
  {
    match line.status {
      case Pending =>
      case Done =>
    }
  }

  lemma LoadedIsJournaled(journal: seq<Line>, k: Key)
    ensures k in Loaded(journal) <==> Journaled(journal, k)
  {
    if k in Loaded(journal) {
      var line :| line in journal && line.Entry? && line.key == k;
      StatusCases(line);
    }
    assert Entry(k, Pending).key == k && Entry(k, Done).key == k;
  }

  lemma JournalGrows(journal: seq<Line>, line: Line, k: Key)
    ensures Journaled(journal + [line], k) <==> Journaled(journal, k) || (line.Entry? && line.key == k)
  {
    if line.Entry? {
      StatusCases(line);
    }
  }

  lemma StartKeeps(manifest: seq<Message>, w: World, selected: string -> bool, mappings: seq<Mapping>)
    requires DistinctKeys(manifest) && Inv(manifest, w) && w.phase.Idle?
    ensures Inv(manifest, Next(manifest, w, Start(selected, mappings)))
  {
    var state := Loaded(w.journal);
    forall k ensures k in state <==> Journaled(w.journal, k) {
      LoadedIsJournaled(w.journal, k);
    }
    var due := Due(manifest, state, mappings, selected);
    DueDistinct(manifest, state, mappings, selected);
    forall a ensures a in due <==> IsDue(a, manifest, state, mappings, selected) {
      DueExact(manifest, state, mappings, selected, a);
    }
    forall m | m in manifest && selected(m.key.folder) && !Journaled(w.journal, m.key)
      ensures exists a :: a in due && a.message == m
    {
      FirstMappingWins(mappings, m.key.folder, ApplyFolderMapping(m.key.folder, mappings));
      assert IsDue(PlannedAppend(m, ApplyFolderMapping(m.key.folder, mappings)), manifest, state, mappings, selected);
    }
  }

  lemma WritePendingKeeps(manifest: seq<Message>, w: World)
    requires Inv(manifest, w) && Enabled(w, WritePending)
    ensures Inv(manifest, Next(manifest, w, WritePending))
  {
  }

  lemma StepKeeps(manifest: seq<Message>, w: World, step: Step)
    requires DistinctKeys(manifest) && Inv(manifest, w) && Enabled(w, step)
    ensures Inv(manifest, Next(manifest, w, step))
  {
    match step {
      case Start(selected, mappings) => StartKeeps(manifest, w, selected, mappings);
      case WritePending => WritePendingKeeps(manifest, w);
      case WriteDone =>
        forall k ensures Journaled(w.journal + [Entry(w.phase.now.message.key, Done)], k) <==> Journaled(w.journal, k) {
          JournalGrows(w.journal, Entry(w.phase.now.message.key, Done), k);
        }
      case _ =>
    }
  }

  /** A history: any steps at all, from a sidecar any earlier version may have left. */
  ghost predicate Runs(manifest: seq<Message>, first: World, steps: seq<Step>, last: World)
    decreases |steps|
  {
    if steps == [] then first == last
    else Enabled(first, steps[0]) && Runs(manifest, Next(manifest, first, steps[0]), steps[1..], last)
  }

  ghost predicate Initial(w: World) {
    w.appended == multiset{} && w.phase == Idle
  }

  lemma {:induction false} RunsKeep(manifest: seq<Message>, first: World, steps: seq<Step>, last: World)
    requires DistinctKeys(manifest) && Inv(manifest, first) && Runs(manifest, first, steps, last)
    ensures Inv(manifest, last)
    decreases |steps|
  {
    if steps == [] {
    } else {
      StepKeeps(manifest, first, steps[0]);
      RunsKeep(manifest, Next(manifest, first, steps[0]), steps[1..], last);
    }
  }

  /** However the runs go and wherever they crash, no identity is appended twice, and an
      append that was not written up as done is among those the loader warns of. */
  lemma AppendedAtMostOnce(manifest: seq<Message>, first: World, steps: seq<Step>, last: World)
    requires DistinctKeys(manifest) && Initial(first) && Runs(manifest, first, steps, last)
    ensures forall k :: last.appended[k] <= 1
    ensures forall k :: last.appended[k] == 1 ==> Has(last.journal, k, Done) || InDoubt(last.journal, k)
  {
    RunsKeep(manifest, first, steps, last);
  }

  /** When a run has come to its end, even one with failed appends, a further run of the
      same selection plans nothing, whatever the mappings. */
  lemma RerunPlansNothing(manifest: seq<Message>, first: World, steps: seq<Step>, last: World, mappings: seq<Mapping>)
    requires DistinctKeys(manifest) && Initial(first) && Runs(manifest, first, steps, last)
    requires last.phase == Between([])
    ensures Due(manifest, Loaded(last.journal), mappings, last.selected) == []
  {
    RunsKeep(manifest, first, steps, last);
    var due := Due(manifest, Loaded(last.journal), mappings, last.selected);
    if due != [] {
      DueExact(manifest, Loaded(last.journal), mappings, last.selected, due[0]);
      LoadedIsJournaled(last.journal, due[0].message.key);
    }
  }
}
