/** The keyed lock table: one lock per receipt, found through weak entries that are purged
    and recreated. A lock is live while some waiter or guard refers to it. The table is
    changed only under its own mutex, but waiters give up and guards are dropped at any
    time, also between the purge of an entry and the lookup. */
module KeyedLock {

  type Key = string
  type Lock = nat
  type Thread = nat

  datatype State =
    | Outside
    | Purging(key: Key, unchecked: set<Key>)  // inside the table's mutex
    | Waiting(key: Key, lock: Lock)
    | Holding(key: Key, lock: Lock)

  /** departed: the locks left by a user since the call in the table's mutex began. */
  datatype World = World(table: map<Key, Lock>, threads: map<Thread, State>, next: Lock, departed: set<Lock>)

  datatype Step =
    | Enter(t: Thread, key: Key)
    | Retain(t: Thread, entry: Key)
    | Lookup(t: Thread)
    | Acquire(t: Thread)
    | Leave(t: Thread)

  function At(w: World, t: Thread): State {
    if t in w.threads then w.threads[t] else Outside
  }

  predicate Uses(s: State, lock: Lock) {
    (s.Waiting? || s.Holding?) && s.lock == lock
  }

  /** The strong count is positive. */
  predicate Live(w: World, lock: Lock) {
    exists t :: t in w.threads && Uses(w.threads[t], lock)
  }

  predicate Held(w: World, lock: Lock) {
    exists t :: t in w.threads && w.threads[t].Holding? && w.threads[t].lock == lock
  }

  predicate Enabled(w: World, step: Step) {
    match step
    case Enter(t, _) => At(w, t).Outside? && forall u :: u in w.threads ==> !w.threads[u].Purging?
    case Retain(t, entry) => At(w, t).Purging? && entry in At(w, t).unchecked
    case Lookup(t) => At(w, t).Purging? && At(w, t).unchecked == {}
    case Acquire(t) => At(w, t).Waiting? && !Held(w, At(w, t).lock)
    case Leave(t) => At(w, t).Waiting? || At(w, t).Holding?
  }

  function Next(w: World, step: Step): World
    requires Enabled(w, step)
  {
    match step
    case Enter(t, key) =>
      w.(threads := w.threads[t := Purging(key, w.table.Keys)], departed := {})
    case Retain(t, entry) =>
      var s := At(w, t);
      w.(threads := w.threads[t := Purging(s.key, s.unchecked - {entry})],
         table := if entry in w.table && !Live(w, w.table[entry]) then w.table - {entry} else w.table)
    case Lookup(t) =>
      var key := At(w, t).key;
      if key in w.table && Live(w, w.table[key])
      then w.(threads := w.threads[t := Waiting(key, w.table[key])])
      else w.(threads := w.threads[t := Waiting(key, w.next)], table := w.table[key := w.next], next := w.next + 1)
    case Acquire(t) =>
      w.(threads := w.threads[t := Holding(At(w, t).key, At(w, t).lock)])
    case Leave(t) =>
      w.(threads := w.threads[t := Outside], departed := w.departed + {At(w, t).lock})
  }

  /** Whoever uses a lock found it under its key, and the entry is still there. */
  ghost predicate EntryKept(w: World, s: State) {
    s.Waiting? || s.Holding? ==> s.key in w.table && w.table[s.key] == s.lock
  }

  predicate HoldSame(s: State, r: State) {
    s.Holding? && r.Holding? && s.lock == r.lock
  }

  ghost predicate Inv(w: World) {
    && (forall t :: t in w.threads ==> EntryKept(w, w.threads[t]))
    && (forall t, u :: t in w.threads && u in w.threads && w.threads[t].Purging? && w.threads[u].Purging? ==> t == u)
    && (forall t, u :: t in w.threads && u in w.threads && HoldSame(w.threads[t], w.threads[u]) ==> t == u)
    && (forall k :: k in w.table ==> w.table[k] < w.next)
    && (forall j, k :: j in w.table && k in w.table && w.table[j] == w.table[k] ==> j == k)
    && (forall t, k :: t in w.threads && w.threads[t].Purging? && k in w.table && k !in w.threads[t].unchecked ==>
         Live(w, w.table[k]) || w.table[k] in w.departed)
  }

  lemma EnterKeeps(w: World, t: Thread, key: Key)
    requires Inv(w) && Enabled(w, Enter(t, key))
    ensures Inv(Next(w, Enter(t, key)))
  {
  }

  lemma LiveElsewhere(w: World, t: Thread, s: State, lock: Lock)
    requires At(w, t).Purging? || At(w, t).Outside? || !Uses(At(w, t), lock) || Uses(s, lock)
    ensures Live(w, lock) ==> Live(w.(threads := w.threads[t := s]), lock)
  {
    if Live(w, lock) {
      var u :| u in w.threads && Uses(w.threads[u], lock);
      var after := w.(threads := w.threads[t := s]);
      if u == t {
        assert Uses(after.threads[t], lock);
      } else {
        assert Uses(after.threads[u], lock);
      }
    }
  }

  lemma RetainKeeps(w: World, t: Thread, entry: Key)
    requires Inv(w) && Enabled(w, Retain(t, entry))
    ensures Inv(Next(w, Retain(t, entry)))
  {
    var after := Next(w, Retain(t, entry));
    forall lock ensures Live(w, lock) ==> Live(after, lock) {
      LiveElsewhere(w, t, after.threads[t], lock);
    }
    forall u | u in after.threads ensures EntryKept(after, after.threads[u]) {
      if u != t && (w.threads[u].Waiting? || w.threads[u].Holding?) {
        assert Uses(w.threads[u], w.threads[u].lock);
        assert EntryKept(w, w.threads[u]);
      }
    }
  }

  lemma LookupKeeps(w: World, t: Thread)
    requires Inv(w) && Enabled(w, Lookup(t))
    ensures Inv(Next(w, Lookup(t)))
  {
    var after := Next(w, Lookup(t));
    forall u | u in after.threads ensures EntryKept(after, after.threads[u]) {
      if u != t && (w.threads[u].Waiting? || w.threads[u].Holding?) {
        assert Uses(w.threads[u], w.threads[u].lock);
        assert EntryKept(w, w.threads[u]);
      }
    }
  }

  lemma LookupLeavesLive(w: World, t: Thread)
    requires Inv(w) && Enabled(w, Lookup(t))
    ensures var after := Next(w, Lookup(t));
      forall k :: k in after.table ==> Live(after, after.table[k]) || after.table[k] in after.departed
  {
    var after := Next(w, Lookup(t));
    forall k | k in after.table ensures Live(after, after.table[k]) || after.table[k] in after.departed {
      if k == At(w, t).key {
        assert Uses(after.threads[t], after.table[k]);
      } else {
        LiveElsewhere(w, t, after.threads[t], w.table[k]);
      }
    }
  }

  lemma AcquireKeeps(w: World, t: Thread)
    requires Inv(w) && Enabled(w, Acquire(t))
    ensures Inv(Next(w, Acquire(t)))
  {
    var after := Next(w, Acquire(t));
    forall lock ensures Live(w, lock) ==> Live(after, lock) {
      LiveElsewhere(w, t, after.threads[t], lock);
    }
  }

  lemma LeaveKeeps(w: World, t: Thread)
    requires Inv(w) && Enabled(w, Leave(t))
    ensures Inv(Next(w, Leave(t)))
  {
    var after := Next(w, Leave(t));
    forall lock | lock != At(w, t).lock ensures Live(w, lock) ==> Live(after, lock) {
      LiveElsewhere(w, t, Outside, lock);
    }
  }

  ghost predicate Runs(first: World, steps: seq<Step>, last: World)
    decreases |steps|
  {
    if steps == [] then first == last
    else Enabled(first, steps[0]) && Runs(Next(first, steps[0]), steps[1..], last)
  }

  const EMPTY: World := World(map[], map[], 0, {})

  lemma {:induction false} RunsKeep(first: World, steps: seq<Step>, last: World)
    requires Inv(first) && Runs(first, steps, last)
    ensures Inv(last)
    decreases |steps|
  {
    if steps == [] {
    } else {
      match steps[0] {
        case Enter(t, key) => EnterKeeps(first, t, key);
        case Retain(t, entry) => RetainKeeps(first, t, entry);
        case Lookup(t) => LookupKeeps(first, t);
        case Acquire(t) => AcquireKeeps(first, t);
        case Leave(t) => LeaveKeeps(first, t);
      }
      RunsKeep(Next(first, steps[0]), steps[1..], last);
    }
  }

  /** In every reachable state the users of a key share one lock, at most one of them holds
      it, and different keys never wait for each other. */
  lemma MutualExclusion(steps: seq<Step>, last: World, t: Thread, u: Thread)
    requires Runs(EMPTY, steps, last)
    requires t in last.threads && u in last.threads
    requires last.threads[t].Waiting? || last.threads[t].Holding?
    requires last.threads[u].Waiting? || last.threads[u].Holding?
    ensures last.threads[t].key == last.threads[u].key <==> last.threads[t].lock == last.threads[u].lock
    ensures last.threads[t].Holding? && last.threads[u].Holding? && last.threads[t].key == last.threads[u].key ==> t == u
  {
    RunsKeep(EMPTY, steps, last);
    assert EntryKept(last, last.threads[t]) && EntryKept(last, last.threads[u]);
  }

  /** No waiter is shut out: its lock is free, or whoever holds it can leave, and then it is. */
  lemma WaiterCanHold(steps: seq<Step>, w: World, t: Thread)
    requires Runs(EMPTY, steps, w) && At(w, t).Waiting?
    ensures || Enabled(w, Acquire(t))
            || exists u :: u != t && Enabled(w, Leave(u)) && Enabled(Next(w, Leave(u)), Acquire(t))
  {
    RunsKeep(EMPTY, steps, w);
    if !Enabled(w, Acquire(t)) {
      var u :| u in w.threads && w.threads[u].Holding? && w.threads[u].lock == At(w, t).lock;
      var next := Next(w, Leave(u));
      forall v | v in next.threads && next.threads[v].Holding? ensures next.threads[v].lock != At(w, t).lock {
        assert HoldSame(next.threads[v], w.threads[u]) ==> v == u;
      }
      assert Enabled(next, Acquire(t));
    }
  }

  /** The table cleans itself: after a call, every entry is in use, or its lock was left
      by a user while that call was under way. */
  lemma OnlyLiveEntriesRemain(steps: seq<Step>, before: World, t: Thread)
    requires Runs(EMPTY, steps, before) && Enabled(before, Lookup(t))
    ensures var after := Next(before, Lookup(t));
      forall k :: k in after.table ==> Live(after, after.table[k]) || after.table[k] in after.departed
  {
    RunsKeep(EMPTY, steps, before);
    LookupLeavesLive(before, t);
  }

  lemma {:induction false} RunsOn(first: World, steps: seq<Step>, mid: World, step: Step)
    requires Runs(first, steps, mid) && Enabled(mid, step)
    ensures Runs(first, steps + [step], Next(mid, step))
    decreases |steps|
  {
    if steps != [] {
      RunsOn(Next(first, steps[0]), steps[1..], mid, step);
      assert (steps + [step])[1..] == steps[1..] + [step];
    } else {
      assert (steps + [step])[1..] == [];
    }
  }

  /** The call by t has purged some of the table; nobody else has moved. */
  ghost predicate Purged(before: World, steps: seq<Step>, w: World, t: Thread, key: Key) {
    && Runs(before, steps, w)
    && Inv(w)
    && At(w, t).Purging? && At(w, t).key == key
    && w.departed == {}
    && forall u :: u != t ==> At(w, u) == At(before, u)
  }

  lemma PurgeStarts(w: World, t: Thread, key: Key)
    requires Inv(w) && Enabled(w, Enter(t, key))
    ensures Purged(w, [Enter(t, key)], Next(w, Enter(t, key)), t, key)
  {
    EnterKeeps(w, t, key);
    assert [Enter(t, key)][1..] == [];
  }

  lemma PurgeGoesOn(before: World, steps: seq<Step>, w: World, t: Thread, key: Key, entry: Key)
    requires Purged(before, steps, w, t, key) && entry in At(w, t).unchecked
    ensures Purged(before, steps + [Retain(t, entry)], Next(w, Retain(t, entry)), t, key)
    ensures At(Next(w, Retain(t, entry)), t).unchecked == At(w, t).unchecked - {entry}
  {
    RetainKeeps(w, t, entry);
    RunsOn(before, steps, w, Retain(t, entry));
  }

  lemma LookupSettles(w: World, t: Thread)
    requires Enabled(w, Lookup(t))
    ensures var after := Next(w, Lookup(t));
      && At(after, t).Waiting? && At(after, t).key == At(w, t).key
      && At(w, t).key in after.table && after.table[At(w, t).key] == At(after, t).lock
      && after.departed == w.departed
      && (forall u :: u != t ==> At(after, u) == At(w, u))
  {
  }

  lemma PurgeEnds(before: World, steps: seq<Step>, w: World, t: Thread, key: Key)
    requires Purged(before, steps, w, t, key) && At(w, t).unchecked == {}
    ensures var after := Next(w, Lookup(t));
      && Runs(before, steps + [Lookup(t)], after) && Inv(after)
      && At(after, t).Waiting? && At(after, t).key == key
      && key in after.table && after.table[key] == At(after, t).lock
      && (forall k :: k in after.table ==> Live(after, after.table[k]))
      && (forall u :: u != t ==> At(after, u) == At(before, u))
  {
    RunsOn(before, steps, w, Lookup(t));
    LookupKeeps(w, t);
    LookupSettles(w, t);
    LookupLeavesLive(w, t);
  }

  class AppState {
    var world: World

    constructor ()
      ensures world == EMPTY
    {
      world := EMPTY;
    }

    /** The call up to the await of the lock itself: a run of the machine after which only
        live entries remain and the thread waits for the one lock of its key. */
    method LockTravelReceiptOperation(t: Thread, key: Key) returns (lock: Lock, ghost steps: seq<Step>)
      requires Inv(world) && Enabled(world, Enter(t, key))
      modifies this
      ensures Runs(old(world), steps, world) && Inv(world)
      ensures At(world, t) == Waiting(key, lock) && key in world.table && world.table[key] == lock
      ensures forall k :: k in world.table ==> Live(world, world.table[k])
      ensures forall u :: u != t ==> At(world, u) == At(old(world), u)
    {
      PurgeStarts(world, t, key);
      steps, world := [Enter(t, key)], Next(world, Enter(t, key));
      while At(world, t).unchecked != {}
        invariant Purged(old(world), steps, world, t, key)
        decreases |At(world, t).unchecked|
      {
        var entry :| entry in At(world, t).unchecked;
        PurgeGoesOn(old(world), steps, world, t, key, entry);
        steps, world := steps + [Retain(t, entry)], Next(world, Retain(t, entry));
      }
      PurgeEnds(old(world), steps, world, t, key);
      steps, world := steps + [Lookup(t)], Next(world, Lookup(t));
      lock := At(world, t).lock;
    }
  }
}
