/** How many attempts several processes on one outbox can add up to while every send ends
    within its lease: a row picked by all of them before the first send is sent by each,
    because the lease checks neither the attempts nor the back-off. */
module OutboxAttempts {
  import opened Ordering
  import opened Outbox

  ghost predicate ByMembers(steps: seq<Step>, members: set<Process>) {
    forall i :: 0 <= i < |steps| ==> steps[i].Tick? || steps[i].InsertTest? || steps[i].p in members
  }

  // ---- at most four more than there are processes --------------------------------

  predicate Handled(pass: Pass, id: Id) {
    pass.Delivering? && pass.pick.id == id
  }

  /** The pass will send the job, or sends it, without taking it for its last attempt. */
  ghost predicate Holds(pass: Pass, id: Id) {
    || (Handled(pass, id) && pass.pick.attempts < 4)
    || (!pass.Idle? && exists i :: 0 <= i < |pass.queue| && pass.queue[i].id == id && pass.queue[i].attempts < 4)
  }

  ghost function Holders(w: World, members: set<Process>, id: Id): set<Process> {
    set q | q in members && Holds(PassOf(w, q), id)
  }

  /** A pass handles a job once. */
  ghost predicate Orderly(pass: Pass) {
    !pass.Idle? ==>
      && DistinctPicks(pass.queue)
      && (pass.Delivering? ==> forall i :: 0 <= i < |pass.queue| ==> pass.queue[i].id != pass.pick.id)
  }

  ghost predicate AllOrderly(w: World, members: set<Process>) {
    forall q :: (q !in members ==> PassOf(w, q).Idle?) && Orderly(PassOf(w, q))
  }

  /** From the fourth attempt on, each attempt uses up a holder. */
  ghost predicate Budget(w: World, members: set<Process>, id: Id) {
    id in w.jobs ==>
      && w.jobs[id].attempts <= |members| + 4
      && (!Final(w.jobs[id].state) && w.jobs[id].attempts >= 4 ==>
           w.jobs[id].attempts + |Holders(w, members, id)| <= |members| + 3)
  }

  lemma OrderlyStep(w: World, step: Step, members: set<Process>)
    requires AllOrderly(w, members) && Enabled(w, step) && ByMembers([step], members)
    ensures AllOrderly(Next(w, step), members)
  {
    var after := Next(w, step);
    assert [step][0] == step;
    forall q ensures (q !in members ==> PassOf(after, q).Idle?) && Orderly(PassOf(after, q)) {
      assert (q !in members ==> PassOf(w, q).Idle?) && Orderly(PassOf(w, q));
    }
  }

  /** Only a selection makes a process hold a job, and only with the attempts the row then has. */
  lemma HoldersStep(w: World, step: Step, members: set<Process>, id: Id)
    requires AllOrderly(w, members) && Enabled(w, step) && ByMembers([step], members)
    requires id in w.jobs && w.jobs[id].attempts >= 4
    ensures Holders(Next(w, step), members, id) <= Holders(w, members, id)
  {
    var after := Next(w, step);
    forall q | Holds(PassOf(after, q), id) ensures Holds(PassOf(w, q), id) {
      if PassOf(after, q) != PassOf(w, q) {
        HoldsBefore(w, step, q, id);
      }
    }
  }

  lemma HoldsBefore(w: World, step: Step, q: Process, id: Id)
    requires Enabled(w, step) && id in w.jobs && w.jobs[id].attempts >= 4
    requires PassOf(Next(w, step), q) != PassOf(w, q) && Holds(PassOf(Next(w, step), q), id)
    ensures Holds(PassOf(w, q), id)
  {
    var pass := PassOf(w, q);
    if (step.Lease? || step.Supersede?) && step.p == q {
      assert forall i :: 0 <= i < |pass.queue| - 1 ==> pass.queue[1..][i] == pass.queue[i + 1];
    }
  }

  /** Who settles a send no longer holds the job. */
  lemma FinishReleases(w: World, p: Process, answer: Answer, members: set<Process>)
    requires AllOrderly(w, members) && Enabled(w, Finish(p, answer)) && p in members
    ensures p !in Holders(Next(w, Finish(p, answer)), members, PassOf(w, p).pick.id)
  {
    assert Orderly(PassOf(w, p));
  }

  lemma BudgetStep(w: World, step: Step, members: set<Process>, id: Id)
    requires Leased(w) && AllOrderly(w, members) && Enabled(w, step) && ByMembers([step], members)
    requires Budget(w, members, id)
    ensures Budget(Next(w, step), members, id)
  {
    var after := Next(w, step);
    assert [step][0] == step;
    if id in w.jobs {
      if Finishes(w, step, id) {
        FinishKeepsBudget(w, step.p, step.answer, members);
      } else if w.jobs[id].attempts >= 4 {
        HoldersStep(w, step, members, id);
        SubsetSize(Holders(after, members, id), Holders(w, members, id));
      }
    }
  }

  lemma FinishKeepsBudget(w: World, p: Process, answer: Answer, members: set<Process>)
    requires Leased(w) && AllOrderly(w, members) && Enabled(w, Finish(p, answer)) && p in members
    requires Budget(w, members, PassOf(w, p).pick.id)
    ensures Budget(Next(w, Finish(p, answer)), members, PassOf(w, p).pick.id)
  {
    var id, step := PassOf(w, p).pick.id, Finish(p, answer);
    var after := Next(w, step);
    assert Covered(w, PassOf(w, p)) && [step][0] == step;
    FinishReleases(w, p, answer, members);
    var now, was := Holders(after, members, id), Holders(w, members, id);
    SubsetSize(now, members);
    if w.jobs[id].attempts >= 4 {
      HoldersStep(w, step, members, id);
      SubsetSize(now, was);
      if !Final(after.jobs[id].state) {
        assert p in was;
      }
    }
  }

  /** While every send ends within its lease, no row of n processes sees more than n + 4
      attempts. */
  lemma {:induction false} AttemptsBounded(first: World, steps: seq<Step>, last: World, members: set<Process>)
    requires Leased(first) && AllOrderly(first, members) && (forall id :: id in first.jobs ==> Budget(first, members, id))
    requires Runs(first, steps, last) && AlwaysTimely(first, steps) && ByMembers(steps, members)
    ensures forall id :: id in last.jobs ==> last.jobs[id].attempts <= |members| + 4
    ensures forall id :: id in last.jobs && last.jobs[id].attempts == |members| + 4 ==> Final(last.jobs[id].state)
    decreases |steps|
  {
    if steps == [] {
      forall id | id in last.jobs
        ensures last.jobs[id].attempts <= |members| + 4
        ensures last.jobs[id].attempts == |members| + 4 ==> Final(last.jobs[id].state)
      {
        assert Budget(first, members, id);
      }
    } else {
      var mid := Next(first, steps[0]);
      assert ByMembers([steps[0]], members);
      LeasedStep(first, steps[0]);
      OrderlyStep(first, steps[0], members);
      forall id | id in mid.jobs ensures Budget(mid, members, id) {
        BudgetStep(first, steps[0], members, id);
      }
      AttemptsBounded(mid, steps[1..], last, members);
    }
  }

  // ---- and that many are reached ---------------------------------------------------

  /** A run by members in which every send ends within its lease. */
  ghost predicate TimelyRun(first: World, steps: seq<Step>, last: World, members: set<Process>) {
    Runs(first, steps, last) && AlwaysTimely(first, steps) && ByMembers(steps, members)
  }

  lemma TimelyStep(w: World, step: Step, members: set<Process>) returns (last: World)
    requires Timely(w) && Enabled(w, step) && ByMembers([step], members) && Timely(Next(w, step))
    ensures last == Next(w, step) && TimelyRun(w, [step], last, members)
  {
    last := Next(w, step);
    assert [step][1..] == [];
    assert AlwaysTimely(last, []);
  }

  lemma {:induction false} TimelyJoin(first: World, head: seq<Step>, mid: World, tail: seq<Step>, last: World,
                                      members: set<Process>)
    requires TimelyRun(first, head, mid, members) && TimelyRun(mid, tail, last, members)
    ensures TimelyRun(first, head + tail, last, members)
    decreases |head|
  {
    if head == [] {
      assert head + tail == tail;
    } else {
      assert ByMembers(head[1..], members);
      TimelyJoin(Next(first, head[0]), head[1..], mid, tail, last, members);
      assert (head + tail)[1..] == head[1..] + tail;
    }
  }

  /** A step of p while nobody else sends. */
  lemma TimelyOn(first: World, steps: seq<Step>, mid: World, step: Step, p: Process, members: set<Process>)
    returns (longer: seq<Step>, last: World)
    requires TimelyRun(first, steps, mid, members) && Enabled(mid, step)
    requires !step.Tick? && !step.InsertTest? && step.p == p && p in members
    requires forall q :: PassOf(mid, q).Delivering? ==> q == p
    requires !PassOf(mid, p).Idle? ==> mid.clock < PassOf(mid, p).now + 120
    ensures last == Next(mid, step) && TimelyRun(first, longer, last, members)
    ensures last.clock == mid.clock && forall q :: q != p ==> PassOf(last, q) == PassOf(mid, q)
  {
    last := Next(mid, step);
    assert forall q :: q != p ==> PassOf(last, q) == PassOf(mid, q);
    last := TimelyStep(mid, step, members);
    TimelyJoin(first, steps, mid, [step], last, members);
    longer := steps + [step];
  }

  ghost predicate AllIdle(w: World) {
    forall q :: PassOf(w, q).Idle?
  }

  /** Each of the first n processes has picked the row, the others are idle. */
  ghost predicate Picked(w: World, ps: seq<Process>, id: Id, attempts: nat, now: int) {
    forall q :: PassOf(w, q) == if q in ps then Working(now, [Pick(id, attempts)], {}) else Idle
  }

  lemma {:induction false} PickAll(w: World, ps: seq<Process>, members: set<Process>, id: Id)
    returns (steps: seq<Step>, last: World)
    requires AllIdle(w) && id in w.jobs && Ready(w.jobs[id], w.clock) && forall p :: p in ps ==> p in members
    ensures TimelyRun(w, steps, last, members) && last.jobs == w.jobs && last.clock == w.clock
    ensures Picked(last, ps, id, w.jobs[id].attempts, w.clock)
  {
    if ps == [] {
      steps, last := [], w;
    } else {
      var p, n := ps[|ps| - 1], |ps| - 1;
      steps, last := PickAll(w, ps[..n], members, id);
      assert forall q :: q in ps <==> q in ps[..n] || q == p;
      if p !in ps[..n] {
        steps, last := TimelyOn(w, steps, last, Begin(p), p, members);
        steps, last := TimelyOn(w, steps, last, Select(p, [Pick(id, w.jobs[id].attempts)]), p, members);
      }
    }
  }

  predicate DistinctProcesses(ps: seq<Process>) {
    forall i, j :: 0 <= i < j < |ps| ==> ps[i] != ps[j]
  }

  /** One process sends what it picked and gets no answer. */
  lemma SendOne(w: World, p: Process, rest: seq<Process>, members: set<Process>, id: Id, picked: nat, now: int)
    returns (steps: seq<Step>, last: World)
    requires Picked(w, rest + [p], id, picked, now) && p !in rest && p in members && picked < 4
    requires id in w.jobs && w.jobs[id].state == Queued && now <= w.clock < now + 120
    ensures TimelyRun(w, steps, last, members) && last.clock == w.clock && Picked(last, rest, id, picked, now)
    ensures last.jobs.Keys == w.jobs.Keys
    ensures last.jobs[id] == w.jobs[id].(attempts := w.jobs[id].attempts + 1, nextAttempt := now + Backoff(picked))
  {
    assert PassOf(w, p) == Working(now, [Pick(id, picked)], {});
    assert forall q :: q in rest + [p] <==> q in rest || q == p;
    steps, last := TimelyOn(w, [], w, Lease(p), p, members);
    steps, last := TimelyOn(w, steps, last, Finish(p, Unreachable), p, members);
    steps, last := TimelyOn(w, steps, last, End(p), p, members);
  }

  lemma {:induction false} SendAll(w: World, ps: seq<Process>, members: set<Process>, id: Id, picked: nat, now: int)
    returns (steps: seq<Step>, last: World)
    requires Picked(w, ps, id, picked, now) && DistinctProcesses(ps) && (forall p :: p in ps ==> p in members) && picked < 4
    requires id in w.jobs && w.jobs[id].state == Queued && now <= w.clock < now + 120
    ensures TimelyRun(w, steps, last, members) && last.clock == w.clock && AllIdle(last) && last.jobs.Keys == w.jobs.Keys
    ensures last.jobs[id].attempts == w.jobs[id].attempts + |ps| && last.jobs[id].state == Queued
    ensures last.jobs[id].expires == w.jobs[id].expires
    ensures if ps == [] then last == w else last.jobs[id].nextAttempt == now + Backoff(picked)
    decreases |ps|
  {
    if ps == [] {
      steps, last := [], w;
    } else {
      var p, rest := ps[|ps| - 1], ps[..|ps| - 1];
      assert rest + [p] == ps;
      var mid;
      steps, mid := SendOne(w, p, rest, members, id, picked, now);
      var tail;
      tail, last := SendAll(mid, rest, members, id, picked, now);
      TimelyJoin(w, steps, mid, tail, last, members);
      steps := steps + tail;
    }
  }

  /** All of them pick the row, then all of them send it: the back-off after the first send
      holds none of the others back. The next round is due when the clock has moved on. */
  lemma Round(w: World, ps: seq<Process>, members: set<Process>, id: Id) returns (steps: seq<Step>, last: World)
    requires AllIdle(w) && DistinctProcesses(ps) && ps != [] && (forall p :: p in ps ==> p in members)
    requires id in w.jobs && Ready(w.jobs[id], w.clock) && w.jobs[id].attempts < 4
    ensures var wait := Backoff(w.jobs[id].attempts);
      && TimelyRun(w, steps, last, members) && AllIdle(last) && last.clock == w.clock + wait && id in last.jobs
      && last.jobs[id].attempts == w.jobs[id].attempts + |ps| && last.jobs[id].state == Queued
      && last.jobs[id].nextAttempt == last.clock && last.jobs[id].expires == w.jobs[id].expires
  {
    var picked := w.jobs[id].attempts;
    var mid, tail, end;
    steps, mid := PickAll(w, ps, members, id);
    tail, end := SendAll(mid, ps, members, id, picked, w.clock);
    TimelyJoin(w, steps, mid, tail, end, members);
    assert forall q :: PassOf(Next(end, Tick(Backoff(picked))), q) == PassOf(end, q);
    last := TimelyStep(end, Tick(Backoff(picked)), members);
    TimelyJoin(w, steps + tail, end, [Tick(Backoff(picked))], last, members);
    steps := steps + tail + [Tick(Backoff(picked))];
  }

  /** From the empty table: a row sent three times by one process. */
  lemma ThreeAttempts(p: Process, members: set<Process>) returns (steps: seq<Step>, last: World)
    requires p in members
    ensures TimelyRun(EMPTY, steps, last, members) && AllIdle(last) && "a" in last.jobs
    ensures last.jobs["a"].attempts == 3 && Ready(last.jobs["a"], last.clock) && last.clock == 420
    ensures last.jobs["a"].expires == 3600
  {
    var w, tail;
    steps, w := TimelyOn(EMPTY, [], EMPTY, Begin(p), p, members);
    steps, w := TimelyOn(EMPTY, steps, w, InsertAlert(p, "a", "phone", "alert", 0), p, members);
    steps, w := TimelyOn(EMPTY, steps, w, End(p), p, members);
    tail, last := Round(w, [p], members, "a");
    TimelyJoin(EMPTY, steps, w, tail, last, members);
    steps, w := steps + tail, last;
    tail, last := Round(w, [p], members, "a");
    TimelyJoin(EMPTY, steps, w, tail, last, members);
    steps, w := steps + tail, last;
    tail, last := Round(w, [p], members, "a");
    TimelyJoin(EMPTY, steps, w, tail, last, members);
    steps := steps + tail;
  }

  /** For every number of processes the bound is reached by a timely run from the empty
      table; with two processes that is a sixth attempt. */
  lemma BoundReached(ps: seq<Process>, members: set<Process>) returns (steps: seq<Step>, last: World)
    requires DistinctProcesses(ps) && ps != [] && forall p :: p in ps <==> p in members
    ensures TimelyRun(EMPTY, steps, last, members) && "a" in last.jobs
    ensures last.jobs["a"].attempts == |ps| + 4 == |members| + 4 && last.jobs["a"].state == Failed
  {
    var p := ps[0];
    var w, tail;
    steps, w := ThreeAttempts(p, members);
    tail, last := Round(w, ps, members, "a");
    TimelyJoin(EMPTY, steps, w, tail, last, members);
    steps, w := steps + tail, last;
    tail, last := PickAll(w, [p], members, "a");
    TimelyJoin(EMPTY, steps, w, tail, last, members);
    steps, w := steps + tail, last;
    assert PassOf(w, p) == Working(w.clock, [Pick("a", |ps| + 3)], {});
    steps, last := TimelyOn(EMPTY, steps, w, Lease(p), p, members);
    steps, last := TimelyOn(EMPTY, steps, last, Finish(p, Unreachable), p, members);
    Listed(ps, members);
  }

  lemma {:induction false} Listed(ps: seq<Process>, members: set<Process>)
    requires DistinctProcesses(ps) && forall p :: p in ps <==> p in members
    ensures |members| == |ps|
  {
    if ps == [] {
      assert members == {};
    } else {
      var p, rest := ps[|ps| - 1], ps[..|ps| - 1];
      assert rest + [p] == ps;
      Listed(rest, members - {p});
    }
  }
}
