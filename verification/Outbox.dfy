/** The push outbox as a job state machine over one table: passes of one or more service
    processes, each with its own `now`, leases of 120 seconds, retries with back-off, and
    crashes at any point. Every step is one statement on the table. */
module Outbox {

  type Id = string
  type Process = nat

  datatype JobState = Queued | Sending | Accepted | Failed | Expired | Superseded

  datatype Job = Job(device: string, alert: string, state: JobState, attempts: nat, nextAttempt: int, expires: int)

  datatype Pick = Pick(id: Id, attempts: nat)

  /** A pass: its clock reading, the jobs picked and not yet handled, the job being sent,
      and the jobs sent so far. */
  datatype Pass =
    | Idle
    | Working(now: int, queue: seq<Pick>, sent: set<Id>)
    | Delivering(now: int, pick: Pick, queue: seq<Pick>, sent: set<Id>)

  datatype World = World(jobs: map<Id, Job>, passes: map<Process, Pass>, clock: int)

  datatype Answer = Delivered | Gone | Unreachable

  datatype Step =
    | Tick(seconds: nat)
    | Begin(p: Process)
    | InsertAlert(p: Process, id: Id, device: string, alert: string, triggered: int)
    | InsertTest(id: Id, device: string)
    | Expire(p: Process)
    | Reclaim(p: Process)
    | Select(p: Process, picks: seq<Pick>)
    | Supersede(p: Process)
    | Lease(p: Process)
    | Finish(p: Process, answer: Answer)
    | End(p: Process)
    | Crash(p: Process)

  const LEASE: int := 120
  const LIFETIME: int := 3600
  const TEST_LIFETIME: int := 300

  predicate Final(s: JobState) {
    s.Accepted? || s.Failed? || s.Expired? || s.Superseded?
  }

  function PassOf(w: World, p: Process): Pass {
    if p in w.passes then w.passes[p] else Idle
  }

  predicate Taken(w: World, device: string, alert: string) {
    exists id :: id in w.jobs && w.jobs[id].device == device && w.jobs[id].alert == alert
  }

  predicate Ready(job: Job, now: int) {
    job.state == Queued && job.nextAttempt <= now && job.expires > now
  }

  function Backoff(attempts: nat): int {
    var n := if attempts < 5 then attempts else 5;
    60 * (if n == 0 then 1 else if n == 1 then 2 else if n == 2 then 4 else if n == 3 then 8 else if n == 4 then 16 else 32)
  }

  /** The row after a send: the state by the attempts picked, the count by the row's own. */
  function AfterSend(job: Job, picked: nat, answer: Answer, now: int): Job {
    var state := if answer.Delivered? then Accepted else if picked >= 4 || answer.Gone? then Failed else Queued;
    job.(state := state, attempts := job.attempts + 1, nextAttempt := now + Backoff(picked))
  }

  predicate ValidPicks(w: World, picks: seq<Pick>, now: int) {
    && |picks| <= 20
    && (forall i :: 0 <= i < |picks| ==>
         picks[i].id in w.jobs && Ready(w.jobs[picks[i].id], now) && picks[i].attempts == w.jobs[picks[i].id].attempts)
    && (forall i, j :: 0 <= i < j < |picks| ==> picks[i].id != picks[j].id)
    && (forall i, j :: 0 <= i < j < |picks| ==> w.jobs[picks[i].id].device == w.jobs[picks[j].id].device)
  }

  predicate Enabled(w: World, step: Step) {
    match step
    case Tick(_) => true
    case Begin(p) => PassOf(w, p).Idle?
    case InsertAlert(p, id, _, _, triggered) =>
      PassOf(w, p).Working? && PassOf(w, p).queue == [] && id !in w.jobs && triggered + LIFETIME >= PassOf(w, p).now
    case InsertTest(id, device) => id !in w.jobs && !Taken(w, device, id)
    case Expire(p) => PassOf(w, p).Working? && PassOf(w, p).queue == []
    case Reclaim(p) => PassOf(w, p).Working? && PassOf(w, p).queue == []
    case Select(p, picks) => PassOf(w, p).Working? && PassOf(w, p).queue == [] && ValidPicks(w, picks, PassOf(w, p).now)
    case Supersede(p) => PassOf(w, p).Working? && PassOf(w, p).queue != []
    case Lease(p) => PassOf(w, p).Working? && PassOf(w, p).queue != []
    case Finish(p, _) => PassOf(w, p).Delivering?
    case End(p) => PassOf(w, p).Working? && PassOf(w, p).queue == []
    case Crash(p) => true
  }

  function Next(w: World, step: Step): World
    requires Enabled(w, step)
  {
    match step
    case Tick(seconds) => w.(clock := w.clock + seconds)
    case Begin(p) => w.(passes := w.passes[p := Working(w.clock, [], {})])
    case InsertAlert(p, id, device, alert, triggered) =>
      if Taken(w, device, alert) then w
      else w.(jobs := w.jobs[id := Job(device, alert, Queued, 0, PassOf(w, p).now, triggered + LIFETIME)])
    case InsertTest(id, device) =>
      w.(jobs := w.jobs[id := Job(device, id, Queued, 0, w.clock, w.clock + TEST_LIFETIME)])
    case Expire(p) =>
      var now := PassOf(w, p).now;
      w.(jobs := map id | id in w.jobs :: if w.jobs[id].state == Queued && w.jobs[id].expires <= now
                                          then w.jobs[id].(state := Expired) else w.jobs[id])
    case Reclaim(p) =>
      var now := PassOf(w, p).now;
      w.(jobs := map id | id in w.jobs :: if w.jobs[id].state == Sending && w.jobs[id].nextAttempt <= now
                                          then w.jobs[id].(state := Queued) else w.jobs[id])
    case Select(p, picks) => w.(passes := w.passes[p := Working(PassOf(w, p).now, picks, PassOf(w, p).sent)])
    case Supersede(p) =>
      var pass := PassOf(w, p);
      var id := pass.queue[0].id;
      w.(passes := w.passes[p := Working(pass.now, pass.queue[1..], pass.sent)],
         jobs := if id in w.jobs && w.jobs[id].state == Queued
                 then w.jobs[id := w.jobs[id].(state := Superseded)] else w.jobs)
    case Lease(p) =>
      var pass := PassOf(w, p);
      var pick := pass.queue[0];
      if pick.id in w.jobs && w.jobs[pick.id].state == Queued
      then w.(passes := w.passes[p := Delivering(pass.now, pick, pass.queue[1..], pass.sent + {pick.id})],
              jobs := w.jobs[pick.id := w.jobs[pick.id].(state := Sending, nextAttempt := pass.now + LEASE)])
      else w.(passes := w.passes[p := Working(pass.now, pass.queue[1..], pass.sent)])
    case Finish(p, answer) =>
      var pass := PassOf(w, p);
      w.(passes := w.passes[p := Working(pass.now, pass.queue, pass.sent)],
         jobs := if pass.pick.id in w.jobs
                 then w.jobs[pass.pick.id := AfterSend(w.jobs[pass.pick.id], pass.pick.attempts, answer, pass.now)]
                 else w.jobs)
    case End(p) => w.(passes := w.passes[p := Idle])
    case Crash(p) => w.(passes := w.passes[p := Idle])
  }

  ghost predicate Runs(first: World, steps: seq<Step>, last: World)
    decreases |steps|
  {
    if steps == [] then first == last
    else Enabled(first, steps[0]) && Runs(Next(first, steps[0]), steps[1..], last)
  }

  const EMPTY: World := World(map[], map[], 0)

  /** A test can be sent at once and for 300 seconds, an alert at once and until an hour after
      it triggered. */
  lemma DueWhile(w: World, step: Step, now: int)
    requires Enabled(w, step) && now >= w.clock
    ensures step.InsertTest? ==>
      step.id in Next(w, step).jobs && (Ready(Next(w, step).jobs[step.id], now) <==> now < w.clock + 300)
    ensures step.InsertAlert? && PassOf(w, step.p).now <= w.clock && !Taken(w, step.device, step.alert) ==>
      step.id in Next(w, step).jobs && (Ready(Next(w, step).jobs[step.id], now) <==> now < step.triggered + 3600)
  {
  }

  // ---- any number of processes ---------------------------------------------

  /** One row per device and alert. */
  ghost predicate Unique(w: World) {
    forall i, j :: i in w.jobs && j in w.jobs && SameNotice(w.jobs[i], w.jobs[j]) ==> i == j
  }

  predicate SameNotice(j: Job, k: Job) {
    j.device == k.device && j.alert == k.alert
  }

  lemma UniqueStep(w: World, step: Step)
    requires Unique(w) && Enabled(w, step)
    ensures Unique(Next(w, step))
    ensures w.jobs.Keys <= Next(w, step).jobs.Keys
  {
  }

  /** No pass reads its clock ahead of time. */
  ghost predicate Clocked(w: World) {
    forall p :: p in w.passes && !w.passes[p].Idle? ==> w.passes[p].now <= w.clock
  }

  lemma ClockedStep(w: World, step: Step)
    requires Clocked(w) && Enabled(w, step)
    ensures Clocked(Next(w, step))
    ensures w.clock <= Next(w, step).clock
  {
  }

  predicate Finishes(w: World, step: Step, id: Id) {
    step.Finish? && PassOf(w, step.p).Delivering? && PassOf(w, step.p).pick.id == id
  }

  /** The run contains no answer for the job: whoever sends it has crashed or still waits. */
  ghost predicate Unanswered(first: World, steps: seq<Step>, id: Id)
    decreases |steps|
  {
    steps != [] && Enabled(first, steps[0]) ==>
      !Finishes(first, steps[0], id) && Unanswered(Next(first, steps[0]), steps[1..], id)
  }

  /** A job whose sender never answered is not queued again before its lease is over,
      whichever processes look. */
  lemma {:induction false} RetriedOnlyAfterLease(first: World, steps: seq<Step>, last: World, id: Id)
    requires Runs(first, steps, last) && Unanswered(first, steps, id) && Clocked(first)
    requires id in first.jobs && first.jobs[id].state == Sending
    ensures id in last.jobs
    ensures last.jobs[id] == first.jobs[id] || first.jobs[id].nextAttempt <= last.clock
    decreases |steps|
  {
    if steps == [] {
    } else {
      var mid := Next(first, steps[0]);
      ClockedStep(first, steps[0]);
      if mid.jobs[id] == first.jobs[id] {
        RetriedOnlyAfterLease(mid, steps[1..], last, id);
      } else {
        RunsForward(mid, steps[1..], last);
      }
    }
  }

  lemma {:induction false} RunsForward(first: World, steps: seq<Step>, last: World)
    requires Runs(first, steps, last)
    ensures first.clock <= last.clock && first.jobs.Keys <= last.jobs.Keys
    decreases |steps|
  {
    if steps == [] {
    } else {
      RunsForward(Next(first, steps[0]), steps[1..], last);
    }
  }

  // ---- processes whose sends end in time -------------------------------------

  /** The process is sending the job right now. */
  predicate Sends(w: World, p: Process, id: Id) {
    PassOf(w, p).Delivering? && PassOf(w, p).pick.id == id
  }

  /** The pass's send is covered by its lease. */
  predicate Covered(w: World, pass: Pass) {
    pass.Delivering? ==>
      && pass.pick.id in w.jobs
      && w.jobs[pass.pick.id].state == Sending
      && w.jobs[pass.pick.id].nextAttempt == pass.now + LEASE
  }

  /** Every send under way is still within the lease it took from its pass's clock. */
  ghost predicate Timely(w: World) {
    forall p :: PassOf(w, p).Delivering? ==> w.clock < PassOf(w, p).now + 120
  }

  ghost predicate Alone(w: World) {
    forall p, q, id :: Sends(w, p, id) && Sends(w, q, id) ==> p == q
  }

  ghost predicate Leased(w: World) {
    Clocked(w) && Alone(w) && forall p :: Covered(w, PassOf(w, p))
  }

  lemma CoveredStep(w: World, step: Step, q: Process)
    requires Leased(w) && Timely(w) && Enabled(w, step)
    ensures Covered(Next(w, step), PassOf(Next(w, step), q))
  {
    assert Covered(w, PassOf(w, q));
    var pass := PassOf(w, q);
    match step {
      case Finish(p, _) =>
        if q != p && pass.Delivering? {
          assert Sends(w, q, pass.pick.id);
          assert !Sends(w, p, pass.pick.id);
        }
      case Reclaim(p) => assert PassOf(w, p).now <= w.clock;
      case _ =>
    }
  }

  lemma AloneStep(w: World, step: Step, p: Process, q: Process, id: Id)
    requires Leased(w) && Enabled(w, step)
    requires Sends(Next(w, step), p, id) && Sends(Next(w, step), q, id)
    ensures p == q
  {
    assert Covered(w, PassOf(w, p)) && Covered(w, PassOf(w, q));
    assert Sends(w, p, id) && Sends(w, q, id) ==> p == q;
  }

  lemma FinalStep(w: World, step: Step, id: Id)
    requires Leased(w) && Enabled(w, step)
    requires id in w.jobs && Final(w.jobs[id].state)
    ensures id in Next(w, step).jobs && Next(w, step).jobs[id] == w.jobs[id]
  {
  }

  /** A step taken while every send is in time leaves every send covered by its lease. */
  lemma LeasedStep(w: World, step: Step)
    requires Leased(w) && Timely(w) && Enabled(w, step)
    ensures Leased(Next(w, step))
  {
    var after := Next(w, step);
    ClockedStep(w, step);
    forall q ensures Covered(after, PassOf(after, q)) {
      CoveredStep(w, step, q);
    }
    forall p, q, id | Sends(after, p, id) && Sends(after, q, id) ensures p == q {
      AloneStep(w, step, p, q, id);
    }
  }

  /** Timely at every state of the run. */
  ghost predicate AlwaysTimely(first: World, steps: seq<Step>)
    decreases |steps|
  {
    Timely(first) && (steps != [] && Enabled(first, steps[0]) ==> AlwaysTimely(Next(first, steps[0]), steps[1..]))
  }

  /** As long as every send ends within 120 seconds of its pass's clock, over any run of
      any number of processes no job is sent by two at once and a job that was accepted,
      failed, expired or superseded stays as it is. */
  lemma {:induction false} TimelyProcessesKeepLeases(first: World, steps: seq<Step>, last: World)
    requires Leased(first) && Runs(first, steps, last) && AlwaysTimely(first, steps)
    ensures Leased(last)
    ensures forall p, q, id :: Sends(last, p, id) && Sends(last, q, id) ==> p == q
    ensures forall id :: id in first.jobs && Final(first.jobs[id].state) ==>
      id in last.jobs && last.jobs[id] == first.jobs[id]
    decreases |steps|
  {
    if steps == [] {
    } else {
      var mid := Next(first, steps[0]);
      LeasedStep(first, steps[0]);
      forall id | id in first.jobs && Final(first.jobs[id].state)
        ensures id in mid.jobs && mid.jobs[id] == first.jobs[id] {
        FinalStep(first, steps[0], id);
      }
      TimelyProcessesKeepLeases(mid, steps[1..], last);
    }
  }

  lemma {:induction false} RunsOn(first: World, steps: seq<Step>, mid: World, step: Step)
    returns (longer: seq<Step>, last: World)
    requires Runs(first, steps, mid) && Enabled(mid, step)
    ensures longer == steps + [step] && last == Next(mid, step) && Runs(first, longer, last)
    decreases |steps|
  {
    longer, last := steps + [step], Next(mid, step);
    if steps != [] {
      var rest, _ := RunsOn(Next(first, steps[0]), steps[1..], mid, step);
      assert longer[1..] == rest;
    } else {
      assert longer[1..] == [];
    }
  }

  // ---- one process -------------------------------------------------------------

  /** What a pick still promises about its row when its turn comes. */
  predicate Current(w: World, pass: Pass, pick: Pick)
    requires !pass.Idle?
  {
    && pick.id in w.jobs
    && w.jobs[pick.id].attempts == pick.attempts
    && w.jobs[pick.id].expires > pass.now
    && pick.id !in pass.sent
  }

  predicate DistinctPicks(queue: seq<Pick>) {
    forall i, j :: 0 <= i < j < |queue| ==> queue[i].id != queue[j].id
  }

  predicate InFlight(w: World, pass: Pass)
    requires pass.Delivering?
  {
    && Covered(w, pass)
    && w.jobs[pass.pick.id].attempts == pass.pick.attempts
    && w.jobs[pass.pick.id].expires > pass.now
    && pass.pick.id in pass.sent
  }

  predicate Bounded(job: Job) {
    job.attempts <= 5 && (job.state == Queued || job.state == Sending ==> job.attempts <= 4)
  }

  /** Nothing sent in this pass is due again in it. */
  predicate Done(w: World, pass: Pass, id: Id)
    requires !pass.Idle?
  {
    id in w.jobs && (Final(w.jobs[id].state) || w.jobs[id].nextAttempt > pass.now)
  }

  ghost predicate Settled(w: World, pass: Pass) {
    !pass.Idle? ==>
      && DistinctPicks(pass.queue)
      && (forall i :: 0 <= i < |pass.queue| ==> Current(w, pass, pass.queue[i]))
      && (forall id :: id in pass.sent ==> Done(w, pass, id))
      && (pass.Delivering? ==> InFlight(w, pass))
  }

  /** Invariant of the only process p. Tests are queued by the web handler meanwhile. */
  ghost predicate Solo(w: World, p: Process) {
    && (forall q :: q in w.passes && q != p ==> w.passes[q].Idle?)
    && (forall id :: id in w.jobs ==> Bounded(w.jobs[id]))
    && Settled(w, PassOf(w, p))
  }

  predicate By(step: Step, p: Process) {
    step.Tick? || step.InsertTest? || step.p == p
  }

  lemma InsertKeepsSolo(w: World, step: Step, p: Process)
    requires Solo(w, p) && Enabled(w, step) && By(step, p)
    requires step.InsertAlert? || step.InsertTest? || step.Tick?
    ensures Solo(Next(w, step), p)
  {
  }

  lemma SweepKeepsSolo(w: World, step: Step, p: Process)
    requires Solo(w, p) && Enabled(w, step) && By(step, p)
    requires step.Expire? || step.Reclaim?
    ensures Solo(Next(w, step), p)
  {
  }

  lemma SelectKeepsSolo(w: World, p: Process, picks: seq<Pick>)
    requires Solo(w, p) && Enabled(w, Select(p, picks))
    ensures Solo(Next(w, Select(p, picks)), p)
  {
  }

  lemma SupersedeKeepsSolo(w: World, p: Process)
    requires Solo(w, p) && Enabled(w, Supersede(p))
    ensures Solo(Next(w, Supersede(p)), p)
  {
  }

  /** A job of the queue has not been sent in this pass. */
  lemma LeaseKeepsSolo(w: World, p: Process)
    requires Solo(w, p) && Enabled(w, Lease(p))
    ensures Solo(Next(w, Lease(p)), p)
    ensures PassOf(w, p).queue[0].id !in PassOf(w, p).sent
    ensures PassOf(w, p).queue[0].id in w.jobs && w.jobs[PassOf(w, p).queue[0].id].expires > PassOf(w, p).now
  {
  }

  lemma FinishKeepsSolo(w: World, p: Process, answer: Answer)
    requires Solo(w, p) && Enabled(w, Finish(p, answer))
    ensures Solo(Next(w, Finish(p, answer)), p)
  {
  }

  lemma SoloStep(w: World, step: Step, p: Process)
    requires Solo(w, p) && Enabled(w, step) && By(step, p)
    ensures Solo(Next(w, step), p)
  {
    match step {
      case Select(_, picks) => SelectKeepsSolo(w, p, picks);
      case Lease(_) => LeaseKeepsSolo(w, p);
      case Finish(_, answer) => FinishKeepsSolo(w, p, answer);
      case Supersede(_) => SupersedeKeepsSolo(w, p);
      case Expire(_) => SweepKeepsSolo(w, step, p);
      case Reclaim(_) => SweepKeepsSolo(w, step, p);
      case Tick(_) => InsertKeepsSolo(w, step, p);
      case InsertAlert(_, _, _, _, _) => InsertKeepsSolo(w, step, p);
      case InsertTest(_, _) => InsertKeepsSolo(w, step, p);
      case _ =>
    }
  }

  lemma SoloFinal(w: World, step: Step, p: Process, id: Id)
    requires Solo(w, p) && Enabled(w, step) && By(step, p)
    requires id in w.jobs && Final(w.jobs[id].state)
    ensures id in Next(w, step).jobs && Next(w, step).jobs[id] == w.jobs[id]
  {
  }

  /** Over every run of one process, with crashes anywhere: one row per device and alert,
      at most five attempts of which a row still to be sent has used at most four, and
      final rows stay as they are. */
  lemma {:induction false} OneProcessRun(first: World, steps: seq<Step>, last: World, p: Process)
    requires Solo(first, p) && Unique(first) && Runs(first, steps, last)
    requires forall i :: 0 <= i < |steps| ==> By(steps[i], p)
    ensures Solo(last, p) && Unique(last)
    ensures forall id :: id in last.jobs ==> last.jobs[id].attempts <= 5
    ensures forall id :: id in last.jobs && last.jobs[id].attempts == 5 ==> Final(last.jobs[id].state)
    ensures forall id :: id in first.jobs && Final(first.jobs[id].state) ==>
      id in last.jobs && last.jobs[id] == first.jobs[id]
    decreases |steps|
  {
    if steps != [] {
      var mid := Next(first, steps[0]);
      assert By(steps[0], p);
      SoloStep(first, steps[0], p);
      UniqueStep(first, steps[0]);
      forall id | id in first.jobs && Final(first.jobs[id].state)
        ensures id in mid.jobs && mid.jobs[id] == first.jobs[id] {
        SoloFinal(first, steps[0], p, id);
      }
      OneProcessRun(mid, steps[1..], last, p);
    } else {
      assert forall id :: id in last.jobs ==> Bounded(last.jobs[id]);
    }
  }

  lemma StartsSolo(p: Process)
    ensures Solo(EMPTY, p) && Unique(EMPTY) && Leased(EMPTY)
  {
  }

  predicate TakesLease(w: World, step: Step, id: Id) {
    step.Lease? && PassOf(w, step.p).Working? && PassOf(w, step.p).queue != []
    && PassOf(w, step.p).queue[0].id == id && id in w.jobs && w.jobs[id].state == Queued
  }

  /** How often the run starts sending the job. */
  ghost function SendsOf(first: World, steps: seq<Step>, id: Id): nat
    decreases |steps|
  {
    if steps == [] || !Enabled(first, steps[0]) then 0
    else (if TakesLease(first, steps[0], id) then 1 else 0) + SendsOf(Next(first, steps[0]), steps[1..], id)
  }

  /** No job is sent twice in a pass. */
  lemma {:induction false} SentOncePerPass(first: World, steps: seq<Step>, last: World, p: Process, id: Id)
    requires Solo(first, p) && Runs(first, steps, last)
    requires forall i :: 0 <= i < |steps| ==> By(steps[i], p)
    requires !PassOf(first, p).Idle?
    requires forall i :: 0 <= i < |steps| ==> !steps[i].End? && !steps[i].Crash?
    ensures SendsOf(first, steps, id) <= 1
    ensures id in PassOf(first, p).sent ==> SendsOf(first, steps, id) == 0
    decreases |steps|
  {
    if steps == [] {
    } else {
      var mid := Next(first, steps[0]);
      assert By(steps[0], p) && !steps[0].End? && !steps[0].Crash?;
      SoloStep(first, steps[0], p);
      if steps[0].Lease? {
        LeaseKeepsSolo(first, p);
      }
      SentOncePerPass(mid, steps[1..], last, p, id);
    }
  }

  // ---- a whole pass of deliver ---------------------------------------------

  /** A triggered alert the device may see. */
  datatype Notice = Notice(alert: string, triggered: int)

  /** There is always another row id to draw. */
  lemma {:induction false} LongId(ids: set<Id>) returns (id: Id)
    ensures forall other :: other in ids ==> |other| < |id|
  {
    if ids == {} {
      id := "0";
    } else {
      var x :| x in ids;
      var rest := LongId(ids - {x});
      id := if |x| < |rest| then rest else "0" + x;
      assert forall other :: other in ids ==> other == x || other in ids - {x};
    }
  }

  ghost predicate AllBy(steps: seq<Step>, p: Process) {
    forall i :: 0 <= i < |steps| ==> By(steps[i], p)
  }

  predicate GoneHeard(step: Step) {
    step.Finish? && step.answer.Gone?
  }

  ghost predicate HearsGone(steps: seq<Step>) {
    exists i :: 0 <= i < |steps| && GoneHeard(steps[i])
  }

  /** The device is disabled exactly when an answer said that it is gone, and to a disabled
      device nothing is sent. */
  ghost predicate Told(steps: seq<Step>, device: string, was: set<string>, enabled: set<string>) {
    && enabled == (if HearsGone(steps) then was - {device} else was)
    && (forall i, j :: 0 <= i < j < |steps| && GoneHeard(steps[i]) ==> !steps[j].Lease?)
    && (device !in was ==> forall i :: 0 <= i < |steps| ==> !steps[i].Lease?)
  }

  lemma ToldMore(steps: seq<Step>, step: Step, device: string, was: set<string>, enabled: set<string>)
    requires Told(steps, device, was, enabled) && (step.Lease? ==> device in enabled)
    ensures Told(steps + [step], device, was, if GoneHeard(step) then enabled - {device} else enabled)
  {
    var longer := steps + [step];
    assert longer[|steps|] == step && forall i :: 0 <= i < |steps| ==> longer[i] == steps[i];
  }

  // ---- what a pass makes of the rows -----------------------------------------

  type Rows = map<Id, Job>

  /** Waiting or under way, with its time come and not yet over. */
  predicate Due(job: Job, now: int) {
    (job.state == Queued || job.state == Sending) && job.nextAttempt <= now < job.expires
  }

  /** What becomes of a queued row: sent once and settled by the answer, or superseded. */
  predicate SettledBy(was: Job, row: Job, picked: nat, sends: bool, answer: Answer, now: int) {
    if !sends then row == was.(state := Superseded)
    else
      && row.device == was.device && row.alert == was.alert && row.expires == was.expires
      && row.attempts == was.attempts + 1
      && row.nextAttempt == now + [60, 120, 240, 480, 960, 1920][if picked < 5 then picked else 5]
      && (answer.Delivered? ==> row.state == Accepted)
      && (answer.Gone? ==> row.state == Failed)
      && (answer.Unreachable? ==> row.state == if picked >= 4 then Failed else Queued)
  }

  /** One pick was handled: its row, if it was still queued, and nothing else. */
  ghost predicate Handled(before: Rows, after: Rows, pick: Pick, sends: bool, answer: Answer, now: int) {
    && after.Keys == before.Keys
    && (forall id :: id in before && (id != pick.id || before[id].state != Queued) ==> after[id] == before[id])
    && (pick.id in before && before[pick.id].state == Queued ==>
         SettledBy(before[pick.id], after[pick.id], pick.attempts, sends, answer, now))
  }

  /** The answer says that the device is gone. */
  predicate SaysGone(rows: Rows, id: Id, permitted: Id -> bool, answer: Id -> Answer) {
    id in rows && rows[id].state == Queued && permitted(id) && answer(id).Gone?
  }

  ghost predicate GoneAmong(rows: Rows, picks: seq<Pick>, permitted: Id -> bool, answer: Id -> Answer) {
    exists j :: 0 <= j < |picks| && SaysGone(rows, picks[j].id, permitted, answer)
  }

  ghost predicate PickedAmong(picks: seq<Pick>, id: Id) {
    exists k :: 0 <= k < |picks| && picks[k].id == id
  }

  /** The picks were handled in order: a row still queued is sent if the device was enabled
      and no answer before said that it is gone, and if its alert is still permitted; else it
      is superseded. All other rows stay as they are. */
  ghost predicate QueueHandled(before: Rows, after: Rows, picks: seq<Pick>, active: bool, permitted: Id -> bool,
                               answer: Id -> Answer, now: int)
  {
    && after.Keys == before.Keys
    && (forall id :: id in before && (!PickedAmong(picks, id) || before[id].state != Queued) ==> after[id] == before[id])
    && (forall k :: 0 <= k < |picks| && picks[k].id in before && before[picks[k].id].state == Queued ==>
         SettledBy(before[picks[k].id], after[picks[k].id], picks[k].attempts,
                   active && permitted(picks[k].id) && !GoneAmong(before, picks[..k], permitted, answer),
                   answer(picks[k].id), now))
  }

  lemma SupersedeHandled(w: World, p: Process, answer: Answer)
    requires Enabled(w, Supersede(p))
    ensures Handled(w.jobs, Next(w, Supersede(p)).jobs, PassOf(w, p).queue[0], false, answer, PassOf(w, p).now)
  {
  }

  lemma SendHandled(w: World, p: Process, answer: Answer)
    requires Enabled(w, Lease(p))
    ensures var mid, pick := Next(w, Lease(p)), PassOf(w, p).queue[0];
      if PassOf(mid, p).Delivering?
      then pick.id in w.jobs && w.jobs[pick.id].state == Queued && Enabled(mid, Finish(p, answer))
           && Handled(w.jobs, Next(mid, Finish(p, answer)).jobs, pick, true, answer, PassOf(w, p).now)
      else (pick.id !in w.jobs || w.jobs[pick.id].state != Queued) && mid.jobs == w.jobs
  {
    var pick, mid := PassOf(w, p).queue[0], Next(w, Lease(p));
    if PassOf(mid, p).Delivering? {
      assert Next(mid, Finish(p, answer)).jobs[pick.id]
        == AfterSend(mid.jobs[pick.id], pick.attempts, answer, PassOf(w, p).now);
    }
  }

  lemma GoneNext(rows: Rows, picks: seq<Pick>, k: nat, permitted: Id -> bool, answer: Id -> Answer)
    requires k < |picks|
    ensures GoneAmong(rows, picks[..k + 1], permitted, answer) <==>
      GoneAmong(rows, picks[..k], permitted, answer) || SaysGone(rows, picks[k].id, permitted, answer)
  {
    assert picks[..k + 1] == picks[..k] + [picks[k]];
    if GoneAmong(rows, picks[..k], permitted, answer) {
      var j :| 0 <= j < k && SaysGone(rows, picks[..k][j].id, permitted, answer);
      assert picks[..k + 1][j] == picks[..k][j];
    }
    if SaysGone(rows, picks[k].id, permitted, answer) {
      assert picks[..k + 1][k] == picks[k];
    }
  }

  lemma HandledNext(before: Rows, mid: Rows, after: Rows, picks: seq<Pick>, k: nat, active: bool, permitted: Id -> bool,
                    answer: Id -> Answer, now: int)
    requires k < |picks| && DistinctPicks(picks)
    requires QueueHandled(before, mid, picks[..k], active, permitted, answer, now)
    requires Handled(mid, after, picks[k],
      active && permitted(picks[k].id) && !GoneAmong(before, picks[..k], permitted, answer), answer(picks[k].id), now)
    ensures QueueHandled(before, after, picks[..k + 1], active, permitted, answer, now)
    ensures picks[k].id in before ==> picks[k].id in mid && mid[picks[k].id] == before[picks[k].id]
  {
    var longer := picks[..k + 1];
    assert !PickedAmong(picks[..k], picks[k].id);
    forall id | id in before && !PickedAmong(longer, id) ensures after[id] == before[id] {
      assert longer[k] == picks[k];
      assert forall j :: 0 <= j < k ==> longer[j] == picks[..k][j];
      assert !PickedAmong(picks[..k], id);
    }
    forall j | 0 <= j < |longer| && longer[j].id in before && before[longer[j].id].state == Queued
      ensures SettledBy(before[longer[j].id], after[longer[j].id], longer[j].attempts,
        active && permitted(longer[j].id) && !GoneAmong(before, longer[..j], permitted, answer), answer(longer[j].id), now)
    {
      assert longer[..j] == picks[..j] && longer[j] == picks[j];
      if j < k {
        assert picks[..k][..j] == picks[..j] && picks[..k][j] == picks[j];
        assert mid[picks[j].id] == after[picks[j].id];
      }
    }
  }

  predicate TakenIn(rows: Rows, device: string, alert: string) {
    exists id :: id in rows && rows[id].device == device && rows[id].alert == alert
  }

  predicate Fresh(rows: Rows, device: string, notice: Notice, now: int) {
    notice.triggered + 3600 >= now && !TakenIn(rows, device, notice.alert)
  }

  ghost predicate NewRow(before: Rows, device: string, notices: seq<Notice>, now: int, row: Job) {
    exists i ::
      && 0 <= i < |notices| && Fresh(before, device, notices[i], now)
      && row == Job(device, notices[i].alert, Queued, 0, now, notices[i].triggered + 3600)
  }

  /** Every alert that is not too old has its row. */
  ghost predicate AllTaken(rows: Rows, device: string, notices: seq<Notice>, now: int) {
    forall i :: 0 <= i < |notices| && notices[i].triggered + 3600 >= now ==> TakenIn(rows, device, notices[i].alert)
  }

  /** The rows that notices add: due at once, and for an hour from when the alert triggered.
      An alert that has its row, or is older than that, gets none. */
  ghost predicate Noticed(before: Rows, after: Rows, device: string, notices: seq<Notice>, now: int) {
    && (forall id :: id in before ==> id in after && after[id] == before[id])
    && |after| <= |before| + |notices|
    && (forall id :: id in after && id !in before ==> NewRow(before, device, notices, now, after[id]))
    && AllTaken(after, device, notices, now)
  }

  lemma NewRowStays(before: Rows, device: string, notices: seq<Notice>, k: nat, now: int, row: Job)
    requires k < |notices| && NewRow(before, device, notices[..k], now, row)
    ensures NewRow(before, device, notices[..k + 1], now, row)
  {
    var i :| 0 <= i < k && Fresh(before, device, notices[..k][i], now)
      && row == Job(device, notices[..k][i].alert, Queued, 0, now, notices[..k][i].triggered + 3600);
    assert notices[..k + 1][i] == notices[..k][i];
  }

  lemma TakenStays(mid: Rows, after: Rows, device: string)
    requires forall id :: id in mid ==> id in after && after[id] == mid[id]
    ensures forall alert :: TakenIn(mid, device, alert) ==> TakenIn(after, device, alert)
  {
    forall alert | TakenIn(mid, device, alert) ensures TakenIn(after, device, alert) {
      var id :| id in mid && mid[id].device == device && mid[id].alert == alert;
      assert after[id] == mid[id];
    }
  }

  /** One notice more: its row, unless it is too old or has one. */
  ghost predicate NoticeAdded(mid: Rows, after: Rows, device: string, notice: Notice, now: int, id: Id) {
    && id !in mid
    && after == if Fresh(mid, device, notice, now)
                then mid[id := Job(device, notice.alert, Queued, 0, now, notice.triggered + 3600)] else mid
  }

  lemma NoticeTaken(mid: Rows, after: Rows, device: string, notice: Notice, now: int, id: Id)
    requires NoticeAdded(mid, after, device, notice, now, id)
    ensures notice.triggered + 3600 >= now ==> TakenIn(after, device, notice.alert)
    ensures forall alert :: TakenIn(mid, device, alert) ==> TakenIn(after, device, alert)
  {
    if Fresh(mid, device, notice, now) {
      assert after[id].device == device && after[id].alert == notice.alert;
    }
    TakenStays(mid, after, device);
  }

  lemma NoticeRows(before: Rows, mid: Rows, after: Rows, device: string, notices: seq<Notice>, k: nat, now: int, id: Id)
    requires k < |notices| && Noticed(before, mid, device, notices[..k], now)
    requires NoticeAdded(mid, after, device, notices[k], now, id)
    ensures forall x :: x in after && x !in before ==> NewRow(before, device, notices[..k + 1], now, after[x])
  {
    forall x | x in after && x !in before ensures NewRow(before, device, notices[..k + 1], now, after[x]) {
      if x in mid {
        NewRowStays(before, device, notices, k, now, mid[x]);
      } else {
        TakenStays(before, mid, device);
        assert notices[..k + 1][k] == notices[k] && Fresh(before, device, notices[..k + 1][k], now);
      }
    }
  }

  lemma AllTakenNext(mid: Rows, after: Rows, device: string, notices: seq<Notice>, k: nat, now: int, id: Id)
    requires k < |notices| && AllTaken(mid, device, notices[..k], now) && NoticeAdded(mid, after, device, notices[k], now, id)
    ensures AllTaken(after, device, notices[..k + 1], now)
  {
    var longer := notices[..k + 1];
    NoticeTaken(mid, after, device, notices[k], now, id);
    assert longer[k] == notices[k] && forall i :: 0 <= i < k ==> longer[i] == notices[..k][i];
  }

  lemma NoticedNext(before: Rows, mid: Rows, after: Rows, device: string, notices: seq<Notice>, k: nat, now: int, id: Id)
    requires k < |notices| && Noticed(before, mid, device, notices[..k], now)
    requires NoticeAdded(mid, after, device, notices[k], now, id)
    ensures Noticed(before, after, device, notices[..k + 1], now)
  {
    NoticeRows(before, mid, after, device, notices, k, now, id);
    AllTakenNext(mid, after, device, notices, k, now, id);
  }

  /** A pass first expires what waited too long, then takes back what was under way when its
      lease ended. */
  ghost predicate Swept(before: Rows, after: Rows, now: int) {
    && after.Keys == before.Keys
    && forall id :: id in before ==> SweptRow(before[id], after[id], now)
  }

  predicate SweptRow(was: Job, row: Job, now: int) {
    if was.state == Queued && was.expires <= now then row == was.(state := Expired)
    else if was.state == Sending && was.nextAttempt <= now then row == was.(state := Queued)
    else row == was
  }

  lemma SweepsRows(w: World, p: Process)
    requires PassOf(w, p).Working? && PassOf(w, p).queue == []
    ensures var mid := Next(w, Expire(p));
      Swept(w.jobs, Next(mid, Reclaim(p)).jobs, PassOf(w, p).now) && PassOf(Next(mid, Reclaim(p)), p) == PassOf(w, p)
  {
  }

  /** The rows of the device that are due. */
  function DueRows(rows: Rows, device: string, now: int): set<Id> {
    set id | id in rows && rows[id].device == device && Due(rows[id], now)
  }

  /** No row of the device is answered that the device is gone. */
  ghost predicate StaysThere(rows: Rows, device: string, answer: Id -> Answer) {
    forall id :: id in rows && rows[id].device == device ==> !answer(id).Gone?
  }

  /** A visit to a device settles its due rows, at most twenty of them, and only sweeps the
      others. With fewer than twenty due all are settled, in as far as the device stays there. */
  ghost predicate Visited(before: Rows, after: Rows, device: string, notices: seq<Notice>, active: bool,
                          permitted: Id -> bool, answer: Id -> Answer, now: int)
  {
    && (forall id :: id in before ==> id in after)
    && (forall id :: id in after && id !in before ==> after[id].device == device)
    && (forall id :: id in before && !(before[id].device == device && Due(before[id], now)) ==>
         SweptRow(before[id], after[id], now))
    && (forall id :: id in before && before[id].device == device && Due(before[id], now) ==>
         after[id] == before[id].(state := Queued)
         || exists sends :: SettledBy(before[id].(state := Queued), after[id], before[id].attempts, sends, answer(id), now))
    && (active && |DueRows(before, device, now)| + |notices| < 20 && StaysThere(after, device, answer) ==>
         forall id :: id in DueRows(before, device, now) ==>
           SettledBy(before[id].(state := Queued), after[id], before[id].attempts, permitted(id), answer(id), now))
  }

  ghost predicate DuePicks(rows: Rows, picks: seq<Pick>, device: string, now: int) {
    && DistinctPicks(picks)
    && (forall i :: 0 <= i < |picks| ==>
         && picks[i].id in rows && rows[picks[i].id].device == device
         && Ready(rows[picks[i].id], now) && picks[i].attempts == rows[picks[i].id].attempts)
    && (|picks| < 20 ==> forall id :: id in rows && rows[id].device == device && Ready(rows[id], now) ==> PickedAmong(picks, id))
  }

  /** A row the visit does not settle. */
  lemma VisitSweeps(before: Rows, noticed: Rows, swept: Rows, after: Rows, device: string, notices: seq<Notice>,
                    picks: seq<Pick>, active: bool, permitted: Id -> bool, answer: Id -> Answer, now: int, id: Id)
    requires Noticed(before, noticed, device, notices, now) && Swept(noticed, swept, now)
    requires DuePicks(swept, picks, device, now) && QueueHandled(swept, after, picks, active, permitted, answer, now)
    requires id in before
    ensures id in after
    ensures !(before[id].device == device && Due(before[id], now)) ==> SweptRow(before[id], after[id], now)
    ensures before[id].device == device && Due(before[id], now) ==>
      && swept[id] == before[id].(state := Queued)
      && (PickedAmong(picks, id) ==>
           exists sends :: SettledBy(swept[id], after[id], before[id].attempts, sends, answer(id), now))
      && (!PickedAmong(picks, id) ==> after[id] == swept[id])
  {
    assert id in noticed && noticed[id] == before[id] && SweptRow(before[id], swept[id], now);
    if k :| 0 <= k < |picks| && picks[k].id == id {
      assert Ready(swept[picks[k].id], now);
    }
  }

  lemma {:induction false} PickedSize(picks: seq<Pick>, ids: set<Id>)
    requires DistinctPicks(picks) && forall i :: 0 <= i < |picks| ==> picks[i].id in ids
    ensures |picks| <= |ids|
    decreases |picks|
  {
    if picks == [] {
    } else {
      var n := |picks| - 1;
      PickedSize(picks[..n], ids - {picks[n].id});
    }
  }

  /** Fewer than twenty due rows are all picked. */
  lemma FewAllPicked(before: Rows, noticed: Rows, swept: Rows, device: string, notices: seq<Notice>, picks: seq<Pick>, now: int)
    requires Noticed(before, noticed, device, notices, now) && Swept(noticed, swept, now)
    requires DuePicks(swept, picks, device, now) && |DueRows(before, device, now)| + |notices| < 20
    ensures |picks| < 20
  {
    var due, new_ := DueRows(before, device, now), noticed.Keys - before.Keys;
    assert noticed.Keys == before.Keys + new_;
    assert |noticed.Keys| == |before.Keys| + |new_|;
    forall i | 0 <= i < |picks| ensures picks[i].id in due + new_ {
      var id := picks[i].id;
      if id in before {
        assert SweptRow(before[id], swept[id], now);
      }
    }
    PickedSize(picks, due + new_);
  }

  lemma VisitSettles(before: Rows, noticed: Rows, swept: Rows, after: Rows, device: string, notices: seq<Notice>,
                     picks: seq<Pick>, permitted: Id -> bool, answer: Id -> Answer, now: int, id: Id)
    requires Noticed(before, noticed, device, notices, now) && Swept(noticed, swept, now)
    requires DuePicks(swept, picks, device, now) && QueueHandled(swept, after, picks, true, permitted, answer, now)
    requires |DueRows(before, device, now)| + |notices| < 20 && StaysThere(after, device, answer)
    requires id in DueRows(before, device, now)
    ensures SettledBy(before[id].(state := Queued), after[id], before[id].attempts, permitted(id), answer(id), now)
  {
    FewAllPicked(before, noticed, swept, device, notices, picks, now);
    assert noticed[id] == before[id] && SweptRow(before[id], swept[id], now);
    assert Ready(swept[id], now);
    var k :| 0 <= k < |picks| && picks[k].id == id;
    NoneSaysGone(swept, after, picks, device, true, permitted, answer, now, k);
  }

  lemma NoneSaysGone(swept: Rows, after: Rows, picks: seq<Pick>, device: string, active: bool, permitted: Id -> bool,
                     answer: Id -> Answer, now: int, k: nat)
    requires DuePicks(swept, picks, device, now) && QueueHandled(swept, after, picks, active, permitted, answer, now)
    requires StaysThere(after, device, answer) && k <= |picks|
    ensures !GoneAmong(swept, picks[..k], permitted, answer)
  {
    forall j | 0 <= j < k ensures !answer(picks[..k][j].id).Gone? {
      var id := picks[j].id;
      assert id in swept && swept[id].device == device;
      assert PickedAmong(picks, id);
      assert after[id].device == device;
    }
  }

  lemma VisitDone(before: Rows, noticed: Rows, swept: Rows, after: Rows, device: string, notices: seq<Notice>,
                  picks: seq<Pick>, active: bool, permitted: Id -> bool, answer: Id -> Answer, now: int)
    requires Noticed(before, noticed, device, notices, now) && Swept(noticed, swept, now)
    requires DuePicks(swept, picks, device, now) && QueueHandled(swept, after, picks, active, permitted, answer, now)
    ensures Visited(before, after, device, notices, active, permitted, answer, now)
    ensures StaysThere(after, device, answer) ==> !GoneAmong(swept, picks, permitted, answer)
  {
    forall id | id in after && id !in before ensures after[id].device == device {
      assert NewRow(before, device, notices, now, noticed[id]) && SweptRow(noticed[id], swept[id], now);
      assert PickedAmong(picks, id) ==> after[id].device == swept[id].device;
    }
    forall id | id in before
      ensures id in after
      ensures !(before[id].device == device && Due(before[id], now)) ==> SweptRow(before[id], after[id], now)
      ensures before[id].device == device && Due(before[id], now) ==>
        after[id] == before[id].(state := Queued)
        || exists sends :: SettledBy(before[id].(state := Queued), after[id], before[id].attempts, sends, answer(id), now)
    {
      VisitSweeps(before, noticed, swept, after, device, notices, picks, active, permitted, answer, now, id);
    }
    if active && |DueRows(before, device, now)| + |notices| < 20 && StaysThere(after, device, answer) {
      forall id | id in DueRows(before, device, now)
        ensures SettledBy(before[id].(state := Queued), after[id], before[id].attempts, permitted(id), answer(id), now)
      {
        VisitSettles(before, noticed, swept, after, device, notices, picks, permitted, answer, now, id);
      }
    }
    if StaysThere(after, device, answer) {
      assert picks[..|picks|] == picks;
      NoneSaysGone(swept, after, picks, device, active, permitted, answer, now, |picks|);
    }
  }

  /** A row of a device whose turn has not come: at most swept. */
  predicate Waits(was: Job, row: Job, now: int) {
    && row.(state := was.state) == was
    && (Final(was.state) ==> row == was)
    && (Due(was, now) ==> row == was || row == was.(state := Queued))
  }

  predicate Few(rows: Rows, device: string, notices: seq<Notice>, now: int) {
    |DueRows(rows, device, now)| + |notices| < 20
  }

  /** The row is due, its device enabled and there to stay, and fewer than twenty are due for it. */
  ghost predicate Certain(first: Rows, rows: Rows, id: Id, was: set<string>, notices: string -> seq<Notice>,
                          answer: Id -> Answer, now: int)
    requires id in first
  {
    var device := first[id].device;
    && Due(first[id], now) && device in was
    && Few(first, device, notices(device), now) && StaysThere(rows, device, answer)
  }

  /** What holds of the rows once these devices are visited. */
  ghost predicate PassedTo(first: Rows, rows: Rows, visited: seq<string>, was: set<string>, notices: string -> seq<Notice>,
                           permitted: Id -> bool, answer: Id -> Answer, now: int)
  {
    && (forall id :: id in first ==> id in rows && rows[id].device == first[id].device)
    && (forall id :: id in rows && id !in first ==> rows[id].device in visited)
    && (forall id :: id in first && first[id].device !in visited ==> Waits(first[id], rows[id], now))
    && (forall id :: id in first && first[id].device in visited && Certain(first, rows, id, was, notices, answer, now) ==>
         SettledBy(first[id].(state := Queued), rows[id], first[id].attempts, permitted(id), answer(id), now))
  }

  lemma SameDue(first: Rows, rows: Rows, visited: seq<string>, was: set<string>, notices: string -> seq<Notice>,
                permitted: Id -> bool, answer: Id -> Answer, now: int, device: string)
    requires PassedTo(first, rows, visited, was, notices, permitted, answer, now) && device !in visited
    ensures DueRows(rows, device, now) == DueRows(first, device, now)
  {
    forall id ensures id in DueRows(rows, device, now) <==> id in DueRows(first, device, now) {
    }
  }

  /** A row settled in this pass is left alone for the rest of it. */
  lemma SettledStays(was: Job, row: Job, picked: nat, sends: bool, answer: Answer, now: int, after: Job)
    requires SettledBy(was, row, picked, sends, answer, now) && was.state == Queued && was.expires > now
    ensures !Due(row, now) && (SweptRow(row, after, now) ==> after == row)
  {
  }

  lemma VisitKeepsDevice(mid: Rows, after: Rows, device: string, notices: seq<Notice>, active: bool,
                         permitted: Id -> bool, answer: Id -> Answer, now: int)
    requires Visited(mid, after, device, notices, active, permitted, answer, now)
    ensures forall id :: id in mid ==> id in after && after[id].device == mid[id].device
    ensures forall d :: StaysThere(after, d, answer) ==> StaysThere(mid, d, answer)
  {
    forall id | id in mid ensures after[id].device == mid[id].device {
      assert SweptRow(mid[id], after[id], now) ==> after[id].device == mid[id].device;
    }
    forall d | StaysThere(after, d, answer) ensures StaysThere(mid, d, answer) {
      forall id | id in mid && mid[id].device == d ensures !answer(id).Gone? {
        assert after[id].device == d;
      }
    }
  }

  lemma PassNextRow(first: Rows, mid: Rows, after: Rows, visited: seq<string>, was: set<string>, notices: string -> seq<Notice>,
                    active: bool, permitted: Id -> bool, answer: Id -> Answer, now: int, device: string, id: Id)
    requires PassedTo(first, mid, visited, was, notices, permitted, answer, now)
    requires Visited(mid, after, device, notices(device), active, permitted, answer, now)
    requires device !in visited && device in was ==> active
    requires id in first && (first[id].device in visited || first[id].device == device)
    requires Certain(first, after, id, was, notices, answer, now)
    ensures SettledBy(first[id].(state := Queued), after[id], first[id].attempts, permitted(id), answer(id), now)
  {
    VisitKeepsDevice(mid, after, device, notices(device), active, permitted, answer, now);
    if first[id].device in visited {
      assert StaysThere(mid, first[id].device, answer);
      SettledStays(first[id].(state := Queued), mid[id], first[id].attempts, permitted(id), answer(id), now, after[id]);
    } else {
      SameDue(first, mid, visited, was, notices, permitted, answer, now, device);
      assert id in DueRows(first, device, now);
      assert Waits(first[id], mid[id], now);
    }
  }

  lemma PassNext(first: Rows, mid: Rows, after: Rows, visited: seq<string>, was: set<string>, notices: string -> seq<Notice>,
                 active: bool, permitted: Id -> bool, answer: Id -> Answer, now: int, device: string)
    requires PassedTo(first, mid, visited, was, notices, permitted, answer, now)
    requires Visited(mid, after, device, notices(device), active, permitted, answer, now)
    requires device !in visited && device in was ==> active
    ensures PassedTo(first, after, visited + [device], was, notices, permitted, answer, now)
  {
    VisitKeepsDevice(mid, after, device, notices(device), active, permitted, answer, now);
    forall id | id in first && first[id].device !in visited + [device] ensures Waits(first[id], after[id], now) {
      assert Waits(first[id], mid[id], now) && SweptRow(mid[id], after[id], now);
    }
    forall id | id in first && first[id].device in visited + [device] && Certain(first, after, id, was, notices, answer, now)
      ensures SettledBy(first[id].(state := Queued), after[id], first[id].attempts, permitted(id), answer(id), now)
    {
      PassNextRow(first, mid, after, visited, was, notices, active, permitted, answer, now, device, id);
    }
  }

  /** The database as one process p sees it. Each statement of a pass is a step of the
      state machine, so what is proved of runs holds of passes. */
  class Database {
    var world: World
    var enabled: set<string>
    const p: Process

    constructor (p: Process, enabled: set<string>)
      ensures world == EMPTY && this.enabled == enabled && this.p == p
    {
      world, this.enabled, this.p := EMPTY, enabled, p;
    }

    method Perform(ghost before: World, ghost steps: seq<Step>, step: Step) returns (ghost longer: seq<Step>)
      requires Runs(before, steps, world) && AllBy(steps, p)
      requires Enabled(world, step) && By(step, p)
      modifies this`world
      ensures world == Next(old(world), step)
      ensures longer == steps + [step] && Runs(before, longer, world) && AllBy(longer, p)
    {
      ghost var after: World;
      longer, after := RunsOn(before, steps, world, step);
      world := Next(world, step);
    }

    /** At most 20 due jobs of the device, and all of them when there are fewer. */
    method SelectDue(device: string, now: int) returns (picks: seq<Pick>)
      ensures ValidPicks(world, picks, now) && DuePicks(world.jobs, picks, device, now)
    {
      var left := world.jobs.Keys;
      picks := [];
      while left != {} && |picks| < 20
        invariant left <= world.jobs.Keys && ValidPicks(world, picks, now)
        invariant forall i :: 0 <= i < |picks| ==> world.jobs[picks[i].id].device == device && picks[i].id !in left
        invariant forall id :: id in world.jobs && world.jobs[id].device == device && Ready(world.jobs[id], now) ==>
          id in left || PickedAmong(picks, id)
        decreases |left|
      {
        var id :| id in left;
        left := left - {id};
        if world.jobs[id].device == device && Ready(world.jobs[id], now) {
          ghost var was := picks;
          picks := picks + [Pick(id, world.jobs[id].attempts)];
          assert picks[|was|].id == id && forall i :: 0 <= i < |was| ==> picks[i] == was[i];
        }
      }
    }

    /** The next job of the queue: superseded, or leased, sent and settled. A device that is
        gone is disabled. */
    method SendNext(device: string, permitted: Id -> bool, answer: Id -> Answer, ghost before: World,
                    ghost steps: seq<Step>, ghost was: set<string>)
      returns (ghost longer: seq<Step>)
      requires PassOf(world, p).Working? && PassOf(world, p).queue != []
      requires Runs(before, steps, world) && AllBy(steps, p) && Told(steps, device, was, enabled)
      modifies this
      ensures Runs(before, longer, world) && AllBy(longer, p) && Told(longer, device, was, enabled)
      ensures PassOf(world, p).Working? && PassOf(world, p).now == PassOf(old(world), p).now
      ensures PassOf(world, p).queue == PassOf(old(world), p).queue[1..]
      ensures var pick := PassOf(old(world), p).queue[0];
        && Handled(old(world).jobs, world.jobs, pick, device in old(enabled) && permitted(pick.id), answer(pick.id),
                   PassOf(old(world), p).now)
        && enabled == (if SaysGone(old(world).jobs, pick.id, permitted, answer) then old(enabled) - {device} else old(enabled))
    {
      var id := PassOf(world, p).queue[0].id;
      SupersedeHandled(world, p, answer(id));
      SendHandled(world, p, answer(id));
      if device !in enabled || !permitted(id) {
        longer := Perform(before, steps, Supersede(p));
        ToldMore(steps, Supersede(p), device, was, enabled);
      } else {
        longer := Perform(before, steps, Lease(p));
        ToldMore(steps, Lease(p), device, was, enabled);
        if PassOf(world, p).Delivering? {
          ToldMore(longer, Finish(p, answer(id)), device, was, enabled);
          longer := Perform(before, longer, Finish(p, answer(id)));
          if answer(id).Gone? {
            enabled := enabled - {device};
          }
        }
      }
    }

    /** The queue of one device. Once it is gone the rest of its queue is superseded. */
    method SendQueue(device: string, permitted: Id -> bool, answer: Id -> Answer) returns (ghost steps: seq<Step>)
      requires PassOf(world, p).Working? && DistinctPicks(PassOf(world, p).queue)
      modifies this
      ensures Runs(old(world), steps, world) && AllBy(steps, p) && Told(steps, device, old(enabled), enabled)
      ensures PassOf(world, p).Working? && PassOf(world, p).queue == [] && PassOf(world, p).now == PassOf(old(world), p).now
      ensures QueueHandled(old(world).jobs, world.jobs, PassOf(old(world), p).queue, device in old(enabled), permitted,
                           answer, PassOf(old(world), p).now)
      ensures enabled == if GoneAmong(old(world).jobs, PassOf(old(world), p).queue, permitted, answer)
                         then old(enabled) - {device} else old(enabled)
    {
      steps := [];
      ghost var first, was, picks, now := world, enabled, PassOf(world, p).queue, PassOf(world, p).now;
      ghost var k := 0;
      while PassOf(world, p).queue != []
        invariant Runs(first, steps, world) && AllBy(steps, p) && Told(steps, device, was, enabled)
        invariant PassOf(world, p).Working? && PassOf(world, p).now == now
        invariant k <= |picks| && PassOf(world, p).queue == picks[k..]
        invariant QueueHandled(first.jobs, world.jobs, picks[..k], device in was, permitted, answer, now)
        invariant enabled == if GoneAmong(first.jobs, picks[..k], permitted, answer) then was - {device} else was
        decreases |PassOf(world, p).queue|
      {
        ghost var mid := world;
        steps := SendNext(device, permitted, answer, first, steps, was);
        HandledNext(first.jobs, mid.jobs, world.jobs, picks, k, device in was, permitted, answer, now);
        GoneNext(first.jobs, picks, k, permitted, answer);
        k := k + 1;
      }
      assert picks[..k] == picks;
    }

    /** Rows for the alerts not yet too old. */
    method QueueNotices(device: string, notices: seq<Notice>) returns (ghost steps: seq<Step>)
      requires PassOf(world, p).Working? && PassOf(world, p).queue == []
      modifies this`world
      ensures Runs(old(world), steps, world) && AllBy(steps, p)
      ensures PassOf(world, p) == PassOf(old(world), p)
      ensures Noticed(old(world).jobs, world.jobs, device, notices, PassOf(world, p).now)
    {
      steps := [];
      var k := 0;
      ghost var first := world;
      while k < |notices|
        invariant 0 <= k <= |notices|
        invariant Runs(first, steps, world) && AllBy(steps, p)
        invariant PassOf(world, p) == PassOf(first, p)
        invariant Noticed(first.jobs, world.jobs, device, notices[..k], PassOf(world, p).now)
      {
        var notice := notices[k];
        ghost var long := LongId(world.jobs.Keys);
        assert long !in world.jobs;
        var id: Id :| id !in world.jobs;
        ghost var mid := world;
        if notice.triggered + LIFETIME >= PassOf(world, p).now {
          InsertsFresh(world, p, id, device, notice);
          steps := Perform(first, steps, InsertAlert(p, id, device, notice.alert, notice.triggered));
        }
        NoticedNext(first.jobs, mid.jobs, world.jobs, device, notices, k, PassOf(world, p).now, id);
        k := k + 1;
      }
      assert notices[..k] == notices;
    }

    /** The table swept, and the due rows of the device picked. */
    method SweepAndSelect(device: string, ghost first: World, ghost before: seq<Step>) returns (ghost steps: seq<Step>, picks: seq<Pick>)
      requires PassOf(world, p).Working? && PassOf(world, p).queue == [] && Runs(first, before, world) && AllBy(before, p)
      modifies this`world
      ensures Runs(first, steps, world) && AllBy(steps, p)
      ensures PassOf(world, p) == Working(PassOf(old(world), p).now, picks, PassOf(old(world), p).sent)
      ensures Swept(old(world).jobs, world.jobs, PassOf(world, p).now)
      ensures DuePicks(world.jobs, picks, device, PassOf(world, p).now)
    {
      SweepsRows(world, p);
      steps := Perform(first, before, Expire(p));
      steps := Perform(first, steps, Reclaim(p));
      picks := SelectDue(device, PassOf(world, p).now);
      steps := Perform(first, steps, Select(p, picks));
    }

    /** One device: its notices queued, the table swept, and its due rows sent. */
    method Visit(device: string, notices: seq<Notice>, permitted: Id -> bool, answer: Id -> Answer)
      returns (ghost steps: seq<Step>)
      requires PassOf(world, p).Working? && PassOf(world, p).queue == []
      modifies this
      ensures Runs(old(world), steps, world) && AllBy(steps, p)
      ensures PassOf(world, p).Working? && PassOf(world, p).queue == [] && PassOf(world, p).now == PassOf(old(world), p).now
      ensures old(enabled) - {device} <= enabled <= old(enabled)
      ensures Visited(old(world).jobs, world.jobs, device, notices, device in old(enabled), permitted, answer, PassOf(world, p).now)
      ensures StaysThere(world.jobs, device, answer) ==> enabled == old(enabled)
    {
      ghost var first, now := world, PassOf(world, p).now;
      steps := QueueNotices(device, notices);
      ghost var noticed := world;
      var picks;
      steps, picks := SweepAndSelect(device, first, steps);
      ghost var mid := world;
      ghost var rest := SendQueue(device, permitted, answer);
      RunsJoin(first, steps, mid, rest, world);
      steps := steps + rest;
      VisitDone(first.jobs, noticed.jobs, mid.jobs, world.jobs, device, notices, picks, device in old(enabled), permitted,
                answer, now);
    }

    /** A pass over the enabled devices. It is a run of the machine, so whatever state crashes
        left behind, the pass keeps what every run keeps. */
    method Deliver(devices: seq<string>, notices: string -> seq<Notice>, permitted: Id -> bool, answer: Id -> Answer)
      returns (ghost steps: seq<Step>)
      requires Solo(world, p) && Unique(world) && PassOf(world, p).Idle?
      requires forall device :: device in devices <==> device in enabled
      modifies this
      ensures Runs(old(world), steps, world) && AllBy(steps, p) && PassOf(world, p).Idle?
      ensures Solo(world, p) && Unique(world)
      ensures forall id :: id in world.jobs ==> world.jobs[id].attempts <= 5
      ensures forall id :: id in old(world).jobs && Final(old(world).jobs[id].state) ==>
        id in world.jobs && world.jobs[id] == old(world).jobs[id]
      ensures enabled <= old(enabled)
      ensures old(enabled) == {} ==> world == old(world)
      // with fewer than twenty due rows of an enabled device that stays there, each is settled
      ensures forall id :: id in old(world).jobs ==> id in world.jobs
      ensures var was, now := old(world).jobs, old(world).clock;
        forall id :: id in was && Certain(was, world.jobs, id, old(enabled), notices, answer, now) ==>
          && SettledBy(was[id].(state := Queued), world.jobs[id], was[id].attempts, permitted(id), answer(id), now)
          && (permitted(id) && answer(id).Delivered? ==> world.jobs[id].state == Accepted)
          && (!permitted(id) ==> world.jobs[id].state == Superseded && world.jobs[id].attempts == was[id].attempts)
    {
      steps := [];
      ghost var first, was, now := world, enabled, world.clock;
      if devices != [] {
        assert devices[0] in enabled;
        steps := Perform(world, [], Begin(p));
        for k := 0 to |devices|
          invariant Runs(first, steps, world) && AllBy(steps, p)
          invariant PassOf(world, p).Working? && PassOf(world, p).queue == [] && PassOf(world, p).now == now
          invariant enabled <= was && forall device :: device in was && device !in devices[..k] ==> device in enabled
          invariant PassedTo(first.jobs, world.jobs, devices[..k], was, notices, permitted, answer, now)
        {
          steps := VisitNext(devices, k, notices, permitted, answer, first, steps, was);
        }
        assert devices[..|devices|] == devices;
        steps := Perform(first, steps, End(p));
      }
      OneProcessRun(first, steps, world, p);
    }

    method VisitNext(devices: seq<string>, k: nat, notices: string -> seq<Notice>, permitted: Id -> bool,
                     answer: Id -> Answer, ghost first: World, ghost before: seq<Step>, ghost was: set<string>)
      returns (ghost steps: seq<Step>)
      requires k < |devices| && PassOf(world, p).Working? && PassOf(world, p).queue == []
      requires Runs(first, before, world) && AllBy(before, p)
      requires enabled <= was && forall device :: device in was && device !in devices[..k] ==> device in enabled
      requires PassedTo(first.jobs, world.jobs, devices[..k], was, notices, permitted, answer, PassOf(world, p).now)
      modifies this
      ensures Runs(first, steps, world) && AllBy(steps, p)
      ensures PassOf(world, p).Working? && PassOf(world, p).queue == [] && PassOf(world, p).now == PassOf(old(world), p).now
      ensures enabled <= was && forall device :: device in was && device !in devices[..k + 1] ==> device in enabled
      ensures PassedTo(first.jobs, world.jobs, devices[..k + 1], was, notices, permitted, answer, PassOf(world, p).now)
    {
      ghost var mid, active := world, devices[k] in enabled;
      assert devices[..k + 1] == devices[..k] + [devices[k]];
      ghost var more := Visit(devices[k], notices(devices[k]), permitted, answer);
      RunsJoin(first, before, mid, more, world);
      steps := before + more;
      PassNext(first.jobs, mid.jobs, world.jobs, devices[..k], was, notices, active, permitted, answer, PassOf(mid, p).now,
               devices[k]);
    }
  }

  lemma {:induction false} RunsJoin(first: World, head: seq<Step>, mid: World, tail: seq<Step>, last: World)
    requires Runs(first, head, mid) && Runs(mid, tail, last)
    ensures Runs(first, head + tail, last)
    decreases |head|
  {
    if head != [] {
      RunsJoin(Next(first, head[0]), head[1..], mid, tail, last);
      assert (head + tail)[1..] == head[1..] + tail;
    } else {
      assert head + tail == tail;
    }
  }

  lemma InsertsFresh(w: World, p: Process, id: Id, device: string, notice: Notice)
    requires Enabled(w, InsertAlert(p, id, device, notice.alert, notice.triggered))
    ensures var after := Next(w, InsertAlert(p, id, device, notice.alert, notice.triggered));
      && after.passes == w.passes
      && after.jobs == if Fresh(w.jobs, device, notice, PassOf(w, p).now)
                       then w.jobs[id := Job(device, notice.alert, Queued, 0, PassOf(w, p).now, notice.triggered + 3600)]
                       else w.jobs
  {
    assert Taken(w, device, notice.alert) <==> TakenIn(w.jobs, device, notice.alert);
  }
}
