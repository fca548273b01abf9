/** Several processes on one outbox: when a second process can send a job that is being sent,
    when the row of such a job can become final under its sender, and how many attempts
    picks of one row can add up to. */
module OutboxRaces {
  import opened Outbox

  // ---- runs by some of the processes ------------------------------------------

  predicate ByOneOf(step: Step, others: set<Process>) {
    step.Tick? || step.InsertTest? || step.p in others
  }

  /** A run in which only the others take part, and which ends no later than the deadline. */
  ghost predicate Reaches(first: World, others: set<Process>, deadline: int, steps: seq<Step>, last: World) {
    Runs(first, steps, last) && last.clock <= deadline && forall i :: 0 <= i < |steps| ==> ByOneOf(steps[i], others)
  }

  lemma ReachesOn(first: World, others: set<Process>, deadline: int, steps: seq<Step>, mid: World, step: Step)
    returns (longer: seq<Step>, last: World)
    requires Reaches(first, others, deadline, steps, mid) && Enabled(mid, step) && ByOneOf(step, others)
    requires Next(mid, step).clock <= deadline
    ensures last == Next(mid, step) && Reaches(first, others, deadline, longer, last)
  {
    longer, last := RunsOn(first, steps, mid, step);
  }

  /** When the lease on p's send is over, or now if it is over already. */
  function Freed(w: World, p: Process): int
    requires PassOf(w, p).Delivering?
  {
    if w.clock >= PassOf(w, p).now + 120 then w.clock else PassOf(w, p).now + 120
  }

  /** p sends the job, in time or not, and the others are wherever they are in their passes. */
  ghost predicate OneSends(w: World, p: Process, others: set<Process>, id: Id) {
    Leased(w) && Sends(w, p, id) && id in w.jobs && p !in others && others != {}
  }

  // ---- what the others can do ---------------------------------------------------

  /** What the others have done so far leaves p sending and the job waiting on its lease. */
  ghost predicate Waits(first: World, w: World, p: Process, id: Id, state: JobState)
    requires id in first.jobs
  {
    PassOf(w, p) == PassOf(first, p) && id in w.jobs && w.jobs[id] == first.jobs[id].(state := state)
  }

  /** q gives up its pass, begins another and takes the job back. */
  lemma OtherReclaims(w: World, p: Process, q: Process, others: set<Process>, id: Id)
    returns (steps: seq<Step>, last: World)
    requires OneSends(w, p, others, id) && q in others
    ensures Reaches(w, others, Freed(w, p), steps, last) && Waits(w, last, p, id, Queued)
    ensures last.clock == Freed(w, p) && PassOf(last, q) == Working(Freed(w, p), [], {})
    ensures forall r :: r != q ==> PassOf(last, r) == PassOf(w, r)
  {
    assert Covered(w, PassOf(w, p));
    var deadline := Freed(w, p);
    steps, last := ReachesOn(w, others, deadline, [], w, Crash(q));
    steps, last := ReachesOn(w, others, deadline, steps, last, Tick(deadline - w.clock));
    steps, last := ReachesOn(w, others, deadline, steps, last, Begin(q));
    steps, last := ReachesOn(w, others, deadline, steps, last, Reclaim(q));
  }

  /** q has the job queued before it and picks it. */
  lemma PicksAndSends(first: World, others: set<Process>, deadline: int, steps: seq<Step>, w: World, p: Process,
                      q: Process, id: Id)
    returns (longer: seq<Step>, last: World)
    requires Reaches(first, others, deadline, steps, w) && q in others && q != p
    requires PassOf(w, q).Working? && PassOf(w, q).queue == []
    requires id in w.jobs && Ready(w.jobs[id], PassOf(w, q).now)
    ensures Reaches(first, others, deadline, longer, last) && PassOf(last, p) == PassOf(w, p)
    ensures Sends(last, q, id) && id in last.jobs
  {
    longer, last := ReachesOn(first, others, deadline, steps, w, Select(q, [Pick(id, w.jobs[id].attempts)]));
    longer, last := ReachesOn(first, others, deadline, longer, last, Lease(q));
  }

  /** q ends the send it is busy with, if any. */
  lemma OtherSettles(first: World, others: set<Process>, deadline: int, steps: seq<Step>, w: World, p: Process,
                     q: Process, id: Id)
    returns (longer: seq<Step>, last: World)
    requires Reaches(first, others, deadline, steps, w) && q in others && q != p
    requires !PassOf(w, q).Idle? && !Sends(w, q, id) && id in w.jobs
    ensures Reaches(first, others, deadline, longer, last) && Waits(w, last, p, id, w.jobs[id].state)
    ensures PassOf(last, q).Working? && PassOf(last, q).queue == PassOf(w, q).queue && PassOf(last, q).now == PassOf(w, q).now
  {
    longer, last := steps, w;
    if PassOf(w, q).Delivering? {
      longer, last := ReachesOn(first, others, deadline, steps, w, Finish(q, Unreachable));
    }
  }

  /** q drops its queue: a row that is being sent is not touched by that. */
  lemma {:induction false} WorksOff(first: World, others: set<Process>, deadline: int, steps: seq<Step>, w: World,
                                    p: Process, q: Process, id: Id)
    returns (longer: seq<Step>, last: World)
    requires Reaches(first, others, deadline, steps, w) && q in others && q != p
    requires PassOf(w, q).Working? && id in w.jobs && w.jobs[id].state == Sending
    ensures Reaches(first, others, deadline, longer, last) && Waits(w, last, p, id, Sending)
    ensures PassOf(last, q).Working? && PassOf(last, q).queue == [] && PassOf(last, q).now == PassOf(w, q).now
    decreases |PassOf(w, q).queue|
  {
    if PassOf(w, q).queue == [] {
      longer, last := steps, w;
    } else {
      longer, last := ReachesOn(first, others, deadline, steps, w, Supersede(q));
      longer, last := WorksOff(first, others, deadline, longer, last, p, q, id);
    }
  }

  predicate Queues(pass: Pass, id: Id) {
    !pass.Idle? && exists i :: 0 <= i < |pass.queue| && pass.queue[i].id == id
  }

  /** q comes to the job in its queue. */
  lemma {:induction false} WorksUpTo(first: World, others: set<Process>, deadline: int, steps: seq<Step>, w: World,
                                     p: Process, q: Process, id: Id)
    returns (longer: seq<Step>, last: World)
    requires Reaches(first, others, deadline, steps, w) && q in others && q != p
    requires PassOf(w, q).Working? && Queues(PassOf(w, q), id) && id in w.jobs && w.jobs[id].state == Queued
    ensures Reaches(first, others, deadline, longer, last) && PassOf(last, p) == PassOf(w, p)
    ensures Sends(last, q, id) && id in last.jobs
    decreases |PassOf(w, q).queue|
  {
    var queue := PassOf(w, q).queue;
    if queue[0].id == id {
      longer, last := ReachesOn(first, others, deadline, steps, w, Lease(q));
    } else {
      longer, last := ReachesOn(first, others, deadline, steps, w, Supersede(q));
      var i :| 0 <= i < |queue| && queue[i].id == id;
      assert queue[1..][i - 1].id == id;
      longer, last := WorksUpTo(first, others, deadline, longer, last, p, q, id);
    }
  }

  // ---- when it can come to that ---------------------------------------------------

  /** q's pass read the clock after the lease and before the job expires. */
  predicate ReadInTime(w: World, p: Process, q: Process, id: Id)
    requires PassOf(w, p).Delivering? && id in w.jobs
  {
    !PassOf(w, q).Idle? && PassOf(w, p).now + 120 <= PassOf(w, q).now < w.jobs[id].expires
  }

  ghost predicate SomeReadInTime(w: World, p: Process, others: set<Process>, id: Id)
    requires PassOf(w, p).Delivering? && id in w.jobs
  {
    exists q :: q in others && ReadInTime(w, p, q, id)
  }

  /** One process picked the job earlier, and another can take it back. */
  ghost predicate SomePickedEarlier(w: World, others: set<Process>, id: Id) {
    exists q, r :: q in others && r in others && q != r && Queues(PassOf(w, q), id)
  }

  /** The lease is over by the deadline, and a process can pick the job then, can pick it by
      the clock it has read, or has picked it before. */
  ghost predicate MayCollide(w: World, p: Process, others: set<Process>, deadline: int, id: Id)
    requires PassOf(w, p).Delivering? && id in w.jobs
  {
    && Freed(w, p) <= deadline
    && (Freed(w, p) < w.jobs[id].expires || SomeReadInTime(w, p, others, id) || SomePickedEarlier(w, others, id))
  }

  /** A second process sends the job while p does. */
  ghost predicate Collides(w: World, p: Process, others: set<Process>, deadline: int, id: Id, steps: seq<Step>,
                           last: World, q: Process)
  {
    q in others && Reaches(w, others, deadline, steps, last) && PassOf(last, p) == PassOf(w, p) && Sends(last, q, id)
      && id in last.jobs
  }

  lemma CollidesAfterLease(w: World, p: Process, others: set<Process>, deadline: int, id: Id)
    returns (steps: seq<Step>, last: World, q: Process)
    requires OneSends(w, p, others, id) && Freed(w, p) <= deadline && Freed(w, p) < w.jobs[id].expires
    ensures Collides(w, p, others, deadline, id, steps, last, q)
  {
    assert Covered(w, PassOf(w, p));
    q :| q in others;
    steps, last := OtherReclaims(w, p, q, others, id);
    steps, last := PicksAndSends(w, others, deadline, steps, last, p, q, id);
  }

  lemma CollidesByReading(w: World, p: Process, others: set<Process>, deadline: int, id: Id)
    returns (steps: seq<Step>, last: World, q: Process)
    requires OneSends(w, p, others, id) && w.clock <= deadline && SomeReadInTime(w, p, others, id)
    ensures Collides(w, p, others, deadline, id, steps, last, q)
  {
    assert Covered(w, PassOf(w, p));
    q :| q in others && ReadInTime(w, p, q, id);
    steps, last := OtherSettles(w, others, deadline, [], w, p, q, id);
    steps, last := WorksOff(w, others, deadline, steps, last, p, q, id);
    steps, last := ReachesOn(w, others, deadline, steps, last, Reclaim(q));
    steps, last := PicksAndSends(w, others, deadline, steps, last, p, q, id);
  }

  lemma CollidesByOldPick(w: World, p: Process, others: set<Process>, deadline: int, id: Id)
    returns (steps: seq<Step>, last: World, q: Process)
    requires OneSends(w, p, others, id) && Freed(w, p) <= deadline && SomePickedEarlier(w, others, id)
    ensures Collides(w, p, others, deadline, id, steps, last, q)
  {
    var r;
    q, r :| q in others && r in others && q != r && Queues(PassOf(w, q), id);
    assert !Sends(w, q, id);
    steps, last := OtherReclaims(w, p, r, others, id);
    steps, last := OtherSettles(w, others, deadline, steps, last, p, q, id);
    steps, last := WorksUpTo(w, others, deadline, steps, last, p, q, id);
  }

  lemma CollisionReached(w: World, p: Process, others: set<Process>, deadline: int, id: Id)
    returns (steps: seq<Step>, last: World, q: Process)
    requires OneSends(w, p, others, id) && w.clock <= deadline && MayCollide(w, p, others, deadline, id)
    ensures Collides(w, p, others, deadline, id, steps, last, q)
  {
    if Freed(w, p) < w.jobs[id].expires {
      steps, last, q := CollidesAfterLease(w, p, others, deadline, id);
    } else if SomeReadInTime(w, p, others, id) {
      steps, last, q := CollidesByReading(w, p, others, deadline, id);
    } else {
      steps, last, q := CollidesByOldPick(w, p, others, deadline, id);
    }
  }

  // ---- what they cannot do --------------------------------------------------------

  /** The row is as p's lease left it. */
  ghost predicate Untouched(first: World, w: World, p: Process, others: set<Process>, id: Id) {
    && Clocked(w) && PassOf(w, p) == PassOf(first, p)
    && id in first.jobs && id in w.jobs && w.jobs[id] == first.jobs[id]
    && forall q :: q in others ==> !Sends(w, q, id)
  }

  lemma {:induction false} UntouchedRun(first: World, w: World, steps: seq<Step>, last: World, p: Process,
                                        others: set<Process>, deadline: int, id: Id)
    requires OneSends(first, p, others, id) && Untouched(first, w, p, others, id)
    requires Reaches(w, others, deadline, steps, last)
    requires deadline < PassOf(first, p).now + 120
    ensures Untouched(first, last, p, others, id)
    decreases |steps|
  {
    if steps == [] {
    } else {
      assert Covered(first, PassOf(first, p)) && ByOneOf(steps[0], others);
      RunsForward(Next(w, steps[0]), steps[1..], last);
      ClockedStep(w, steps[0]);
      UntouchedRun(first, Next(w, steps[0]), steps[1..], last, p, others, deadline, id);
    }
  }

  /** Nobody sends the job or can pick it, and whoever has it in its queue is alone and finds
      it being sent. */
  ghost predicate KeptOff(first: World, w: World, p: Process, others: set<Process>, id: Id)
    requires PassOf(first, p).Delivering? && id in first.jobs
  {
    && Clocked(w) && first.clock <= w.clock && PassOf(w, p) == PassOf(first, p)
    && id in w.jobs && w.jobs[id].state != Accepted
    && w.jobs[id].nextAttempt == PassOf(first, p).now + 120 && w.jobs[id].expires == first.jobs[id].expires
    && (forall q :: q in others ==> !Sends(w, q, id))
    && (forall q :: q in others ==> !ReadInTime(w, p, q, id))
    && (forall q :: q in others && Queues(PassOf(w, q), id) ==> w.jobs[id].state == Sending && others == {q})
  }

  lemma QueueShrinks(before: Pass, after: Pass, id: Id)
    requires !before.Idle? && !after.Idle? && before.queue != []
    requires after.queue == before.queue[1..] && Queues(after, id)
    ensures Queues(before, id)
  {
    var i :| 0 <= i < |after.queue| && after.queue[i].id == id;
    assert before.queue[i + 1].id == id;
  }

  /** Whoever queues the job after a step queued it before. */
  lemma QueuesBefore(first: World, w: World, step: Step, p: Process, others: set<Process>, id: Id, q: Process)
    requires OneSends(first, p, others, id) && KeptOff(first, w, p, others, id)
    requires Enabled(w, step) && q in others && Queues(PassOf(Next(w, step), q), id)
    ensures Queues(PassOf(w, q), id)
  {
    var before, after := PassOf(w, q), PassOf(Next(w, step), q);
    if after != before {
      match step {
        case Supersede(_) => QueueShrinks(before, after, id);
        case Lease(_) => QueueShrinks(before, after, id);
        case _ =>
      }
    }
  }

  /** The row changes only by being taken back or expiring, and not while somebody queues it. */
  lemma KeptOffRow(first: World, w: World, step: Step, p: Process, others: set<Process>, id: Id)
    requires OneSends(first, p, others, id) && KeptOff(first, w, p, others, id)
    requires Enabled(w, step) && ByOneOf(step, others)
    ensures var after := Next(w, step);
      && PassOf(after, p) == PassOf(w, p) && id in after.jobs
      && after.jobs[id] == w.jobs[id].(state := after.jobs[id].state) && after.jobs[id].state != Accepted
    ensures forall q :: q in others && Queues(PassOf(w, q), id) ==> Next(w, step).jobs[id] == w.jobs[id]
  {
    if step.Lease? && PassOf(w, step.p).queue[0].id == id {
      assert Queues(PassOf(w, step.p), id);
    }
  }

  lemma KeptOffSenders(first: World, w: World, step: Step, p: Process, others: set<Process>, id: Id, q: Process)
    requires OneSends(first, p, others, id) && KeptOff(first, w, p, others, id)
    requires Enabled(w, step) && ByOneOf(step, others) && q in others
    ensures !Sends(Next(w, step), q, id)
  {
    if step.Lease? && PassOf(w, step.p).queue[0].id == id {
      assert Queues(PassOf(w, step.p), id);
    }
  }

  /** A reading of the clock comes too early or too late. */
  lemma KeptOffReadings(first: World, w: World, step: Step, p: Process, others: set<Process>, id: Id, q: Process)
    requires OneSends(first, p, others, id) && KeptOff(first, w, p, others, id)
    requires Enabled(w, step) && ByOneOf(step, others) && Freed(first, p) >= first.jobs[id].expires && q in others
    requires PassOf(Next(w, step), p) == PassOf(w, p) && id in Next(w, step).jobs
    requires Next(w, step).jobs[id].expires == w.jobs[id].expires
    ensures !ReadInTime(Next(w, step), p, q, id)
  {
  }

  lemma KeptOffStep(first: World, w: World, step: Step, p: Process, others: set<Process>, id: Id)
    requires OneSends(first, p, others, id) && KeptOff(first, w, p, others, id)
    requires Enabled(w, step) && ByOneOf(step, others) && Freed(first, p) >= first.jobs[id].expires
    ensures KeptOff(first, Next(w, step), p, others, id)
  {
    var after := Next(w, step);
    ClockedStep(w, step);
    KeptOffRow(first, w, step, p, others, id);
    forall q | q in others ensures !Sends(after, q, id) && !ReadInTime(after, p, q, id) {
      KeptOffSenders(first, w, step, p, others, id, q);
      KeptOffReadings(first, w, step, p, others, id, q);
    }
    forall q | q in others && Queues(PassOf(after, q), id) ensures after.jobs[id].state == Sending && others == {q} {
      QueuesBefore(first, w, step, p, others, id, q);
    }
  }

  lemma {:induction false} KeptOffRun(first: World, w: World, steps: seq<Step>, last: World, p: Process,
                                      others: set<Process>, deadline: int, id: Id)
    requires OneSends(first, p, others, id) && KeptOff(first, w, p, others, id)
    requires Reaches(w, others, deadline, steps, last) && Freed(first, p) >= first.jobs[id].expires
    ensures KeptOff(first, last, p, others, id)
    decreases |steps|
  {
    if steps == [] {
    } else {
      assert ByOneOf(steps[0], others);
      RunsForward(Next(w, steps[0]), steps[1..], last);
      KeptOffStep(first, w, steps[0], p, others, id);
      KeptOffRun(first, Next(w, steps[0]), steps[1..], last, p, others, deadline, id);
    }
  }

  lemma StartsKeptOff(w: World, p: Process, others: set<Process>, deadline: int, id: Id)
    requires OneSends(w, p, others, id) && Freed(w, p) <= deadline && !MayCollide(w, p, others, deadline, id)
    ensures KeptOff(w, w, p, others, id)
  {
    assert Covered(w, PassOf(w, p));
    forall q | q in others && Queues(PassOf(w, q), id) ensures others == {q} {
      assert forall r :: r in others ==> r == q;
    }
  }

  /** Nobody else comes to send the job, nor is its row accepted. */
  lemma NoCollision(w: World, p: Process, others: set<Process>, deadline: int, id: Id, steps: seq<Step>, last: World)
    requires OneSends(w, p, others, id) && w.clock <= deadline && !MayCollide(w, p, others, deadline, id)
    requires Reaches(w, others, deadline, steps, last)
    ensures id in last.jobs && last.jobs[id].state != Accepted && forall q :: q in others ==> !Sends(last, q, id)
  {
    assert Covered(w, PassOf(w, p));
    if Freed(w, p) <= deadline {
      StartsKeptOff(w, p, others, deadline, id);
      KeptOffRun(w, w, steps, last, p, others, deadline, id);
    } else {
      UntouchedRun(w, w, steps, last, p, others, deadline, id);
    }
  }

  // ---- exactly when ---------------------------------------------------------------

  /** While p sends the job, in whatever state the others are, another process can come to
      send it too exactly when they may collide. */
  lemma SecondSenderExact(w: World, p: Process, others: set<Process>, deadline: int, id: Id)
    requires OneSends(w, p, others, id) && w.clock <= deadline
    ensures (exists steps, last, q ::
        q in others && Reaches(w, others, deadline, steps, last) && Sends(last, p, id) && Sends(last, q, id))
      <==> MayCollide(w, p, others, deadline, id)
  {
    if MayCollide(w, p, others, deadline, id) {
      var steps, last, q := CollisionReached(w, p, others, deadline, id);
      assert q in others && Reaches(w, others, deadline, steps, last) && Sends(last, p, id) && Sends(last, q, id);
    } else {
      forall steps, last, q | q in others && Reaches(w, others, deadline, steps, last) ensures !Sends(last, q, id) {
        NoCollision(w, p, others, deadline, id, steps, last);
      }
    }
  }

  /** The row is accepted under p, whose closing update checks no state and queues it again. */
  ghost predicate Requeues(w: World, p: Process, id: Id) {
    && Sends(w, p, id) && id in w.jobs && w.jobs[id].state == Accepted
    && Next(w, Finish(p, Unreachable)).jobs[id].state == Queued
  }

  lemma OverwriteReached(w: World, p: Process, others: set<Process>, deadline: int, id: Id)
    returns (steps: seq<Step>, last: World)
    requires OneSends(w, p, others, id) && w.clock <= deadline && MayCollide(w, p, others, deadline, id)
    ensures Reaches(w, others, deadline, steps, last) && PassOf(last, p) == PassOf(w, p)
    ensures id in last.jobs && last.jobs[id].state == Accepted
  {
    var q;
    steps, last, q := CollisionReached(w, p, others, deadline, id);
    steps, last := ReachesOn(w, others, deadline, steps, last, Finish(q, Delivered));
  }

  /** An accepted row can be queued again by a slow sender under exactly that condition,
      unless the slow sender has picked its last attempt. */
  lemma OverwriteExact(w: World, p: Process, others: set<Process>, deadline: int, id: Id)
    requires OneSends(w, p, others, id) && w.clock <= deadline
    ensures (exists steps, last :: Reaches(w, others, deadline, steps, last) && Requeues(last, p, id))
      <==> MayCollide(w, p, others, deadline, id) && PassOf(w, p).pick.attempts < 4
  {
    if !MayCollide(w, p, others, deadline, id) {
      forall steps, last | Reaches(w, others, deadline, steps, last) ensures !Requeues(last, p, id) {
        NoCollision(w, p, others, deadline, id, steps, last);
      }
    } else if PassOf(w, p).pick.attempts < 4 {
      var steps, last := OverwriteReached(w, p, others, deadline, id);
      assert Reaches(w, others, deadline, steps, last) && Requeues(last, p, id);
    } else {
      forall steps, last | Reaches(w, others, deadline, steps, last) ensures !Requeues(last, p, id) {
        OtherPasses(w, steps, last, p, others, deadline);
      }
    }
  }

  lemma {:induction false} OtherPasses(first: World, steps: seq<Step>, last: World, p: Process, others: set<Process>,
                                       deadline: int)
    requires Reaches(first, others, deadline, steps, last) && p !in others
    ensures PassOf(last, p) == PassOf(first, p)
    decreases |steps|
  {
    if steps == [] {
    } else {
      assert ByOneOf(steps[0], others);
      OtherPasses(Next(first, steps[0]), steps[1..], last, p, others, deadline);
    }
  }

  lemma FinalReached(w: World, p: Process, others: set<Process>, deadline: int, id: Id)
    returns (steps: seq<Step>, last: World)
    requires OneSends(w, p, others, id) && Freed(w, p) <= deadline && w.clock <= deadline
    ensures Reaches(w, others, deadline, steps, last) && PassOf(last, p) == PassOf(w, p)
    ensures id in last.jobs && Final(last.jobs[id].state)
  {
    if Freed(w, p) < w.jobs[id].expires {
      steps, last := OverwriteReached(w, p, others, deadline, id);
    } else {
      var q :| q in others;
      steps, last := OtherReclaims(w, p, q, others, id);
      steps, last := ReachesOn(w, others, deadline, steps, last, Expire(q));
    }
  }

  /** The row can become final while p still sends if and only if the lease is over in time. */
  lemma FinalUnderSenderExact(w: World, p: Process, others: set<Process>, deadline: int, id: Id)
    requires OneSends(w, p, others, id) && w.clock <= deadline
    ensures (exists steps, last ::
        Reaches(w, others, deadline, steps, last) && Sends(last, p, id) && id in last.jobs && Final(last.jobs[id].state))
      <==> PassOf(w, p).now + 120 <= deadline
  {
    assert Covered(w, PassOf(w, p));
    if PassOf(w, p).now + 120 <= deadline {
      var steps, last := FinalReached(w, p, others, deadline, id);
      assert Reaches(w, others, deadline, steps, last) && Sends(last, p, id);
    } else {
      forall steps, last | Reaches(w, others, deadline, steps, last) ensures id in last.jobs && !Final(last.jobs[id].state) {
        UntouchedRun(w, w, steps, last, p, others, deadline, id);
      }
    }
  }

  // ---- such a run -------------------------------------------------------------------

  function Due(expires: int): World {
    World(map["a" := Job("phone", "alert", Queued, 0, 0, expires)], map[1 := Working(0, [], {})], 0)
  }

  lemma AlertIsDue(expires: int) returns (steps: seq<Step>)
    requires expires >= 0
    ensures Runs(EMPTY, steps, Due(expires))
  {
    var w: World;
    steps, w := RunsOn(EMPTY, [], EMPTY, Begin(1));
    steps, w := RunsOn(EMPTY, steps, w, InsertAlert(1, "a", "phone", "alert", expires - 3600));
    assert w == Due(expires);
  }

  const SENDING: World := World(map["a" := Job("phone", "alert", Sending, 0, 120, 300)],
                                map[1 := Delivering(0, Pick("a", 0), [], {"a"})], 0)

  lemma FirstSends() returns (steps: seq<Step>)
    ensures Runs(EMPTY, steps, SENDING)
  {
    var w: World;
    steps := AlertIsDue(300);
    steps, w := RunsOn(EMPTY, steps, Due(300), Select(1, [Pick("a", 0)]));
    steps, w := RunsOn(EMPTY, steps, w, Lease(1));
    assert [Pick("a", 0)][1..] == [] && {} + {"a"} == {"a"};
    assert w == SENDING;
  }

  /** From the empty table: a row accepted and then queued again by a slow sender. */
  lemma LateSendOverwrites() returns (steps: seq<Step>, last: World)
    ensures Runs(EMPTY, steps, last) && Requeues(last, 1, "a")
  {
    var head := FirstSends();
    assert PassOf(SENDING, 1).pick.attempts == 0 && Freed(SENDING, 1) == 120;
    OverwriteExact(SENDING, 1, {2}, 120, "a");
    var tail;
    tail, last :| Reaches(SENDING, {2}, 120, tail, last) && Requeues(last, 1, "a");
    RunsJoin(EMPTY, head, SENDING, tail, last);
    steps := head + tail;
  }

  // ---- collisions though the job has expired when its lease is over -------------------

  const PICKED_TWICE: World := World(map["a" := Job("phone", "alert", Sending, 0, 120, 100)],
    map[1 := Delivering(0, Pick("a", 0), [], {"a"}), 2 := Working(0, [Pick("a", 0)], {})], 0)

  const BOTH_PICKED: World :=
    Due(100).(passes := map[1 := Working(0, [Pick("a", 0)], {}), 2 := Working(0, [Pick("a", 0)], {})])

  lemma BothPick() returns (steps: seq<Step>)
    ensures Runs(EMPTY, steps, BOTH_PICKED)
  {
    var w: World;
    steps := AlertIsDue(100);
    steps, w := RunsOn(EMPTY, steps, Due(100), Begin(2));
    steps, w := RunsOn(EMPTY, steps, w, Select(1, [Pick("a", 0)]));
    steps, w := RunsOn(EMPTY, steps, w, Select(2, [Pick("a", 0)]));
    assert w == BOTH_PICKED;
  }

  lemma PickedTwice() returns (steps: seq<Step>)
    ensures Runs(EMPTY, steps, PICKED_TWICE)
  {
    var w: World;
    steps := BothPick();
    steps, w := RunsOn(EMPTY, steps, BOTH_PICKED, Lease(1));
    assert [Pick("a", 0)][1..] == [] && {} + {"a"} == {"a"};
    assert w == PICKED_TWICE;
  }

  /** A process that picked the job before it was leased sends it when a third one has taken
      it back, though it has expired by then. */
  lemma OldPickCollides() returns (steps: seq<Step>, last: World, q: Process)
    ensures Freed(PICKED_TWICE, 1) >= PICKED_TWICE.jobs["a"].expires
    ensures Runs(EMPTY, steps, last) && Sends(last, 1, "a") && Sends(last, q, "a") && q != 1
  {
    var head := PickedTwice();
    assert PassOf(PICKED_TWICE, 2).queue[0].id == "a";
    assert Queues(PassOf(PICKED_TWICE, 2), "a") && 3 in {2, 3};
    var tail;
    tail, last, q := CollisionReached(PICKED_TWICE, 1, {2, 3}, 120, "a");
    RunsJoin(EMPTY, head, PICKED_TWICE, tail, last);
    steps := head + tail;
  }

  const READ_EARLIER: World := World(map["a" := Job("phone", "alert", Sending, 0, 120, 140)],
    map[1 := Delivering(0, Pick("a", 0), [], {"a"}), 2 := Working(120, [], {})], 150)

  lemma ReadEarlier() returns (steps: seq<Step>)
    ensures Runs(EMPTY, steps, READ_EARLIER)
  {
    var w: World;
    steps := AlertIsDue(140);
    steps, w := RunsOn(EMPTY, steps, Due(140), Select(1, [Pick("a", 0)]));
    steps, w := RunsOn(EMPTY, steps, w, Lease(1));
    assert [Pick("a", 0)][1..] == [] && {} + {"a"} == {"a"};
    assert w == READ_EARLIER.(passes := map[1 := Delivering(0, Pick("a", 0), [], {"a"})], clock := 0);
    steps, w := RunsOn(EMPTY, steps, w, Tick(120));
    steps, w := RunsOn(EMPTY, steps, w, Begin(2));
    steps, w := RunsOn(EMPTY, steps, w, Tick(30));
    assert w == READ_EARLIER;
  }

  /** A process whose pass read the clock in time picks and sends the job after it has expired. */
  lemma OldReadingCollides() returns (steps: seq<Step>, last: World, q: Process)
    ensures Freed(READ_EARLIER, 1) >= READ_EARLIER.jobs["a"].expires
    ensures Runs(EMPTY, steps, last) && Sends(last, 1, "a") && Sends(last, q, "a") && q != 1
  {
    var head := ReadEarlier();
    assert ReadInTime(READ_EARLIER, 1, 2, "a");
    var tail;
    tail, last, q := CollisionReached(READ_EARLIER, 1, {2}, 150, "a");
    RunsJoin(EMPTY, head, READ_EARLIER, tail, last);
    steps := head + tail;
  }
}
