/** Jobs and rows together: unless a failure ends a job no delivery is left without one; without failures and with
    non-overlapping recoveries each is driven by exactly the job it names. */
module Liveness {
  import opened Options
  import opened Store
  import opened Dispatch
  import opened Machine
  import opened Basics
  import History

  /** Available, scheduled, running or retryable. */
  predicate Live(job: Job) {
    job.state.Available? || job.state.Scheduled? || job.state.Retryable? || job.state.Running?
  }

  /** Live, but its worker has returned and the queue is about to retire it for good. */
  predicate Retiring(job: Job) {
    job.state.Running? && job.state.pc.Returned? &&
    match job.state.pc.out
    case Done => true
    case Cancel => true
    case Error => job.attempt >= job.maxAttempts
    case Snooze => false
  }

  predicate Active(job: Job) { Live(job) && !Retiring(job) }

  predicate Undecided(row: Delivery) { row.status == Pending || row.status == Failed }

  ghost predicate Drives(jobs: seq<Job>, d: DeliveryId, j: JobId) {
    0 <= j < |jobs| && jobs[j].delivery == d && Active(jobs[j])
  }

  ghost predicate Driven(t: Tables, d: DeliveryId) { exists j :: Drives(t.jobs, d, j) }

  ghost predicate AllDriven(t: Tables) {
    forall d :: d in t.deliveries && Undecided(t.deliveries[d]) ==> Driven(t, d)
  }

  ghost predicate NoFailures(steps: seq<Step>) {
    forall i :: 0 <= i < |steps| ==> !steps[i].IsFailure()
  }

  /** A failure after which its job will not act any more, though it would have. */
  predicate Fatal(s: State, step: Step) {
    && step.IsWorker() && step.IsFailure() && JobOf(step) < |s.t.jobs|
    && var job := s.t.jobs[JobOf(step)];
       Active(job) && !Active(Moved(s.t, job, step))
  }

  /** That is: on its last attempt, a job that is not yet retiring crashes, or meets an error where it can meet one. */
  lemma FatalIff(s: State, step: Step)
    requires step.IsWorker() && step.IsFailure() && JobOf(step) < |s.t.jobs|
    ensures var job := s.t.jobs[JobOf(step)];
            Fatal(s, step) <==>
              && job.state.Running? && job.attempt >= job.maxAttempts && !Retiring(job)
              && (step.LoadError? ==> job.state.pc.Fetched? || job.state.pc.Loaded? || job.state.pc.Ready?)
              && (step.RecordError? ==> job.state.pc.Dispatched?)
  {}

  /** Runs in which jobs may fail, but none is ended by a failure. */
  ghost predicate Survivable(steps: seq<Step>) {
    steps != [] ==>
      var init := steps[..|steps| - 1];
      Survivable(init) && !Fatal(Run(init), steps[|steps| - 1])
  }

  lemma {:induction false} NoFailuresSurvive(steps: seq<Step>)
    requires NoFailures(steps)
    ensures Survivable(steps)
  {
    if steps != [] {
      assert !steps[|steps| - 1].IsFailure();
      NoFailuresSurvive(steps[..|steps| - 1]);
    }
  }

  /** Retiring is the last stop: the queue's next action on such a job ends it. */
  lemma RetiringEnds(t: Tables, job: Job, j: JobId)
    requires Retiring(job)
    ensures !Live(Moved(t, job, Finish(j)))
  {}

  // No lost work

  /** A job gives up on a delivery only when the row is gone or has succeeded. */
  lemma MovedActive(t: Tables, job: Job, step: Step)
    requires step.IsWorker() && !step.IsFailure() && KeysOk(t) && JobOk(job) && Linked(t, job)
    ensures Active(Moved(t, job, step)) ==> Active(job)
    ensures Active(job) && !Active(Moved(t, job, step)) ==>
              job.delivery !in t.deliveries || t.deliveries[job.delivery].status == Succeeded
    ensures Moved(t, job, step).delivery == job.delivery
  {}

  /** The same when errors and crashes may happen before the last attempt. */
  lemma MovedSurvives(t: Tables, job: Job, step: Step)
    requires step.IsWorker() && KeysOk(t) && JobOk(job) && Linked(t, job)
    requires step.IsFailure() && Active(job) ==> Active(Moved(t, job, step))
    ensures Active(job) && !Active(Moved(t, job, step)) ==>
              job.delivery !in t.deliveries || t.deliveries[job.delivery].status == Succeeded
    ensures Moved(t, job, step).delivery == job.delivery
  {}

  lemma WorkerDriven(s: State, step: Step)
    requires Basic(s) && AllDriven(s.t) && step.IsWorker() && !Fatal(s, step)
    ensures AllDriven(Apply(s, step).t)
  {
    hide Moved, Noted, Active;
    var j := JobOf(step);
    if j < |s.t.jobs| {
      var t' := Apply(s, step).t;
      MovedSurvives(s.t, s.t.jobs[j], step);
      forall d | d in t'.deliveries && Undecided(t'.deliveries[d]) ensures Driven(t', d) {
        assert Driven(s.t, d);
        var k :| Drives(s.t.jobs, d, k);
        assert Drives(t'.jobs, d, k);
      }
    }
  }

  /** After a recording the row is undecided only if the same job will try again, even when the reply is lost. */
  lemma RecordingSurvives(s: State, j: JobId, now: int, ack: bool)
    requires j < |s.t.jobs| && Basic(s) && History.AllNumbered(s.t)
    ensures var s' := Recording(s, j, now, ack); var job := s.t.jobs[j];
            (job.state.Running? && job.state.pc.Dispatched? && job.delivery in s.t.deliveries ==>
               && Records(s, j)
               && s'.t.deliveries[job.delivery] == RecordedRow(s.t.deliveries[job.delivery], job, now)
               && (Undecided(s'.t.deliveries[job.delivery]) ==> Active(s'.t.jobs[j])))
  {
    RecordingEffect(s, j, now, ack);
    var job := s.t.jobs[j];
    if job.state.Running? && job.state.pc.Dispatched? && job.delivery in s.t.deliveries {
      assert History.Numbered(s.t, job.delivery);
      History.NextIsFree(s.t.attempts, job.delivery, s.t.deliveries[job.delivery].attemptCount);
    }
  }

  /** When the reply arrives, the row is undecided exactly if the same job will try again. */
  lemma RecordingDrives(s: State, j: JobId, now: int)
    requires j < |s.t.jobs| && Basic(s) && History.AllNumbered(s.t)
    ensures var s' := Recording(s, j, now, true); var job := s.t.jobs[j];
            (job.state.Running? && job.state.pc.Dispatched? && job.delivery in s.t.deliveries ==>
               && Records(s, j)
               && s'.t.deliveries[job.delivery] == RecordedRow(s.t.deliveries[job.delivery], job, now)
               && Active(s'.t.jobs[j]) == Undecided(s'.t.deliveries[job.delivery])
               && s'.t.deliveries[job.delivery].status != Pending)
  {
    RecordingSurvives(s, j, now, true);
    RecordingEffect(s, j, now, true);
  }

  lemma RecordingDriven(s: State, j: JobId, now: int, ack: bool)
    requires Basic(s) && History.AllNumbered(s.t) && AllDriven(s.t) && j < |s.t.jobs|
    ensures AllDriven(Recording(s, j, now, ack).t)
  {
    RecordingEffect(s, j, now, ack);
    RecordingSurvives(s, j, now, ack);
    hide Recording, Active, RecordedRow, ReturnFor, History.AllNumbered, Records;
    var s' := Recording(s, j, now, ack);
    forall d | d in s'.t.deliveries && Undecided(s'.t.deliveries[d]) ensures Driven(s'.t, d) {
      if d == s.t.jobs[j].delivery && s.t.jobs[j].state.Running? && s.t.jobs[j].state.pc.Dispatched? {
        assert Drives(s'.t.jobs, d, j);
      } else {
        assert Driven(s.t, d);
        var k :| Drives(s.t.jobs, d, k);
        assert Drives(s'.t.jobs, d, k);
      }
    }
  }

  lemma EnqueueDriven(s: State, step: Step)
    requires Basic(s) && AllDriven(s.t) && (step.IngestEvent? || step.Replay?)
    ensures AllDriven(Apply(s, step).t)
  {
    var mid, event, targets := EnqueueEffect(s, step);
    hide Apply, Births, ProperTargets, KeysOk, JobsOk;
    var t, t' := s.t, Apply(s, step).t;
    forall d | d in t'.deliveries && Undecided(t'.deliveries[d]) ensures Driven(t', d) {
      if d in t.deliveries {
        assert Driven(t, d);
        var k :| Drives(t.jobs, d, k);
        assert Drives(t'.jobs, d, k);
      } else {
        FannedRow(mid, t', event, targets, d);
        FannedJob(mid, t', event, targets, |t.jobs| + d - t.nextDelivery);
        assert Drives(t'.jobs, d, |t.jobs| + d - t.nextDelivery);
      }
    }
  }

  lemma RecoverDriven(s: State, r: nat)
    requires AllDriven(s.t)
    ensures AllDriven(Apply(s, RecoverCommit(r)).t)
  {
    var t, t' := s.t, Apply(s, RecoverCommit(r)).t;
    if r < |s.recoveries| && s.recoveries[r].stage.Armed? {
      forall d | d in t'.deliveries && Undecided(t'.deliveries[d]) ensures Driven(t', d) {
        if d == s.recoveries[r].delivery {
          assert Drives(t'.jobs, d, |t.jobs|);
        } else {
          assert Driven(t, d);
          var k :| Drives(t.jobs, d, k);
          assert Drives(t'.jobs, d, k);
        }
      }
    }
  }

  lemma DrivenStep(s: State, step: Step)
    requires Basic(s) && History.AllNumbered(s.t) && AllDriven(s.t) && !Fatal(s, step)
    ensures AllDriven(Apply(s, step).t)
  {
    hide Active, History.AllNumbered;
    if step.IsWorker() {
      WorkerDriven(s, step);
    } else if step.IngestEvent? || step.Replay? {
      EnqueueDriven(s, step);
    } else if step.Record? || step.RecordUnacknowledged? {
      if step.j < |s.t.jobs| { RecordingDriven(s, step.j, step.now, step.Record?); }
    } else if step.RecoverCommit? {
      RecoverDriven(s, step.r);
    } else {
      if step.DropDestination? || step.DropSource? { var gone := DeleteEffect(s, step); }
      var t' := Apply(s, step).t;
      forall d | d in t'.deliveries && Undecided(t'.deliveries[d]) ensures Driven(t', d) {
        assert Driven(s.t, d);
        var k :| Drives(s.t.jobs, d, k);
        assert Drives(t'.jobs, d, k);
      }
    }
  }

  /** No lost work: at every interleaving, overlapping recoveries, lost replies and failures before a job's last attempt
      included, every pending or failed delivery has a live job that will still act on it. */
  lemma {:induction false} NoLostWork(steps: seq<Step>)
    requires Survivable(steps)
    ensures AllDriven(Run(steps).t)
  {
    if steps != [] {
      var init, step := steps[..|steps| - 1], steps[|steps| - 1];
      NoLostWork(init);
      BasicHolds(init);
      History.AttemptsAreNumbered(init);
      DrivenStep(Run(init), step);
    }
  }

  // Recoveries that do not overlap

  ghost predicate NoOverlap(s: State) {
    forall r, q :: 0 <= r < q < |s.recoveries| && s.recoveries[r].Open() && s.recoveries[q].Open()
      ==> s.recoveries[r].delivery != s.recoveries[q].delivery
  }

  ghost predicate NoOverlaps(steps: seq<Step>) {
    NoOverlap(Run(steps)) && (steps != [] ==> NoOverlaps(steps[..|steps| - 1]))
  }

  /** Only the job a row names is active for it, and exactly while the row is undecided; a recovery is open
      only on a dead-lettered row; the dead-letter time is set exactly on dead-lettered rows. */
  ghost predicate Exclusive(s: State) {
    && (forall j :: 0 <= j < |s.t.jobs| && Active(s.t.jobs[j]) && s.t.jobs[j].delivery in s.t.deliveries ==>
          var row := s.t.deliveries[s.t.jobs[j].delivery];
          Undecided(row) && row.job == Some(j))
    && (forall d :: d in s.t.deliveries ==> RowOk(s.t, d))
    && (forall r :: 0 <= r < |s.recoveries| && s.recoveries[r].Open() && s.recoveries[r].delivery in s.t.deliveries ==>
          s.t.deliveries[s.recoveries[r].delivery].status == DeadLettered)
  }

  ghost predicate RowOk(t: Tables, d: DeliveryId)
    requires d in t.deliveries
  {
    var row := t.deliveries[d];
    && (Undecided(row) ==> row.job.Some? && Drives(t.jobs, d, row.job.value))
    && (row.deadLetteredAt.Some? <==> row.status == DeadLettered)
  }

  lemma WorkerExclusive(s: State, step: Step)
    requires Basic(s) && Exclusive(s) && step.IsWorker() && !step.IsFailure()
    ensures Exclusive(Apply(s, step))
  {
    hide Moved, Noted, Active;
    var j := JobOf(step);
    if j < |s.t.jobs| {
      var t' := Apply(s, step).t;
      MovedActive(s.t, s.t.jobs[j], step);
      forall d | d in t'.deliveries ensures RowOk(t', d) {
        assert RowOk(s.t, d);
      }
    }
  }

  lemma RecordingExclusive(s: State, j: JobId, now: int)
    requires Basic(s) && History.AllNumbered(s.t) && Exclusive(s) && j < |s.t.jobs|
    ensures Exclusive(Recording(s, j, now, true))
  {
    RecordingEffect(s, j, now, true);
    RecordingDrives(s, j, now);
    hide Recording, ReturnFor, History.AllNumbered, KeysOk, JobsOk, HasAttempt;
    var s' := Recording(s, j, now, true);
    var job := s.t.jobs[j];
    if job.state.Running? && job.state.pc.Dispatched? {
      assert Active(job);
      if job.delivery in s.t.deliveries {
        RecordedExclusive(s, s', j, now);
      } else {
        forall d | d in s'.t.deliveries ensures RowOk(s'.t, d) { assert RowOk(s.t, d); }
      }
    }
  }

  lemma RecordedExclusive(s: State, s': State, j: JobId, now: int)
    requires Exclusive(s) && j < |s.t.jobs|
    requires var job := s.t.jobs[j];
             && job.state.Running? && job.state.pc.Dispatched? && job.delivery in s.t.deliveries
             && s'.recoveries == s.recoveries
             && s'.t.deliveries == s.t.deliveries[job.delivery := RecordedRow(s.t.deliveries[job.delivery], job, now)]
             && |s'.t.jobs| == |s.t.jobs| && s'.t.jobs == s.t.jobs[j := s'.t.jobs[j]]
             && s'.t.jobs[j].delivery == job.delivery
             && Active(s'.t.jobs[j]) == Undecided(s'.t.deliveries[job.delivery])
             && s'.t.deliveries[job.delivery].status != Pending
    ensures Exclusive(s')
  {
    var job := s.t.jobs[j];
    assert Active(job);
    assert RowOk(s.t, job.delivery);
    hide Active, DeliveryStatus;
    forall d | d in s'.t.deliveries ensures RowOk(s'.t, d) {
      assert RowOk(s.t, d);
    }
  }

  lemma EnqueueExclusive(s: State, step: Step)
    requires Basic(s) && Exclusive(s) && (step.IngestEvent? || step.Replay?)
    ensures Exclusive(Apply(s, step))
  {
    var mid, event, targets := EnqueueEffect(s, step);
    hide Apply;
    FannedExclusive(s, Apply(s, step), mid, event, targets);
  }

  lemma FannedExclusive(s: State, s': State, mid: Tables, event: EventId, targets: seq<Target>)
    requires Basic(s) && Exclusive(s) && Fans(s, s', mid, event, targets)
    ensures Exclusive(s')
  {
    hide Births, ProperTargets, KeysOk, JobOk, Linked;
    var t, t' := s.t, s'.t;
    forall j | 0 <= j < |t'.jobs| && Active(t'.jobs[j]) && t'.jobs[j].delivery in t'.deliveries
      ensures var row := t'.deliveries[t'.jobs[j].delivery]; Undecided(row) && row.job == Some(j)
    {
      if j < |t.jobs| {
        assert t'.jobs[j] == t.jobs[j] && t.jobs[j].delivery < t.nextDelivery;
        assert t.jobs[j].delivery in t.deliveries;
      } else {
        FannedJob(mid, t', event, targets, j);
        FannedNew(s, mid, t', event, targets, t'.jobs[j].delivery);
      }
    }
    forall d | d in t'.deliveries ensures RowOk(t', d) {
      if d in t.deliveries {
        assert RowOk(t, d);
      } else {
        FannedNew(s, mid, t', event, targets, d);
        FannedJob(mid, t', event, targets, |t.jobs| + d - t.nextDelivery);
      }
    }
  }

  lemma FannedNew(s: State, mid: Tables, t': Tables, event: EventId, targets: seq<Target>, d: DeliveryId)
    requires Basic(s) && mid.deliveries == s.t.deliveries && mid.nextDelivery == s.t.nextDelivery
    requires FannedOut(mid, t', event, targets) && d in t'.deliveries && d >= s.t.nextDelivery
    ensures d !in s.t.deliveries
    ensures var i := d - mid.nextDelivery;
            0 <= i < |targets| && t'.deliveries[d] == NewDelivery(event, targets[i].dest, |mid.jobs| + i)
  {
    FannedRow(mid, t', event, targets, d);
  }

  lemma RecoverExclusive(s: State, r: nat)
    requires Basic(s) && Exclusive(s) && NoOverlap(s)
    ensures Exclusive(Apply(s, RecoverCommit(r)))
  {
    hide KeysOk, JobsOk;
    var s' := Apply(s, RecoverCommit(r));
    if r < |s.recoveries| && s.recoveries[r].stage.Armed? {
      var t, t', d := s.t, s'.t, s.recoveries[r].delivery;
      assert s.recoveries[r].Open();
      assert t'.jobs[..|t.jobs|] == t.jobs;
      forall q | 0 <= q < |s'.recoveries| && s'.recoveries[q].Open() ensures q != r && s.recoveries[q].delivery != d {
        assert s.recoveries[q].Open();
      }
      forall x | x in t'.deliveries ensures RowOk(t', x) {
        assert RowOk(t, x);
      }
    }
  }

  /** What exclusiveness says of rows and jobs depends on nothing else. */
  lemma SameRowsExclusive(s: State, s': State)
    requires Exclusive(s) && s'.t.deliveries == s.t.deliveries && s'.t.jobs == s.t.jobs
    requires forall r :: 0 <= r < |s'.recoveries| && s'.recoveries[r].Open() ==>
               OpenBefore(s, s'.recoveries[r].delivery)
    ensures Exclusive(s')
  {
    hide Active;
    forall d | d in s'.t.deliveries ensures RowOk(s'.t, d) { assert RowOk(s.t, d); }
  }

  /** A recovery of the delivery is open, or may be opened. */
  ghost predicate OpenBefore(s: State, d: DeliveryId) {
    || (exists r :: 0 <= r < |s.recoveries| && s.recoveries[r].Open() && s.recoveries[r].delivery == d)
    || (d in s.t.deliveries && s.t.deliveries[d].status == DeadLettered)
  }

  lemma OtherExclusive(s: State, step: Step)
    requires Exclusive(s)
    requires step.RecoverRead? || step.RecoverReadDestination? || step.RecoverAbort? || step.Configure?
             || step.CleanDedup?
    ensures Exclusive(Apply(s, step))
  {
    hide Exclusive, Moved, Noted, Recording, Enqueued, FanOut, Recover, DeleteDestination, DeleteSource, UniqueRoutes;
    var s' := Apply(s, step);
    forall r | 0 <= r < |s'.recoveries| && s'.recoveries[r].Open() ensures OpenBefore(s, s'.recoveries[r].delivery) {
      if r < |s.recoveries| { assert s.recoveries[r].Open(); }
    }
    SameRowsExclusive(s, s');
  }

  lemma DeleteExclusive(s: State, step: Step)
    requires Basic(s) && Exclusive(s) && (step.DropDestination? || step.DropSource?)
    ensures Exclusive(Apply(s, step))
  {
    var gone := DeleteEffect(s, step);
    hide Apply, Active, UniqueRoutes, KeysOk, JobsOk, KeepAttempts;
    var s' := Apply(s, step);
    forall d | d in s'.t.deliveries ensures RowOk(s'.t, d) { assert RowOk(s.t, d); }
  }

  lemma ExclusiveStep(s: State, step: Step)
    requires Basic(s) && History.AllNumbered(s.t) && Exclusive(s) && NoOverlap(s) && !step.IsFailure()
    ensures Exclusive(Apply(s, step))
  {
    hide Exclusive, Basic, History.AllNumbered, NoOverlap;
    if step.IsWorker() {
      WorkerExclusive(s, step);
    } else if step.IngestEvent? || step.Replay? {
      EnqueueExclusive(s, step);
    } else if step.Record? {
      if step.j < |s.t.jobs| { RecordingExclusive(s, step.j, step.now); }
    } else if step.RecoverCommit? {
      RecoverExclusive(s, step.r);
    } else if step.DropDestination? || step.DropSource? {
      DeleteExclusive(s, step);
    } else {
      OtherExclusive(s, step);
    }
  }

  lemma {:induction false} ExclusiveHolds(steps: seq<Step>)
    requires NoFailures(steps) && NoOverlaps(steps)
    ensures Exclusive(Run(steps))
  {
    if steps != [] {
      var init, step := steps[..|steps| - 1], steps[|steps| - 1];
      assert NoFailures(init) && !step.IsFailure();
      ExclusiveHolds(init);
      BasicHolds(init);
      History.AttemptsAreNumbered(init);
      ExclusiveStep(Run(init), step);
    }
  }

  /** With non-overlapping recoveries: a pending or failed delivery is driven by the job it names, every other live job
      of it being one that the queue is retiring; a succeeded or dead-lettered delivery has only such retiring jobs,
      hence none once they have finished; it carries a dead-letter time exactly when it is dead-lettered. */
  lemma OneJobEach(steps: seq<Step>, d: DeliveryId)
    requires NoFailures(steps) && NoOverlaps(steps) && d in Run(steps).t.deliveries
    ensures var t := Run(steps).t; var row := t.deliveries[d];
            && (Undecided(row) ==>
                  && row.job.Some? && Drives(t.jobs, d, row.job.value)
                  && forall k :: 0 <= k < |t.jobs| && t.jobs[k].delivery == d && Live(t.jobs[k]) && k != row.job.value
                       ==> Retiring(t.jobs[k]))
            && (!Undecided(row) ==>
                  forall k :: 0 <= k < |t.jobs| && t.jobs[k].delivery == d && Live(t.jobs[k]) ==> Retiring(t.jobs[k]))
            && (row.deadLetteredAt.Some? <==> row.status == DeadLettered)
  {
    ExclusiveHolds(steps);
    assert RowOk(Run(steps).t, d);
  }

  /** What survivability excludes does lose work: after such a failure of the job that drives a delivery, the delivery
      is still undecided and no job will act on it. */
  lemma FatalLosesWork(steps: seq<Step>, step: Step)
    requires NoFailures(steps) && NoOverlaps(steps) && Fatal(Run(steps), step)
    requires Run(steps).t.jobs[JobOf(step)].delivery in Run(steps).t.deliveries
    ensures var t, t' := Run(steps).t, Apply(Run(steps), step).t; var d := t.jobs[JobOf(step)].delivery;
            t'.deliveries == t.deliveries && Undecided(t.deliveries[d]) && !Driven(t', d)
  {
    ExclusiveHolds(steps);
    FatalDrops(Run(steps), step);
  }

  lemma FatalDrops(s: State, step: Step)
    requires Exclusive(s) && Fatal(s, step) && s.t.jobs[JobOf(step)].delivery in s.t.deliveries
    ensures var t' := Apply(s, step).t; var d := s.t.jobs[JobOf(step)].delivery;
            t'.deliveries == s.t.deliveries && Undecided(s.t.deliveries[d]) && !Driven(t', d)
  {
    hide Active, Moved, Noted, RowOk;
    var j := JobOf(step);
    var t' := Apply(s, step).t;
    assert t'.jobs == s.t.jobs[j := Moved(s.t, s.t.jobs[j], step)];
    forall k ensures !Drives(t'.jobs, s.t.jobs[j].delivery, k) {}
  }
}
