/** Exactly one live job per undecided delivery: precisely when recoveries commit on idle deliveries. */
module OneJob {
  import opened Options
  import opened Store
  import opened Dispatch
  import opened Machine
  import opened Basics
  import opened Liveness

  ghost predicate LiveFor(t: Tables, d: DeliveryId, k: JobId) {
    0 <= k < |t.jobs| && t.jobs[k].delivery == d && Live(t.jobs[k])
  }

  /** The queue holds no live job for the delivery: what a recovery could look up before it commits. */
  ghost predicate Idle(t: Tables, d: DeliveryId) { forall k: JobId :: !LiveFor(t, d, k) }

  /** The job that the row names is live and no other job of the delivery is. */
  ghost predicate Sole(t: Tables, d: DeliveryId)
    requires d in t.deliveries
  {
    var job := t.deliveries[d].job;
    job.Some? && LiveFor(t, d, job.value) && forall k: JobId :: LiveFor(t, d, k) ==> k == job.value
  }

  ghost predicate ExactlyOne(t: Tables) {
    forall d :: d in t.deliveries && Undecided(t.deliveries[d]) ==> Sole(t, d)
  }

  /** At every moment of the run. */
  ghost predicate AlwaysExactlyOne(steps: seq<Step>) {
    ExactlyOne(Run(steps).t) && (steps != [] ==> AlwaysExactlyOne(steps[..|steps| - 1]))
  }

  /** The step commits a recovery of a delivery that still exists. */
  predicate Recovers(s: State, step: Step) {
    && step.RecoverCommit? && step.r < |s.recoveries| && s.recoveries[step.r].stage.Armed?
    && s.recoveries[step.r].delivery in s.t.deliveries
  }

  ghost predicate IdleIfRecovers(s: State, step: Step) {
    Recovers(s, step) ==> Idle(s.t, s.recoveries[step.r].delivery)
  }

  /** Every recovery of the run finds its delivery idle when it commits. */
  ghost predicate RecoversIdle(steps: seq<Step>) {
    steps != [] ==>
      var init := steps[..|steps| - 1];
      RecoversIdle(init) && IdleIfRecovers(Run(init), steps[|steps| - 1])
  }

  /** Whatever the status, a row names its only live job. */
  ghost predicate Named(t: Tables) {
    forall d: DeliveryId, k: JobId :: d in t.deliveries && LiveFor(t, d, k) ==> t.deliveries[d].job == Some(k)
  }

  lemma MovedLive(t: Tables, job: Job, step: Step)
    requires step.IsWorker() && Live(Moved(t, job, step))
    ensures Live(job) && Moved(t, job, step).delivery == job.delivery
  {}

  /** A step that keeps rows' links and adds no live job keeps the names. */
  lemma NamedKept(t: Tables, t': Tables)
    requires Named(t)
    requires forall d :: d in t'.deliveries ==> d in t.deliveries && t'.deliveries[d].job == t.deliveries[d].job
    requires forall d: DeliveryId, k: JobId :: LiveFor(t', d, k) ==> LiveFor(t, d, k)
    ensures Named(t')
  {}

  lemma NamedWorker(s: State, step: Step)
    requires Named(s.t) && step.IsWorker()
    ensures Named(Apply(s, step).t)
  {
    hide Moved, Noted, Live, Named;
    var j := JobOf(step);
    if j < |s.t.jobs| {
      var t' := Apply(s, step).t;
      forall d: DeliveryId, k: JobId | LiveFor(t', d, k) ensures LiveFor(s.t, d, k) {
        if k == j { MovedLive(s.t, s.t.jobs[j], step); }
      }
      NamedKept(s.t, t');
    }
  }

  lemma NamedRecording(s: State, j: JobId, now: int, ack: bool)
    requires Named(s.t) && j < |s.t.jobs|
    ensures Named(Recording(s, j, now, ack).t)
  {
    RecordingEffect(s, j, now, ack);
    hide Recording, Named, HasAttempt, DeliveryStatus, ReturnFor;
    NamedKept(s.t, Recording(s, j, now, ack).t);
  }

  lemma NamedEnqueue(s: State, step: Step)
    requires Basic(s) && Named(s.t) && (step.IngestEvent? || step.Replay?)
    ensures Named(Apply(s, step).t)
  {
    var mid, event, targets := EnqueueEffect(s, step);
    hide Apply, Births, ProperTargets, KeysOk, JobOk, Linked;
    var t, t' := s.t, Apply(s, step).t;
    forall d: DeliveryId, k: JobId | d in t'.deliveries && LiveFor(t', d, k) ensures t'.deliveries[d].job == Some(k) {
      if k < |t.jobs| {
        assert t'.jobs[k] == t.jobs[k] && t.jobs[k].delivery < t.nextDelivery;
        assert LiveFor(t, d, k);
      } else {
        FannedJob(mid, t', event, targets, k);
        FannedNew(s, mid, t', event, targets, d);
      }
    }
  }

  lemma NamedRecover(s: State, r: nat)
    requires Named(s.t) && IdleIfRecovers(s, RecoverCommit(r))
    ensures Named(Apply(s, RecoverCommit(r)).t)
  {
    var t, t' := s.t, Apply(s, RecoverCommit(r)).t;
    if r < |s.recoveries| && s.recoveries[r].stage.Armed? {
      forall d: DeliveryId, k: JobId | d in t'.deliveries && LiveFor(t', d, k) ensures t'.deliveries[d].job == Some(k) {
        if k < |t.jobs| {
          assert t'.jobs[k] == t.jobs[k];
          assert LiveFor(t, d, k);
        }
      }
    }
  }

  lemma NamedStep(s: State, step: Step)
    requires Basic(s) && Named(s.t) && IdleIfRecovers(s, step)
    ensures Named(Apply(s, step).t)
  {
    hide Named, IdleIfRecovers, Basic;
    if step.IsWorker() {
      NamedWorker(s, step);
    } else if step.IngestEvent? || step.Replay? {
      NamedEnqueue(s, step);
    } else if step.Record? || step.RecordUnacknowledged? {
      if step.j < |s.t.jobs| { NamedRecording(s, step.j, step.now, step.Record?); }
    } else if step.RecoverCommit? {
      NamedRecover(s, step.r);
    } else {
      NamedOther(s, step);
    }
  }

  lemma NamedOther(s: State, step: Step)
    requires Basic(s) && Named(s.t) && !step.IsWorker() && !step.IngestEvent? && !step.Replay?
    requires !step.Record? && !step.RecordUnacknowledged? && !step.RecoverCommit?
    ensures Named(Apply(s, step).t)
  {
    hide Named, JobsOk, RecoveriesOk, DeleteDestination, DeleteSource, UniqueRoutes;
    if step.DropDestination? || step.DropSource? { var gone := DeleteEffect(s, step); }
    NamedKept(s.t, Apply(s, step).t);
  }

  /** When every recovery commits on an idle delivery, each row, decided or not, names its only live job. */
  lemma {:induction false} NamesHold(steps: seq<Step>)
    requires RecoversIdle(steps)
    ensures Named(Run(steps).t)
  {
    if steps != [] {
      var init := steps[..|steps| - 1];
      NamesHold(init);
      BasicHolds(init);
      NamedStep(Run(init), steps[|steps| - 1]);
    }
  }

  /** A recovery that commits on a delivery with a live job gives it a second one. */
  lemma BusyRecoveryDoubles(s: State, step: Step)
    requires Recovers(s, step) && !Idle(s.t, s.recoveries[step.r].delivery)
    ensures !ExactlyOne(Apply(s, step).t)
  {
    var d, t' := s.recoveries[step.r].delivery, Apply(s, step).t;
    var k: JobId :| LiveFor(s.t, d, k);
    assert LiveFor(t', d, k) && t'.deliveries[d].job == Some(|s.t.jobs|);
    assert !Sole(t', d);
  }

  /** Exactly one live job, the one in river_job_id, for every undecided delivery at every moment of a run that no
      failure ends a job in: if and only if every recovery finds its delivery idle when it commits. */
  lemma {:induction false} ExactlyOneIff(steps: seq<Step>)
    requires Survivable(steps)
    ensures AlwaysExactlyOne(steps) <==> RecoversIdle(steps)
  {
    if steps == [] {
      assert ExactlyOne(Run(steps).t);
    } else {
      var init, step := steps[..|steps| - 1], steps[|steps| - 1];
      ExactlyOneIff(init);
      if RecoversIdle(steps) {
        NamesHold(steps);
        NoLostWork(steps);
        SoleIfNamed(Run(steps).t);
      } else if RecoversIdle(init) {
        BusyRecoveryDoubles(Run(init), step);
      }
    }
  }

  lemma SoleIfNamed(t: Tables)
    requires Named(t) && AllDriven(t)
    ensures ExactlyOne(t)
  {
    forall d | d in t.deliveries && Undecided(t.deliveries[d]) ensures Sole(t, d) {
      assert Driven(t, d);
      var k :| Drives(t.jobs, d, k);
      assert LiveFor(t, d, k);
    }
  }

  // Decided deliveries

  /** The queue's actions on every job of a delivery. */
  function Finishes(jobs: seq<Job>, d: DeliveryId): seq<Step> {
    if jobs == [] then []
    else
      var rest, j := Finishes(jobs[..|jobs| - 1], d), |jobs| - 1;
      if jobs[j].delivery == d then rest + [Finish(j)] else rest
  }

  /** Of the first n jobs those of the delivery are over, and nothing else has changed. */
  ghost predicate Ended(t: Tables, t': Tables, d: DeliveryId, n: nat) {
    && t' == t.(jobs := t'.jobs) && |t'.jobs| == |t.jobs|
    && (forall k: JobId :: k < |t.jobs| && (k >= n || t.jobs[k].delivery != d) ==> t'.jobs[k] == t.jobs[k])
    && (forall k: JobId :: k < |t.jobs| && k < n && t.jobs[k].delivery == d ==>
          t'.jobs[k].delivery == d && !Live(t'.jobs[k]))
  }

  lemma {:induction false} FinishesRetire(s: State, d: DeliveryId, n: nat)
    requires n <= |s.t.jobs| && forall k: JobId :: LiveFor(s.t, d, k) ==> Retiring(s.t.jobs[k])
    ensures Ended(s.t, Exec(s, Finishes(s.t.jobs[..n], d)).t, d, n)
  {
    if n > 0 {
      hide Apply, Retiring, Live, Ended;
      FinishesRetire(s, d, n - 1);
      assert s.t.jobs[..n][..n - 1] == s.t.jobs[..n - 1];
      var rest, job := Finishes(s.t.jobs[..n - 1], d), s.t.jobs[n - 1];
      var mid := Exec(s, rest);
      if job.delivery == d {
        assert (rest + [Finish(n - 1)])[..|rest|] == rest;
        assert Live(job) ==> LiveFor(s.t, d, n - 1);
        EndsOneMore(s.t, mid, d, n);
      } else {
        EndsNoMore(s.t, mid.t, d, n);
      }
    }
  }

  lemma EndsOneMore(t: Tables, mid: State, d: DeliveryId, n: nat)
    requires 0 < n <= |t.jobs| && Ended(t, mid.t, d, n - 1) && t.jobs[n - 1].delivery == d
    requires Live(t.jobs[n - 1]) ==> Retiring(t.jobs[n - 1])
    ensures Ended(t, Apply(mid, Finish(n - 1)).t, d, n)
  {
    hide Apply, Retiring;
    FinishEnds(mid, n - 1);
  }

  lemma EndsNoMore(t: Tables, t': Tables, d: DeliveryId, n: nat)
    requires 0 < n <= |t.jobs| && Ended(t, t', d, n - 1) && t.jobs[n - 1].delivery != d
    ensures Ended(t, t', d, n)
  {}

  lemma FinishEnds(s: State, j: JobId)
    requires j < |s.t.jobs| && (Live(s.t.jobs[j]) ==> Retiring(s.t.jobs[j]))
    ensures var s' := Apply(s, Finish(j));
            && s'.t == s.t.(jobs := s.t.jobs[j := s'.t.jobs[j]]) && |s'.t.jobs| == |s.t.jobs|
            && s'.t.jobs[j].delivery == s.t.jobs[j].delivery && !Live(s'.t.jobs[j])
  {}

  /** Once the queue has finished the jobs of a succeeded or dead-lettered delivery, it has no live job at all. */
  lemma DecidedGoesIdle(steps: seq<Step>, d: DeliveryId)
    requires NoFailures(steps) && NoOverlaps(steps)
    requires d in Run(steps).t.deliveries && !Undecided(Run(steps).t.deliveries[d])
    ensures var s := Run(steps);
            var s' := Exec(s, Finishes(s.t.jobs, d));
            Idle(s'.t, d) && s'.t.deliveries == s.t.deliveries
  {
    OneJobEach(steps, d);
    var s := Run(steps);
    hide Run, Exec, Live, Retiring, Undecided, Finishes;
    assert s.t.jobs[..|s.t.jobs|] == s.t.jobs;
    FinishesRetire(s, d, |s.t.jobs|);
  }
}
