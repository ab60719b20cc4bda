/** Paused destinations are not sent to: over all runs, every send was cleared by a look at its destination, and while a
    destination stays paused nothing new goes out to it. */
module Pausing {
  import opened Options
  import opened Store
  import opened Dispatch
  import opened Machine
  import opened Basics
  import Finality
  import Ingest
  import Worker

  // Being held back costs nothing

  /** A worker that meets a paused destination, or is told to wait by the pacer, goes back to the queue: its job is
      scheduled again with the attempt given back, and nothing is sent, recorded or changed otherwise. */
  lemma HeldBack(s: State, j: JobId, paced: bool)
    requires j < |s.t.jobs| && s.t.jobs[j].state.Running? && s.t.jobs[j].state.pc.Loaded?
    requires var dest := s.t.jobs[j].state.pc.dest;
             dest in s.t.destinations && (s.t.destinations[dest].paused || paced)
    ensures var job := s.t.jobs[j];
            var s' := Apply(Apply(s, LoadDestination(j, paced)), Finish(j));
            && s' == s.(t := s.t.(jobs := s.t.jobs[j := job.(state := Scheduled, attempt := job.attempt - 1)]),
                        log := s.log + [SnoozedJob(j)])
            && forall d :: Finality.Sends(s'.log, d) == Finality.Sends(s.log, d)
  {
    var job := s.t.jobs[j];
    var s1 := Apply(s, LoadDestination(j, paced));
    var back := job.(state := JobState.Running(Returned(Snooze)));
    assert s.log + [] == s.log;
    assert s1 == s.(t := s.t.(jobs := s.t.jobs[j := back]));
    var after := job.(state := Scheduled, attempt := job.attempt - 1);
    assert s.t.jobs[j := back][j := after] == s.t.jobs[j := after];
    forall d ensures Finality.Sends(s.log + [SnoozedJob(j)], d) == Finality.Sends(s.log, d) {
      Finality.SendsOneMore(s.log, SnoozedJob(j), d);
    }
  }

  // Every send was cleared

  /** The worker of job j looks at its destination, finds it there and not paused, and is not told to wait. */
  ghost predicate Clears(s: State, step: Step, j: JobId, event: EventId, isTunnel: bool, dest: DestId) {
    && step == LoadDestination(j, false) && j < |s.t.jobs|
    && s.t.jobs[j].state == JobState.Running(Loaded(event, dest))
    && dest in s.t.destinations && !s.t.destinations[dest].paused && s.t.destinations[dest].isTunnel == isTunnel
  }

  ghost predicate ReadyAt(s: State, j: JobId, event: EventId, isTunnel: bool) {
    j < |s.t.jobs| && s.t.jobs[j].state == JobState.Running(Ready(event, isTunnel))
  }

  lemma ReadyByWorker(s: State, step: Step, j: JobId, event: EventId, isTunnel: bool) returns (dest: DestId)
    requires step.IsWorker() && JobOf(step) == j && ReadyAt(Apply(s, step), j, event, isTunnel)
    ensures ReadyAt(s, j, event, isTunnel) || Clears(s, step, j, event, isTunnel, dest)
  {
    hide Noted;
    dest := 0;
    if j < |s.t.jobs| && s.t.jobs[j].state.Running? && s.t.jobs[j].state.pc.Loaded? {
      dest := s.t.jobs[j].state.pc.dest;
    }
  }

  lemma NewJobsWait(s: State, step: Step, j: JobId)
    requires Basic(s) && |s.t.jobs| <= j < |Apply(s, step).t.jobs|
    ensures Apply(s, step).t.jobs[j].state.Available?
  {
    hide Moved, Noted, HasAttempt, DeleteDestination, DeleteSource, UniqueRoutes, JobsOk, RecoveriesOk;
    if step.IngestEvent? || step.Replay? {
      var mid, event, targets := EnqueueEffect(s, step);
      hide Apply, FannedOut;
      FannedJob(mid, Apply(s, step).t, event, targets, j);
    } else if step.DropDestination? || step.DropSource? {
      var gone := DeleteEffect(s, step);
    }
  }

  lemma ReadyStep(s: State, step: Step, j: JobId, event: EventId, isTunnel: bool) returns (dest: DestId)
    requires Basic(s) && ReadyAt(Apply(s, step), j, event, isTunnel)
    ensures ReadyAt(s, j, event, isTunnel) || Clears(s, step, j, event, isTunnel, dest)
  {
    hide Basic;
    dest := 0;
    if j >= |s.t.jobs| {
      NewJobsWait(s, step, j);
    } else if step.IsWorker() && JobOf(step) == j {
      dest := ReadyByWorker(s, step, j, event, isTunnel);
    } else if (step.Record? || step.RecordUnacknowledged?) && step.j == j {
      RecordingEffect(s, j, step.now, step.Record?);
      hide Recording, HasAttempt;
    } else {
      Worker.StepKeeps(s, step, j);
    }
  }

  /** A job ready to send has been so since its worker cleared it. */
  lemma {:induction false} ReadyWasCleared(steps: seq<Step>, j: JobId, event: EventId, isTunnel: bool)
    returns (i: nat, dest: DestId)
    requires ReadyAt(Run(steps), j, event, isTunnel)
    ensures i < |steps| && Clears(Run(steps[..i]), steps[i], j, event, isTunnel, dest)
    ensures forall m :: i < m <= |steps| ==> ReadyAt(Run(steps[..m]), j, event, isTunnel)
  {
    NothingReady(j, event, isTunnel);
    hide ReadyAt, Clears, Basic, Apply, Exec, Run;
    var n := |steps| - 1;
    var init := steps[..n];
    RunLast(steps);
    BasicHolds(init);
    dest := ReadyStep(Run(init), steps[n], j, event, isTunnel);
    if ReadyAt(Run(init), j, event, isTunnel) {
      i, dest := ReadyWasCleared(init, j, event, isTunnel);
      assert init[..i] == steps[..i] && init[i] == steps[i];
      forall m | i < m <= |steps| ensures ReadyAt(Run(steps[..m]), j, event, isTunnel) {
        if m <= n { assert init[..m] == steps[..m]; } else { assert steps[..m] == steps; }
      }
    } else {
      i := n;
      assert steps[..|steps|] == steps;
    }
  }

  lemma NothingReady(j: JobId, event: EventId, isTunnel: bool)
    ensures !ReadyAt(Run([]), j, event, isTunnel)
  {}

  lemma RunLast(steps: seq<Step>)
    requires steps != []
    ensures Run(steps) == Apply(Run(steps[..|steps| - 1]), steps[|steps| - 1])
  {
    hide Apply;
  }

  lemma SentIsReady(s: State, step: Step, d: DeliveryId, j: JobId) returns (event: EventId, isTunnel: bool)
    requires Apply(s, step).log == s.log + [Sent(d, j)]
    ensures ReadyAt(s, j, event, isTunnel) && s.t.jobs[j].delivery == d && event in s.t.events
  {
    event, isTunnel := 0, false;
    var e := Apply(s, step).log[|s.log|];
    assert e == Sent(d, j);
    if step.IsWorker() && JobOf(step) < |s.t.jobs| {
      var job := s.t.jobs[JobOf(step)];
      assert Noted(s.t, job, step) == [Sent(d, j)] by {
        assert (s.log + Noted(s.t, job, step))[|s.log|..] == Noted(s.t, job, step);
        assert (s.log + [Sent(d, j)])[|s.log|..] == [Sent(d, j)];
      }
      hide Moved;
      event, isTunnel := job.state.pc.event, job.state.pc.isTunnel;
    } else {
      NeverSent(s, step);
    }
  }

  lemma {:induction false} BirthsAreCreated(from: DeliveryId, n: nat)
    ensures forall i :: 0 <= i < |Births(from, n)| ==> Births(from, n)[i].Created?
  {
    if n > 0 { BirthsAreCreated(from, n - 1); }
  }

  lemma NeverSent(s: State, step: Step)
    requires !step.IsWorker() || JobOf(step) >= |s.t.jobs|
    ensures forall i :: |s.log| <= i < |Apply(s, step).log| ==> !Apply(s, step).log[i].Sent?
  {
    hide FanOut, RouteTargets, Ingest.Committed, HasAttempt, Births, DeleteDestination, DeleteSource, UniqueRoutes;
    if step.IngestEvent? || step.Replay? {
      var n := |Apply(s, step).log| - |s.log|;
      forall from: DeliveryId, k: nat ensures forall i :: 0 <= i < |Births(from, k)| ==> Births(from, k)[i].Created? {
        BirthsAreCreated(from, k);
      }
    }
  }

  /** Every send in every run, failures included: since some earlier step the job has been ready, and at that step its
      worker found its destination, that of the delivery while the row exists, present and not paused. */
  lemma SentWasCleared(steps: seq<Step>, step: Step, d: DeliveryId, j: JobId)
    returns (i: nat, event: EventId, isTunnel: bool, dest: DestId)
    requires Apply(Run(steps), step).log == Run(steps).log + [Sent(d, j)]
    ensures i < |steps| && Clears(Run(steps[..i]), steps[i], j, event, isTunnel, dest)
    ensures forall m :: i < m <= |steps| ==> ReadyAt(Run(steps[..m]), j, event, isTunnel)
    ensures var t := Run(steps[..i]).t;
            t.jobs[j].delivery in t.deliveries ==> t.deliveries[t.jobs[j].delivery].dest == dest
  {
    event, isTunnel := SentIsReady(Run(steps), step, d, j);
    i, dest := ReadyWasCleared(steps, j, event, isTunnel);
    BasicHolds(steps[..i]);
    assert Linked(Run(steps[..i]).t, Run(steps[..i]).t.jobs[j]);
  }

  // While a destination stays paused

  /** The delivery goes to this destination, which is paused or gone, and no worker on it is ready to send. */
  ghost predicate Held(s: State, d: DeliveryId, dest: DestId) {
    && d < s.t.nextDelivery && (d in s.t.deliveries ==> s.t.deliveries[d].dest == dest)
    && (dest in s.t.destinations ==> s.t.destinations[dest].paused)
    && (forall j :: 0 <= j < |s.t.jobs| && s.t.jobs[j].delivery == d ==> Kept(s.t.jobs[j], dest))
  }

  predicate Kept(job: Job, dest: DestId) {
    job.state.Running? ==> !job.state.pc.Ready? && (job.state.pc.Loaded? ==> job.state.pc.dest == dest)
  }

  lemma KeptMoves(t: Tables, job: Job, step: Step, dest: DestId)
    requires step.IsWorker() && Kept(job, dest) && (dest in t.destinations ==> t.destinations[dest].paused)
    requires job.delivery in t.deliveries ==> t.deliveries[job.delivery].dest == dest
    ensures Kept(Moved(t, job, step), dest) && forall e :: e in Noted(t, job, step) ==> !e.Sent?
  {}

  lemma HeldStep(s: State, step: Step, d: DeliveryId, dest: DestId)
    requires Basic(s) && Held(s, d, dest) && !step.Configure?
    ensures Held(Apply(s, step), d, dest) && Finality.Sends(Apply(s, step).log, d) == Finality.Sends(s.log, d)
  {
    hide Basic, Finality.Sends;
    if step.IsWorker() {
      HeldWorker(s, step, d, dest);
    } else if step.IngestEvent? || step.Replay? {
      HeldEnqueue(s, step, d, dest);
    } else if step.Record? || step.RecordUnacknowledged? {
      if step.j < |s.t.jobs| { HeldRecording(s, step.j, step.now, step.Record?, d, dest); }
    } else {
      HeldOther(s, step, d, dest);
    }
  }

  lemma HeldWorker(s: State, step: Step, d: DeliveryId, dest: DestId)
    requires Held(s, d, dest) && step.IsWorker()
    ensures Held(Apply(s, step), d, dest) && Finality.Sends(Apply(s, step).log, d) == Finality.Sends(s.log, d)
  {
    hide Moved, Noted, Kept, Finality.Sends;
    var j := JobOf(step);
    if j < |s.t.jobs| {
      var job := s.t.jobs[j];
      if job.delivery == d { KeptMoves(s.t, job, step, dest); }
      Finality.MovedDelivery(s.t, job, step);
      Finality.NotedSends(s.log, s.t, job, step, d);
    }
  }

  lemma HeldRecording(s: State, j: JobId, now: int, ack: bool, d: DeliveryId, dest: DestId)
    requires Held(s, d, dest) && j < |s.t.jobs|
    ensures var s' := Recording(s, j, now, ack);
            Held(s', d, dest) && Finality.Sends(s'.log, d) == Finality.Sends(s.log, d)
  {
    RecordingEffect(s, j, now, ack);
    hide Recording, Records, Finality.Sends, ReturnFor, DeliveryStatus;
    var job := s.t.jobs[j];
    if job.state.Running? && job.state.pc.Dispatched? {
      Finality.SendsOneMore(s.log, Recorded(job.delivery, j), d);
      var s' := Recording(s, j, now, ack);
      assert s'.t.jobs[j].state.pc.Returned? && s'.t.jobs == s.t.jobs[j := s'.t.jobs[j]];
    }
  }

  lemma HeldEnqueue(s: State, step: Step, d: DeliveryId, dest: DestId)
    requires Basic(s) && Held(s, d, dest) && (step.IngestEvent? || step.Replay?)
    ensures Held(Apply(s, step), d, dest) && Finality.Sends(Apply(s, step).log, d) == Finality.Sends(s.log, d)
  {
    var mid, event, targets := EnqueueEffect(s, step);
    hide Apply, Births, ProperTargets, Finality.Sends, KeysOk, JobsOk;
    var s' := Apply(s, step);
    Finality.SendsBirths(s.log, s.t.nextDelivery, |targets|, d);
    forall j | 0 <= j < |s'.t.jobs| && s'.t.jobs[j].delivery == d ensures Kept(s'.t.jobs[j], dest) {
      if j >= |s.t.jobs| { FannedJob(mid, s'.t, event, targets, j); }
    }
  }

  lemma HeldOther(s: State, step: Step, d: DeliveryId, dest: DestId)
    requires Basic(s) && Held(s, d, dest) && !step.IsWorker() && !step.IngestEvent? && !step.Replay?
    requires !step.Record? && !step.RecordUnacknowledged? && !step.Configure?
    ensures Held(Apply(s, step), d, dest) && Finality.Sends(Apply(s, step).log, d) == Finality.Sends(s.log, d)
  {
    hide Finality.Sends, KeysOk, JobsOk, Kept, KeepAttempts, KeepRoutes, KeepRules;
    assert Kept(NewJob(d, Policy(1, 0, 0)), dest) by { NewJobKept(d, Policy(1, 0, 0), dest); }
    if step.RecoverCommit? && step.r < |s.recoveries| && s.recoveries[step.r].stage.Armed? {
      NewJobKept(s.recoveries[step.r].delivery, s.recoveries[step.r].stage.policy, dest);
      Finality.SendsOneMore(s.log, Reset(s.recoveries[step.r].delivery), d);
    }
  }

  lemma NewJobKept(d: DeliveryId, policy: Policy, dest: DestId)
    ensures Kept(NewJob(d, policy), dest)
  {}

  lemma {:induction false} StaysHeld(s: State, more: seq<Step>, d: DeliveryId, dest: DestId)
    requires Basic(s) && Held(s, d, dest) && forall i :: 0 <= i < |more| ==> !more[i].Configure?
    ensures Basic(Exec(s, more)) && Held(Exec(s, more), d, dest)
    ensures Finality.Sends(Exec(s, more).log, d) == Finality.Sends(s.log, d)
  {
    if more != [] {
      hide Held, Basic, Finality.Sends, Apply;
      var init, step := more[..|more| - 1], more[|more| - 1];
      StaysHeld(s, init, d, dest);
      BasicStep(Exec(s, init), step);
      HeldStep(Exec(s, init), step, d, dest);
    }
  }

  /** While its destination stays paused, that is until it is configured anew, a delivery with no worker ready to send
      is not sent, whatever the queue, workers, recoveries, failures and deletions do. */
  lemma PausedIsQuiet(steps: seq<Step>, more: seq<Step>, d: DeliveryId)
    requires d in Run(steps).t.deliveries
    requires var t := Run(steps).t;
             t.deliveries[d].dest in t.destinations && t.destinations[t.deliveries[d].dest].paused
    requires forall j :: 0 <= j < |Run(steps).t.jobs| && Run(steps).t.jobs[j].delivery == d ==>
               var job := Run(steps).t.jobs[j]; !(job.state.Running? && job.state.pc.Ready?)
    requires forall i :: 0 <= i < |more| ==> !more[i].Configure?
    ensures Finality.Sends(Exec(Run(steps), more).log, d) == Finality.Sends(Run(steps).log, d)
  {
    BasicHolds(steps);
    var s := Run(steps);
    hide Run, Exec, Finality.Sends;
    forall j | 0 <= j < |s.t.jobs| && s.t.jobs[j].delivery == d ensures Kept(s.t.jobs[j], s.t.deliveries[d].dest) {
      assert Linked(s.t, s.t.jobs[j]);
    }
    StaysHeld(s, more, d, s.t.deliveries[d].dest);
  }
}
