/** Success is final: exactly when, with any failures and any overlap of recoveries before and after. */
module Finality {
  import opened Options
  import opened Store
  import opened Dispatch
  import opened Machine
  import opened Basics
  import opened Liveness
  import History
  import Ingest

  /** A worker on this job can neither send again nor record anything but a success, once its row has succeeded. */
  predicate Harmless(job: Job) {
    job.state.Running? ==>
      || job.state.pc.Fetched?
      || job.state.pc.Returned?
      || (job.state.pc.Dispatched? && job.state.pc.result.succeeded)
  }

  /** No recovery of the delivery is open, and no worker on it is past its check of the status unless it has returned or
      is about to record a success. */
  ghost predicate Settled(s: State, d: DeliveryId) {
    && (forall r :: 0 <= r < |s.recoveries| && s.recoveries[r].delivery == d ==> !s.recoveries[r].Open())
    && (forall j :: 0 <= j < |s.t.jobs| && s.t.jobs[j].delivery == d ==> Harmless(s.t.jobs[j]))
  }

  ghost predicate NotUndone(s: State, d: DeliveryId) {
    d in s.t.deliveries ==> s.t.deliveries[d].status == Succeeded
  }

  /** How often a delivery was sent to its destination. */
  function Sends(log: seq<Entry>, d: DeliveryId): nat {
    if log == [] then 0
    else Sends(log[..|log| - 1], d) + (if log[|log| - 1].Sent? && log[|log| - 1].delivery == d then 1 else 0)
  }

  lemma {:induction false} SendsBirths(log: seq<Entry>, from: DeliveryId, n: nat, d: DeliveryId)
    ensures Sends(log + Births(from, n), d) == Sends(log, d)
  {
    if n == 0 {
      assert log + [] == log;
    } else {
      SendsBirths(log, from, n - 1, d);
      var more := log + Births(from, n);
      assert more[..|more| - 1] == log + Births(from, n - 1);
    }
  }

  lemma SendsOneMore(log: seq<Entry>, e: Entry, d: DeliveryId)
    ensures Sends(log + [e], d) == Sends(log, d) + (if e.Sent? && e.delivery == d then 1 else 0)
  {
    assert (log + [e])[..|log|] == log;
  }

  // A settled success lasts

  /** A delivery that has succeeded or is gone, and is settled. */
  ghost predicate Calm(s: State, d: DeliveryId) { d < s.t.nextDelivery && NotUndone(s, d) && Settled(s, d) }

  lemma HarmlessMoves(t: Tables, job: Job, step: Step)
    requires step.IsWorker() && Harmless(job)
    requires job.delivery in t.deliveries ==> t.deliveries[job.delivery].status == Succeeded
    ensures Harmless(Moved(t, job, step)) && Moved(t, job, step).delivery == job.delivery
    ensures forall e :: e in Noted(t, job, step) ==> !e.Sent?
  {}

  lemma NotedSends(log: seq<Entry>, t: Tables, job: Job, step: Step, d: DeliveryId)
    requires step.IsWorker()
    requires job.delivery == d ==> forall e :: e in Noted(t, job, step) ==> !e.Sent?
    ensures Sends(log + Noted(t, job, step), d) == Sends(log, d)
  {
    hide Sends;
    var noted := Noted(t, job, step);
    if noted == [] {
      assert log + noted == log;
    } else {
      assert noted == [noted[0]];
      SendsOneMore(log, noted[0], d);
    }
  }

  lemma CalmWorker(s: State, step: Step, d: DeliveryId)
    requires Calm(s, d) && step.IsWorker()
    ensures Calm(Apply(s, step), d) && Sends(Apply(s, step).log, d) == Sends(s.log, d)
  {
    hide Moved, Noted, Harmless, Sends;
    var j := JobOf(step);
    if j < |s.t.jobs| {
      var job := s.t.jobs[j];
      if job.delivery == d { HarmlessMoves(s.t, job, step); }
      MovedDelivery(s.t, job, step);
      NotedSends(s.log, s.t, job, step, d);
    }
  }

  lemma MovedDelivery(t: Tables, job: Job, step: Step)
    requires step.IsWorker()
    ensures Moved(t, job, step).delivery == job.delivery
  {}

  lemma SuccessRecorded(row: Delivery, job: Job, now: int)
    requires job.state.Running? && job.state.pc.Dispatched? && Harmless(job)
    ensures RecordedRow(row, job, now).status == Succeeded
  {}

  lemma CalmRecording(s: State, j: JobId, now: int, ack: bool, d: DeliveryId)
    requires Calm(s, d) && j < |s.t.jobs|
    ensures Calm(Recording(s, j, now, ack), d) && Sends(Recording(s, j, now, ack).log, d) == Sends(s.log, d)
  {
    RecordingEffect(s, j, now, ack);
    hide Recording, Records, RecordedRow, Sends, ReturnFor;
    var job := s.t.jobs[j];
    if job.state.Running? && job.state.pc.Dispatched? {
      if job.delivery == d && d in s.t.deliveries { SuccessRecorded(s.t.deliveries[d], job, now); }
      SendsOneMore(s.log, Recorded(job.delivery, j), d);
      var s' := Recording(s, j, now, ack);
      assert s'.t.jobs[j].state.pc.Returned? && s'.t.jobs == s.t.jobs[j := s'.t.jobs[j]];
    }
  }

  lemma CalmEnqueue(s: State, step: Step, d: DeliveryId)
    requires Basic(s) && Calm(s, d) && (step.IngestEvent? || step.Replay?)
    ensures Calm(Apply(s, step), d) && Sends(Apply(s, step).log, d) == Sends(s.log, d)
  {
    var mid, event, targets := EnqueueEffect(s, step);
    hide Apply, Births, ProperTargets, Sends, KeysOk, JobsOk;
    var s' := Apply(s, step);
    SendsBirths(s.log, s.t.nextDelivery, |targets|, d);
    forall j | 0 <= j < |s'.t.jobs| && s'.t.jobs[j].delivery == d ensures Harmless(s'.t.jobs[j]) {
      if j >= |s.t.jobs| { FannedJob(mid, s'.t, event, targets, j); }
    }
  }

  lemma CalmOther(s: State, step: Step, d: DeliveryId)
    requires Basic(s) && Calm(s, d) && !step.IsWorker() && !step.IngestEvent? && !step.Replay?
    requires !step.Record? && !step.RecordUnacknowledged?
    ensures Calm(Apply(s, step), d) && Sends(Apply(s, step).log, d) == Sends(s.log, d)
  {
    hide Sends, KeysOk, JobsOk, Harmless, DeleteDestination, DeleteSource;
    if step.DropDestination? || step.DropSource? { var gone := DeleteEffect(s, step); }
    if step.RecoverCommit? && step.r < |s.recoveries| {
      SendsOneMore(s.log, Reset(s.recoveries[step.r].delivery), d);
    }
  }

  lemma CalmStep(s: State, step: Step, d: DeliveryId)
    requires Basic(s) && Calm(s, d)
    ensures Calm(Apply(s, step), d) && Sends(Apply(s, step).log, d) == Sends(s.log, d)
  {
    hide Calm, Basic, Sends, Recording, Moved, Noted, FanOut, Ingest.Committed;
    if step.IsWorker() {
      CalmWorker(s, step, d);
    } else if step.IngestEvent? || step.Replay? {
      CalmEnqueue(s, step, d);
    } else if step.Record? || step.RecordUnacknowledged? {
      if step.j < |s.t.jobs| { CalmRecording(s, step.j, step.now, step.Record?, d); }
    } else {
      CalmOther(s, step, d);
    }
  }

  lemma {:induction false} StaysCalm(s: State, more: seq<Step>, d: DeliveryId)
    requires Basic(s) && Calm(s, d)
    ensures Basic(Exec(s, more)) && Calm(Exec(s, more), d) && Sends(Exec(s, more).log, d) == Sends(s.log, d)
  {
    if more != [] {
      hide Calm, Basic, Sends, Apply;
      var init, step := more[..|more| - 1], more[|more| - 1];
      StaysCalm(s, init, d);
      BasicStep(Exec(s, init), step);
      CalmStep(Exec(s, init), step, d);
    }
  }

  // An unsettled success can be undone

  /** One continuation of the run that undoes the success. */
  ghost predicate CanBeUndone(s: State, d: DeliveryId) { exists more :: !NotUndone(Exec(s, more), d) }

  /** If one step leads to a state from which the success can be undone, it can be undone. */
  lemma UndoneAfter(s: State, step: Step, d: DeliveryId)
    requires CanBeUndone(Apply(s, step), d)
    ensures CanBeUndone(s, d)
  {
    hide Apply, Exec;
    var more :| !NotUndone(Exec(Apply(s, step), more), d);
    ExecAppend(s, [step], more);
    ExecOne(s, step);
    assert !NotUndone(Exec(s, [step] + more), d);
  }

  lemma UndoneNow(s: State, d: DeliveryId)
    requires !NotUndone(s, d)
    ensures CanBeUndone(s, d)
  {
    assert Exec(s, []) == s;
  }

  /** An administrator makes a destination present, active and reachable over HTTP. */
  function Reopen(s: State, dest: DestId): Step {
    Configure(s.t.destinations[dest := Destination(Policy(1, 0, 0), false, false)], s.t.routes, s.t.rules)
  }

  lemma Reopened(s: State, dest: DestId)
    requires UniqueRoutes(s.t.routes)
    ensures Apply(s, Reopen(s, dest))
         == s.(t := s.t.(destinations := s.t.destinations[dest := Destination(Policy(1, 0, 0), false, false)]))
  {}

  lemma ArmedUndoes(s: State, r: nat, d: DeliveryId)
    requires d in s.t.deliveries && r < |s.recoveries| && s.recoveries[r].delivery == d && s.recoveries[r].stage.Armed?
    ensures CanBeUndone(s, d)
  {
    UndoneNow(Apply(s, RecoverCommit(r)), d);
    UndoneAfter(s, RecoverCommit(r), d);
  }

  lemma RecoveryUndoes(s: State, r: nat, d: DeliveryId)
    requires KeysOk(s.t) && d in s.t.deliveries
    requires r < |s.recoveries| && s.recoveries[r].delivery == d && s.recoveries[r].Open()
    ensures CanBeUndone(s, d)
  {
    if s.recoveries[r].stage.Armed? {
      ArmedUndoes(s, r, d);
    } else {
      var dest := s.recoveries[r].stage.dest;
      Reopened(s, dest);
      var s1 := Apply(s, Reopen(s, dest));
      ArmedUndoes(Apply(s1, RecoverReadDestination(r)), r, d);
      hide Apply;
      UndoneAfter(s1, RecoverReadDestination(r), d);
      UndoneAfter(s, Reopen(s, dest), d);
    }
  }

  /** A worker whose failed try is not yet recorded overwrites the status. */
  lemma FailureUndoes(s: State, j: JobId, d: DeliveryId)
    requires d in s.t.deliveries && History.Numbered(s.t, d) && j < |s.t.jobs| && s.t.jobs[j].delivery == d
    requires s.t.jobs[j].state.Running? && s.t.jobs[j].state.pc.Dispatched? && !s.t.jobs[j].state.pc.result.succeeded
    ensures CanBeUndone(s, d)
  {
    History.NextIsFree(s.t.attempts, d, s.t.deliveries[d].attemptCount);
    RecordingEffect(s, j, 0, true);
    var s' := Apply(s, Record(j, 0));
    assert s'.t.deliveries[d].status != Succeeded;
    hide Apply, Recording;
    UndoneNow(s', d);
    UndoneAfter(s, Record(j, 0), d);
  }

  const REFUSAL := 404

  /** A worker that is about to send may be refused. */
  lemma ReadyUndoes(s: State, j: JobId, d: DeliveryId)
    requires d in s.t.deliveries && History.Numbered(s.t, d) && j < |s.t.jobs| && s.t.jobs[j].delivery == d
    requires s.t.jobs[j].state.Running? && s.t.jobs[j].state.pc.Ready? && s.t.jobs[j].state.pc.event in s.t.events
    ensures CanBeUndone(s, d)
  {
    var x := if s.t.jobs[j].state.pc.isTunnel then OverTunnel(AckCode(REFUSAL)) else Http(Response(REFUSAL));
    var s' := Apply(s, Machine.Dispatch(j, x));
    assert s'.t == s.t.(jobs := s'.t.jobs) && s'.t.jobs[j].state == JobState.Running(Dispatched(FromCode(REFUSAL)));
    hide Apply;
    FailureUndoes(s', j, d);
    UndoneAfter(s, Machine.Dispatch(j, x), d);
  }

  /** A worker that has checked the status goes on to send. */
  lemma LoadedUndoes(s: State, j: JobId, d: DeliveryId)
    requires d in s.t.deliveries && History.Numbered(s.t, d) && j < |s.t.jobs| && s.t.jobs[j].delivery == d
    requires s.t.jobs[j].state.Running? && s.t.jobs[j].state.pc.Loaded? && s.t.jobs[j].state.pc.event in s.t.events
    requires UniqueRoutes(s.t.routes)
    ensures CanBeUndone(s, d)
  {
    var event, dest := s.t.jobs[j].state.pc.event, s.t.jobs[j].state.pc.dest;
    Reopened(s, dest);
    var s1 := Apply(s, Reopen(s, dest));
    var s2 := Apply(s1, LoadDestination(j, false));
    assert s2.t == s1.t.(jobs := s2.t.jobs) && s2.t.jobs[j].state == JobState.Running(Ready(event, false));
    hide Apply;
    ReadyUndoes(s2, j, d);
    UndoneAfter(s1, LoadDestination(j, false), d);
    UndoneAfter(s, Reopen(s, dest), d);
  }

  lemma UnsettledUndoes(s: State, d: DeliveryId)
    requires Basic(s) && History.AllNumbered(s.t) && d in s.t.deliveries && !Settled(s, d)
    ensures CanBeUndone(s, d)
  {
    if r :| 0 <= r < |s.recoveries| && s.recoveries[r].delivery == d && s.recoveries[r].Open() {
      RecoveryUndoes(s, r, d);
    } else {
      var j :| 0 <= j < |s.t.jobs| && s.t.jobs[j].delivery == d && !Harmless(s.t.jobs[j]);
      assert Linked(s.t, s.t.jobs[j]) && History.Numbered(s.t, d);
      hide CanBeUndone;
      if s.t.jobs[j].state.pc.Dispatched? {
        FailureUndoes(s, j, d);
      } else if s.t.jobs[j].state.pc.Ready? {
        ReadyUndoes(s, j, d);
      } else {
        LoadedUndoes(s, j, d);
      }
    }
  }

  // The theorem

  /** In every reachable state, failures and overlapping recoveries included: a success is kept by every continuation if
      and only if it is settled; and then the delivery is never sent again, even if its row is deleted. */
  lemma FinalIffSettled(steps: seq<Step>, d: DeliveryId)
    requires d in Run(steps).t.deliveries && Run(steps).t.deliveries[d].status == Succeeded
    ensures (forall more :: NotUndone(Exec(Run(steps), more), d)) <==> Settled(Run(steps), d)
    ensures Settled(Run(steps), d) ==> forall more :: Sends(Exec(Run(steps), more).log, d) == Sends(Run(steps).log, d)
  {
    BasicHolds(steps);
    History.AttemptsAreNumbered(steps);
    var s := Run(steps);
    hide Run, Exec, Sends;
    if Settled(s, d) {
      forall more ensures NotUndone(Exec(s, more), d) && Sends(Exec(s, more).log, d) == Sends(s.log, d) {
        StaysCalm(s, more, d);
      }
    } else {
      UnsettledUndoes(s, d);
      var more :| !NotUndone(Exec(s, more), d);
      assert !NotUndone(Exec(Run(steps), more), d);
    }
  }

  /** Without failures and overlapping recoveries so far, every success is settled, whatever comes after. */
  lemma SucceededIsFinal(steps: seq<Step>, more: seq<Step>, d: DeliveryId)
    requires NoFailures(steps) && NoOverlaps(steps)
    requires d in Run(steps).t.deliveries && Run(steps).t.deliveries[d].status == Succeeded
    ensures Settled(Run(steps), d)
    ensures var s := Exec(Run(steps), more);
            && (d in s.t.deliveries ==> s.t.deliveries[d].status == Succeeded)
            && Sends(s.log, d) == Sends(Run(steps).log, d)
  {
    ExclusiveHolds(steps);
    ExclusiveSettles(Run(steps), d);
    hide Run, Exec, Sends, Settled;
    FinalIffSettled(steps, d);
    assert NotUndone(Exec(Run(steps), more), d);
  }

  lemma ExclusiveSettles(s: State, d: DeliveryId)
    requires Exclusive(s) && d in s.t.deliveries && s.t.deliveries[d].status == Succeeded
    ensures Settled(s, d)
  {}
}
