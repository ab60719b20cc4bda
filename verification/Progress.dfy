/** No delivery is stuck: while its destination is not paused, the queue and its workers alone can end it. */
module Progress {
  import opened Options
  import opened Store
  import opened Dispatch
  import opened Machine
  import opened Basics
  import opened Liveness
  import History

  /** What the queue and workers do: no administration, recovery or failure. */
  predicate Ordinary(step: Step) {
    || step.Promote? || step.Fetch? || step.Finish?
    || step.Load? || step.LoadDestination? || step.Dispatch? || step.Record?
  }

  ghost predicate AllOrdinary(steps: seq<Step>) { forall i :: 0 <= i < |steps| ==> Ordinary(steps[i]) }

  predicate HasStatus(s: State, d: DeliveryId, status: Status) {
    d in s.t.deliveries && s.t.deliveries[d].status == status
  }

  /** Some ordinary continuation gives the delivery this status. */
  ghost predicate Can(s: State, d: DeliveryId, status: Status) {
    exists more :: AllOrdinary(more) && HasStatus(Exec(s, more), d, status)
  }

  lemma CanNow(s: State, d: DeliveryId, status: Status)
    requires HasStatus(s, d, status)
    ensures Can(s, d, status)
  {
    assert AllOrdinary([]) && Exec(s, []) == s;
  }

  lemma CanAfter(s: State, step: Step, d: DeliveryId, status: Status)
    requires Ordinary(step) && Can(Apply(s, step), d, status)
    ensures Can(s, d, status)
  {
    hide Apply, Exec, HasStatus;
    var more :| AllOrdinary(more) && HasStatus(Exec(Apply(s, step), more), d, status);
    ExecAppend(s, [step], more);
    ExecOne(s, step);
    assert AllOrdinary([step] + more);
  }

  /** Everything a worker on job j needs to deliver d is there. */
  ghost predicate Fit(t: Tables, d: DeliveryId, j: JobId) {
    && d in t.deliveries && t.deliveries[d].status != Succeeded && History.Numbered(t, d)
    && t.deliveries[d].event in t.events
    && t.deliveries[d].dest in t.destinations && !t.destinations[t.deliveries[d].dest].paused
    && j < |t.jobs| && t.jobs[j].delivery == d
  }

  /** A worker's step on its own job leaves the rest as it was. */
  lemma MovesOn(s: State, step: Step, d: DeliveryId, j: JobId, job: Job)
    requires Fit(s.t, d, j) && step.IsWorker() && JobOf(step) == j
    requires Moved(s.t, s.t.jobs[j], step) == job && job.delivery == d
    ensures Fit(Apply(s, step).t, d, j) && Apply(s, step).t == s.t.(jobs := s.t.jobs[j := job])
  {
    hide Moved, Noted;
  }

  lemma RecordSucceeds(s: State, d: DeliveryId, j: JobId)
    requires Fit(s.t, d, j) && s.t.jobs[j].state.Running? && s.t.jobs[j].state.pc.Dispatched?
    requires s.t.jobs[j].state.pc.result.succeeded
    ensures Can(s, d, Succeeded)
  {
    History.NextIsFree(s.t.attempts, d, s.t.deliveries[d].attemptCount);
    RecordingEffect(s, j, 0, true);
    hide Recording, Can;
    CanNow(Apply(s, Record(j, 0)), d, Succeeded);
    CanAfter(s, Record(j, 0), d, Succeeded);
  }

  lemma ReadySucceeds(s: State, d: DeliveryId, j: JobId)
    requires Fit(s.t, d, j) && s.t.jobs[j].state.Running? && s.t.jobs[j].state.pc.Ready?
    requires s.t.jobs[j].state.pc.event == s.t.deliveries[d].event
    ensures Can(s, d, Succeeded)
  {
    hide Can;
    var x := if s.t.jobs[j].state.pc.isTunnel then OverTunnel(AckCode(200)) else Http(Response(200));
    var step := Machine.Dispatch(j, x);
    MovesOn(s, step, d, j, s.t.jobs[j].(state := JobState.Running(Dispatched(FromCode(200)))));
    hide Apply;
    RecordSucceeds(Apply(s, step), d, j);
    CanAfter(s, step, d, Succeeded);
  }

  lemma LoadedSucceeds(s: State, d: DeliveryId, j: JobId)
    requires Fit(s.t, d, j)
    requires s.t.jobs[j].state == JobState.Running(Loaded(s.t.deliveries[d].event, s.t.deliveries[d].dest))
    ensures Can(s, d, Succeeded)
  {
    hide Can;
    var row, step := s.t.deliveries[d], LoadDestination(j, false);
    var ready := Ready(row.event, s.t.destinations[row.dest].isTunnel);
    MovesOn(s, step, d, j, s.t.jobs[j].(state := JobState.Running(ready)));
    hide Apply;
    ReadySucceeds(Apply(s, step), d, j);
    CanAfter(s, step, d, Succeeded);
  }

  lemma FetchedSucceeds(s: State, d: DeliveryId, j: JobId)
    requires Fit(s.t, d, j) && s.t.jobs[j].state == JobState.Running(Fetched)
    ensures Can(s, d, Succeeded)
  {
    hide Can;
    var row, step := s.t.deliveries[d], Load(j);
    MovesOn(s, step, d, j, s.t.jobs[j].(state := JobState.Running(Loaded(row.event, row.dest))));
    hide Apply;
    LoadedSucceeds(Apply(s, step), d, j);
    CanAfter(s, step, d, Succeeded);
  }

  lemma AvailableSucceeds(s: State, d: DeliveryId, j: JobId)
    requires Fit(s.t, d, j) && s.t.jobs[j].state == Available
    ensures Can(s, d, Succeeded)
  {
    hide Can;
    var job, step := s.t.jobs[j], Fetch(j);
    MovesOn(s, step, d, j, job.(state := JobState.Running(Fetched), attempt := job.attempt + 1));
    hide Apply;
    FetchedSucceeds(Apply(s, step), d, j);
    CanAfter(s, step, d, Succeeded);
  }

  lemma WaitingSucceeds(s: State, d: DeliveryId, j: JobId)
    requires Fit(s.t, d, j) && (s.t.jobs[j].state == Scheduled || s.t.jobs[j].state == Retryable)
    ensures Can(s, d, Succeeded)
  {
    hide Can;
    MovesOn(s, Promote(j), d, j, s.t.jobs[j].(state := Available));
    hide Apply;
    AvailableSucceeds(Apply(s, Promote(j)), d, j);
    CanAfter(s, Promote(j), d, Succeeded);
  }

  lemma ReturnedSucceeds(s: State, d: DeliveryId, j: JobId)
    requires Fit(s.t, d, j) && s.t.jobs[j].state.Running? && s.t.jobs[j].state.pc.Returned? && Active(s.t.jobs[j])
    ensures Can(s, d, Succeeded)
  {
    hide Can;
    var job := s.t.jobs[j];
    MovesOn(s, Finish(j), d, j,
            if job.state.pc.out == Snooze then job.(state := Scheduled, attempt := job.attempt - 1)
            else job.(state := Retryable));
    hide Apply;
    WaitingSucceeds(Apply(s, Finish(j)), d, j);
    CanAfter(s, Finish(j), d, Succeeded);
  }

  /** A worker holds an answer that is not a success. */
  predicate Failing(job: Job) {
    job.state.Running? && job.state.pc.Dispatched? && !job.state.pc.result.succeeded
  }

  lemma ActiveSucceeds(s: State, d: DeliveryId, j: JobId)
    requires Basic(s) && Fit(s.t, d, j) && Active(s.t.jobs[j]) && !Failing(s.t.jobs[j])
    ensures Can(s, d, Succeeded)
  {
    assert Linked(s.t, s.t.jobs[j]);
    hide Can;
    var state := s.t.jobs[j].state;
    if state.Available? {
      AvailableSucceeds(s, d, j);
    } else if !state.Running? {
      WaitingSucceeds(s, d, j);
    } else if state.pc.Fetched? {
      FetchedSucceeds(s, d, j);
    } else if state.pc.Loaded? {
      LoadedSucceeds(s, d, j);
    } else if state.pc.Ready? {
      ReadySucceeds(s, d, j);
    } else if state.pc.Dispatched? {
      RecordSucceeds(s, d, j);
    } else {
      ReturnedSucceeds(s, d, j);
    }
  }

  /** Recording a failing answer either gives the delivery up or leaves a job that can still succeed. */
  lemma FailingEnds(s: State, d: DeliveryId, j: JobId)
    requires Basic(s) && History.AllNumbered(s.t) && Fit(s.t, d, j) && Failing(s.t.jobs[j])
    ensures Can(s, d, Succeeded) || Can(s, d, DeadLettered)
  {
    var step := Record(j, 0);
    RecordingDrives(s, j, 0);
    RecordingEffect(s, j, 0, true);
    BasicStep(s, step);
    History.NumberedStep(s, step);
    hide Can, Recording;
    var s' := Apply(s, step);
    if s'.t.deliveries[d].status == Failed {
      assert History.Numbered(s'.t, d);
      hide Apply;
      ActiveSucceeds(s', d, j);
      CanAfter(s, step, d, Succeeded);
    } else {
      CanNow(s', d, DeadLettered);
      CanAfter(s, step, d, DeadLettered);
    }
  }

  /** In every run that no failure ends a job in, a pending or failed delivery whose destination is not paused can be
      brought to an end by the queue and its workers alone: to success, unless all that is left for it is a worker that
      already holds a failing answer. */
  lemma CanBeDecided(steps: seq<Step>, d: DeliveryId)
    requires Survivable(steps) && d in Run(steps).t.deliveries && Undecided(Run(steps).t.deliveries[d])
    requires forall dest :: dest in Run(steps).t.destinations && dest == Run(steps).t.deliveries[d].dest ==>
               !Run(steps).t.destinations[dest].paused
    ensures Can(Run(steps), d, Succeeded) || Can(Run(steps), d, DeadLettered)
    ensures (exists j: JobId :: Drives(Run(steps).t.jobs, d, j) && !Failing(Run(steps).t.jobs[j])) ==>
              Can(Run(steps), d, Succeeded)
  {
    NoLostWork(steps);
    BasicHolds(steps);
    History.AttemptsAreNumbered(steps);
    var s := Run(steps);
    hide Run, Can;
    assert Driven(s.t, d) && History.Numbered(s.t, d);
    var k: JobId :| Drives(s.t.jobs, d, k);
    if Failing(s.t.jobs[k]) { FailingEnds(s, d, k); } else { ActiveSucceeds(s, d, k); }
    if j: JobId :| Drives(s.t.jobs, d, j) && !Failing(s.t.jobs[j]) { ActiveSucceeds(s, d, j); }
  }
}
