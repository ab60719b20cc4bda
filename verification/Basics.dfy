/** What every step keeps, failures and any interleaving included: keys, references and job counters. */
module Basics {
  import opened Options
  import opened Store
  import opened Dispatch
  import opened Machine
  import Ingest

  ghost predicate KeysOk(t: Tables) {
    && FreshIds(t) && UniqueRoutes(t.routes)
    && (forall d :: d in t.deliveries ==> t.deliveries[d].event in t.events && t.deliveries[d].dest in t.destinations)
    && (forall i :: 0 <= i < |t.attempts| ==> t.attempts[i].delivery in t.deliveries)
  }

  /** Attempts stay within the budget; a job that waits has some left. */
  ghost predicate JobOk(job: Job) {
    && 1 <= job.maxAttempts && 0 <= job.attempt <= job.maxAttempts
    && (job.state.Available? || job.state.Scheduled? || job.state.Retryable? ==> job.attempt < job.maxAttempts)
    && (job.state.Running? ==> job.attempt >= 1)
  }

  /** What a worker has read of its delivery is still so while the row exists. */
  ghost predicate Linked(t: Tables, job: Job) {
    job.delivery in t.deliveries && job.state.Running? ==>
      && (job.state.pc.Loaded? ==>
            && job.state.pc.event == t.deliveries[job.delivery].event
            && job.state.pc.dest == t.deliveries[job.delivery].dest)
      && (job.state.pc.Ready? ==> job.state.pc.event == t.deliveries[job.delivery].event)
  }

  ghost predicate JobsOk(t: Tables) {
    forall j :: 0 <= j < |t.jobs| ==> t.jobs[j].delivery < t.nextDelivery && JobOk(t.jobs[j]) && Linked(t, t.jobs[j])
  }

  ghost predicate RecoveriesOk(s: State) {
    forall r :: 0 <= r < |s.recoveries| ==> s.recoveries[r].delivery < s.t.nextDelivery
  }

  ghost predicate Basic(s: State) { KeysOk(s.t) && JobsOk(s.t) && RecoveriesOk(s) }

  /** The same delivery rows, as far as references go. */
  ghost predicate SameRows(t: Tables, t': Tables) {
    && t'.deliveries.Keys == t.deliveries.Keys
    && forall d :: d in t.deliveries ==>
         t'.deliveries[d].event == t.deliveries[d].event && t'.deliveries[d].dest == t.deliveries[d].dest
  }

  // Worker steps

  lemma MovedOk(t: Tables, job: Job, step: Step)
    requires step.IsWorker() && JobOk(job) && Linked(t, job)
    ensures var job' := Moved(t, job, step);
            && job'.delivery == job.delivery && job'.maxAttempts == job.maxAttempts && job'.policy == job.policy
            && JobOk(job') && Linked(t, job')
  {}

  lemma WorkerBasic(s: State, step: Step)
    requires step.IsWorker() && Basic(s)
    ensures Basic(Apply(s, step))
  {
    hide JobOk, Moved, Noted;
    var j := JobOf(step);
    if j < |s.t.jobs| {
      MovedOk(s.t, s.t.jobs[j], step);
      var t' := Apply(s, step).t;
      KeysSurvive(s.t, t');
      forall k | 0 <= k < |t'.jobs|
        ensures t'.jobs[k].delivery < t'.nextDelivery && JobOk(t'.jobs[k]) && Linked(t', t'.jobs[k])
      {
        assert Linked(s.t, if k == j then t'.jobs[j] else s.t.jobs[k]);
      }
    }
  }

  // Recording

  /** The recording transaction goes through: the row exists and its next number is free. */
  ghost predicate Records(s: State, j: JobId)
    requires j < |s.t.jobs|
  {
    var job := s.t.jobs[j];
    && job.state.Running? && job.state.pc.Dispatched? && job.delivery in s.t.deliveries
    && !HasAttempt(s.t.attempts, job.delivery, s.t.deliveries[job.delivery].attemptCount + 1)
  }

  /** The row after a recording by a job that is about to return. */
  function RecordedRow(row: Delivery, job: Job, now: int): Delivery
    requires job.state.Running? && job.state.pc.Dispatched?
  {
    var status := DeliveryStatus(job.state.pc.result, job.attempt, job.maxAttempts);
    row.(status := status, attemptCount := row.attemptCount + 1,
         deadLetteredAt := if status == DeadLettered then Some(now) else row.deadLetteredAt)
  }

  lemma RecordingEffect(s: State, j: JobId, now: int, ack: bool)
    requires j < |s.t.jobs|
    ensures var job := s.t.jobs[j];
            Recording(s, j, now, ack) ==
              if Records(s, j) then
                var d := job.delivery;
                var row := s.t.deliveries[d];
                s.(t := s.t.(deliveries := s.t.deliveries[d := RecordedRow(row, job, now)],
                             attempts := s.t.attempts + [Attempt(d, row.attemptCount + 1, job.state.pc.result.code)],
                             jobs := s.t.jobs[j :=
                               Returning(job, if ack then ReturnFor(job.state.pc.result) else Error)]),
                   log := s.log + [Recorded(d, j)])
              else if job.state.Running? && job.state.pc.Dispatched? then
                s.(t := s.t.(jobs := s.t.jobs[j := Returning(job, Error)]))
              else s
  {
    hide HasAttempt, DeliveryStatus, ReturnFor;
  }

  lemma RecordingBasic(s: State, j: JobId, now: int, ack: bool)
    requires Basic(s) && j < |s.t.jobs|
    ensures Basic(Recording(s, j, now, ack))
  {
    RecordingEffect(s, j, now, ack);
    hide FreshIds, UniqueRoutes, Recording, DeliveryStatus, ReturnFor;
    var s' := Recording(s, j, now, ack);
    KeysSurvive(s.t, s'.t);
    forall k | 0 <= k < |s'.t.jobs|
      ensures s'.t.jobs[k].delivery < s'.t.nextDelivery && JobOk(s'.t.jobs[k]) && Linked(s'.t, s'.t.jobs[k])
    {
      assert JobOk(s.t.jobs[k]) && Linked(s.t, s.t.jobs[k]);
    }
  }

  /** References survive when rows keep their references and attempts name existing rows. */
  lemma KeysSurvive(t: Tables, t': Tables)
    requires KeysOk(t) && SameRows(t, t')
    requires t' == t.(deliveries := t'.deliveries, attempts := t'.attempts, jobs := t'.jobs)
    requires forall i :: 0 <= i < |t'.attempts| ==> t'.attempts[i].delivery in t.deliveries
    ensures KeysOk(t')
  {}

  // Fan-out

  /** An ingest or a replay adds events only upward and fans out once, to proper targets. */
  ghost predicate Fans(s: State, s': State, mid: Tables, event: EventId, targets: seq<Target>) {
    && mid == s.t.(events := s'.t.events, nextEvent := s'.t.nextEvent, dedup := s'.t.dedup)
    && FreshIds(mid) && s.t.events.Keys <= mid.events.Keys
    && FannedOut(mid, s'.t, event, targets)
    && ProperTargets(targets, s.t.destinations) && (targets != [] ==> event in mid.events)
    && s'.recoveries == s.recoveries && s'.log == s.log + Births(s.t.nextDelivery, |targets|)
  }

  lemma EnqueueEffect(s: State, step: Step) returns (mid: Tables, event: EventId, targets: seq<Target>)
    requires KeysOk(s.t) && (step.IngestEvent? || step.Replay?)
    ensures Fans(s, Apply(s, step), mid, event, targets)
  {
    if step.IngestEvent? {
      mid, event, targets := IngestEffect(s, step.req, step.now);
    } else {
      mid, event, targets := ReplayEffect(s, step.event);
    }
  }

  lemma IngestEffect(s: State, req: Ingest.Request, now: int)
    returns (mid: Tables, event: EventId, targets: seq<Target>)
    requires KeysOk(s.t)
    ensures Fans(s, Apply(s, IngestEvent(req, now)), mid, event, targets)
  {
    hide ProperTargets, FannedOut, Ingest.ChosenTargets, Ingest.DropReason, UniqueRoutes, Ingest.Committed;
    Ingest.IngestComplete(s.t, req, now);
    var t' := Ingest.Committed(s.t, req, now);
    mid := s.t.(events := t'.events, nextEvent := t'.nextEvent, dedup := t'.dedup);
    event := s.t.nextEvent;
    if Ingest.DropReason(s.t, req, now).Some? {
      targets := [];
      NothingFanned(mid, event);
      NoTargets(s.t.destinations);
    } else {
      targets := Ingest.ChosenTargets(s.t, req);
      FannedNext(mid, t', event, targets);
    }
  }

  lemma ReplayEffect(s: State, e: EventId) returns (mid: Tables, event: EventId, targets: seq<Target>)
    requires KeysOk(s.t)
    ensures Fans(s, Apply(s, Replay(e)), mid, event, targets)
  {
    hide ProperTargets, FannedOut, UniqueRoutes, FanOut, RouteTargets;
    mid, event := s.t, e;
    if e in s.t.events {
      targets := RouteTargets(s.t.routes, s.t.destinations, s.t.events[e].source);
      RouteTargetsMeaning(s.t.routes, s.t.destinations, s.t.events[e].source, 0);
      FanOutShape(s.t, e, targets);
      Ingest.FanOutFrame(s.t, e, targets);
      FannedNext(mid, FanOut(s.t, e, targets), event, targets);
    } else {
      targets := [];
      NothingFanned(mid, event);
      NoTargets(s.t.destinations);
    }
  }

  lemma NothingFanned(t: Tables, event: EventId)
    ensures FannedOut(t, t, event, [])
  {}

  lemma NoTargets(destinations: map<DestId, Destination>)
    ensures ProperTargets([], destinations)
  {}

  lemma FannedNext(t: Tables, t': Tables, event: EventId, targets: seq<Target>)
    requires FannedOut(t, t', event, targets)
    ensures t'.nextDelivery == t.nextDelivery + |targets|
  {}

  /** The rows and jobs of a fan-out, each in its place. */
  lemma FannedRow(t: Tables, t': Tables, event: EventId, targets: seq<Target>, d: DeliveryId)
    requires FannedOut(t, t', event, targets) && d in t'.deliveries && d !in t.deliveries
    ensures var i := d - t.nextDelivery;
            0 <= i < |targets| && t'.deliveries[d] == NewDelivery(event, targets[i].dest, |t.jobs| + i)
  {
    var i := d - t.nextDelivery;
    assert t'.deliveries[t.nextDelivery + i] == NewDelivery(event, targets[i].dest, |t.jobs| + i);
  }

  lemma FannedJob(t: Tables, t': Tables, event: EventId, targets: seq<Target>, j: JobId)
    requires FannedOut(t, t', event, targets) && |t.jobs| <= j < |t'.jobs|
    ensures var i := j - |t.jobs|;
            i < |targets| && t'.jobs[j] == NewJob(t.nextDelivery + i, targets[i].policy)
  {
    var i := j - |t.jobs|;
    assert t'.jobs[|t.jobs| + i] == NewJob(t.nextDelivery + i, targets[i].policy);
  }

  lemma EnqueueBasic(s: State, step: Step)
    requires Basic(s) && (step.IngestEvent? || step.Replay?)
    ensures Basic(Apply(s, step))
  {
    var mid, event, targets := EnqueueEffect(s, step);
    hide Apply;
    var s' := Apply(s, step);
    var t, t' := s.t, s'.t;
    forall d | d in t'.deliveries
      ensures t'.deliveries[d].event in t'.events && t'.deliveries[d].dest in t'.destinations && d < t'.nextDelivery
    {
      if d !in t.deliveries {
        FannedRow(mid, t', event, targets, d);
      }
    }
    forall j | 0 <= j < |t'.jobs|
      ensures t'.jobs[j].delivery < t'.nextDelivery && JobOk(t'.jobs[j]) && Linked(t', t'.jobs[j])
    {
      if j < |t.jobs| {
        assert t'.jobs[j] == t.jobs[j];
        assert t.jobs[j].delivery in t'.deliveries ==> t.jobs[j].delivery in t.deliveries;
      } else {
        FannedJob(mid, t', event, targets, j);
      }
    }
  }

  // Recovery, configuration, deletion

  lemma RecoverBasic(s: State, step: Step)
    requires Basic(s)
    requires step.RecoverRead? || step.RecoverReadDestination? || step.RecoverCommit? || step.RecoverAbort?
    ensures Basic(Apply(s, step))
  {
    var s' := Apply(s, step);
    if step.RecoverCommit? && step.r < |s.recoveries| && s.recoveries[step.r].stage.Armed? {
      KeysSurvive(s.t, s'.t);
      forall j | 0 <= j < |s'.t.jobs|
        ensures s'.t.jobs[j].delivery < s'.t.nextDelivery && JobOk(s'.t.jobs[j]) && Linked(s'.t, s'.t.jobs[j])
      {
        if j < |s.t.jobs| { assert Linked(s.t, s.t.jobs[j]); }
      }
    }
  }

  lemma ConfigureBasic(s: State, step: Step)
    requires Basic(s) && (step.Configure? || step.CleanDedup?)
    ensures Basic(Apply(s, step))
  {
    var s' := Apply(s, step);
    forall j | 0 <= j < |s.t.jobs| ensures Linked(s'.t, s'.t.jobs[j]) {
      assert Linked(s.t, s.t.jobs[j]);
    }
  }

  lemma {:induction false} KeptAttempts(attempts: seq<Attempt>, gone: set<DeliveryId>)
    ensures forall a :: a in KeepAttempts(attempts, gone) ==> a in attempts && a.delivery !in gone
  {
    if attempts != [] {
      KeptAttempts(attempts[..|attempts| - 1], gone);
      assert attempts == attempts[..|attempts| - 1] + [attempts[|attempts| - 1]];
    }
  }

  lemma {:induction false} KeptRoutesUnique(routes: seq<Route>, dests: set<DestId>, sources: set<SourceId>)
    requires UniqueRoutes(routes)
    ensures UniqueRoutes(KeepRoutes(routes, dests, sources))
    ensures forall r :: r in KeepRoutes(routes, dests, sources) ==> r in routes
  {
    if routes != [] {
      var init, last := routes[..|routes| - 1], routes[|routes| - 1];
      KeptRoutesUnique(init, dests, sources);
      var kept := KeepRoutes(init, dests, sources);
      forall i | 0 <= i < |kept| ensures kept[i].source != last.source || kept[i].dest != last.dest {
        assert kept[i] in init;
        var k :| 0 <= k < |init| && init[k] == kept[i];
        assert routes[k] == init[k];
      }
    }
  }

  /** A deletion removes some delivery rows with their attempts and changes no other row and no job. */
  ghost predicate Removed(t: Tables, t': Tables, gone: set<DeliveryId>) {
    && t'.deliveries == t.deliveries - gone && t'.attempts == KeepAttempts(t.attempts, gone)
    && t'.jobs == t.jobs && t'.nextDelivery == t.nextDelivery && t'.nextEvent == t.nextEvent
    && UniqueRoutes(t'.routes) && t'.events.Keys <= t.events.Keys
    && (forall d :: d in t'.deliveries ==>
          t'.deliveries[d].event in t'.events && t'.deliveries[d].dest in t'.destinations)
  }

  lemma DeleteEffect(s: State, step: Step) returns (gone: set<DeliveryId>)
    requires KeysOk(s.t) && (step.DropDestination? || step.DropSource?)
    ensures var s' := Apply(s, step);
            Removed(s.t, s'.t, gone) && s'.recoveries == s.recoveries && s'.log == s.log
  {
    var t := s.t;
    match step
    case DropDestination(dest) =>
      gone := DeliveriesTo(t, dest);
      KeptRoutesUnique(t.routes, {dest}, {});
    case DropSource(source) =>
      gone := DeliveriesOf(t, EventsOf(t, source));
      KeptRoutesUnique(t.routes, {}, {source});
  }

  lemma DeleteBasic(s: State, step: Step)
    requires Basic(s) && (step.DropDestination? || step.DropSource?)
    ensures Basic(Apply(s, step))
  {
    var gone := DeleteEffect(s, step);
    hide Apply, UniqueRoutes;
    var t, t' := s.t, Apply(s, step).t;
    KeptAttempts(t.attempts, gone);
    forall i | 0 <= i < |t'.attempts| ensures t'.attempts[i].delivery in t'.deliveries {
      assert t'.attempts[i] in t'.attempts;
      assert t'.attempts[i] in t.attempts;
      var k :| 0 <= k < |t.attempts| && t.attempts[k] == t'.attempts[i];
    }
    forall j | 0 <= j < |t'.jobs|
      ensures t'.jobs[j].delivery < t'.nextDelivery && JobOk(t'.jobs[j]) && Linked(t', t'.jobs[j])
    {
      assert Linked(t, t.jobs[j]);
    }
  }

  lemma BasicStep(s: State, step: Step)
    requires Basic(s)
    ensures Basic(Apply(s, step))
  {
    hide Basic;
    if step.IsWorker() {
      WorkerBasic(s, step);
    } else {
      match step
      case IngestEvent(_, _) => EnqueueBasic(s, step);
      case Replay(_) => EnqueueBasic(s, step);
      case Record(j, now) => if j < |s.t.jobs| { RecordingBasic(s, j, now, true); }
      case RecordUnacknowledged(j, now) => if j < |s.t.jobs| { RecordingBasic(s, j, now, false); }
      case RecoverRead(_) => RecoverBasic(s, step);
      case RecoverReadDestination(_) => RecoverBasic(s, step);
      case RecoverCommit(_) => RecoverBasic(s, step);
      case RecoverAbort(_) => RecoverBasic(s, step);
      case Configure(_, _, _) => ConfigureBasic(s, step);
      case CleanDedup(_) => ConfigureBasic(s, step);
      case DropDestination(_) => DeleteBasic(s, step);
      case DropSource(_) => DeleteBasic(s, step);
    }
  }

  lemma {:induction false} BasicHolds(steps: seq<Step>)
    ensures Basic(Run(steps))
  {
    if steps != [] {
      BasicHolds(steps[..|steps| - 1]);
      BasicStep(Run(steps[..|steps| - 1]), steps[|steps| - 1]);
    }
  }
}
