/** The statements behind a delivery, run as written: recording an attempt, recovering a dead letter, and one
    whole worker run, which is the state machine's steps with anything else happening in between. */
module Worker {
  import opened Options
  import opened Store
  import opened Dispatch
  import opened Machine
  import opened Traces
  import Ingest

  /** What a worker run does between fetching its job and returning. */
  function WorkSteps(j: JobId, paced: bool, http: HttpTry, tunnel: TunnelTry, now: int): seq<Step> {
    [Load(j), LoadDestination(j, paced),
     Machine.Dispatch(j, Http(http)), Machine.Dispatch(j, OverTunnel(tunnel)), Record(j, now)]
  }

  lemma ExecFive(s: State, a: Step, b: Step, c: Step, d: Step, e: Step)
    ensures Exec(s, [a, b, c, d, e]) == Apply(Apply(Apply(Apply(Apply(s, a), b), c), d), e)
  {
    hide Apply;
    assert [a, b, c, d, e][..4] == [a, b, c, d] && [a, b, c, d][..3] == [a, b, c];
    assert [a, b, c][..2] == [a, b] && [a, b][..1] == [a] && [a][..0] == [];
    assert Exec(s, [a]) == Apply(s, a);
    assert Exec(s, [a, b]) == Apply(Apply(s, a), b);
    assert Exec(s, [a, b, c]) == Apply(Apply(Apply(s, a), b), c);
  }

  /** The tables with one job's state replaced. */
  function With(t: Tables, j: JobId, state: JobState): Tables
    requires j < |t.jobs|
  {
    t.(jobs := t.jobs[j := t.jobs[j].(state := state)])
  }

  // What others do leaves a running job alone

  /** A step that is not one of job j. */
  predicate Avoids(step: Step, j: JobId) {
    && (step.IsWorker() ==> JobOf(step) != j)
    && (step.Record? || step.RecordUnacknowledged? ==> step.j != j)
  }

  ghost predicate AllAvoid(steps: seq<Step>, j: JobId) {
    forall i :: 0 <= i < |steps| ==> Avoids(steps[i], j)
  }

  ghost predicate Keeps(t: Tables, t': Tables, j: JobId)
    requires j < |t.jobs|
  {
    j < |t'.jobs| && t'.jobs[j] == t.jobs[j]
  }

  lemma {:induction false} FanOutKeeps(t: Tables, event: EventId, targets: seq<Target>, j: JobId)
    requires j < |t.jobs|
    ensures Keeps(t, FanOut(t, event, targets), j)
  {
    if targets != [] { FanOutKeeps(t, event, targets[..|targets| - 1], j); }
  }

  lemma IngestKeeps(t: Tables, req: Ingest.Request, now: int, j: JobId)
    requires j < |t.jobs|
    ensures Keeps(t, Ingest.Committed(t, req, now), j)
  {
    Ingest.CommittedCases(t, req, now);
    hide Ingest.Committed, Ingest.RuleDrop, Ingest.ChosenTargets, FanOut;
    FanOutKeeps(Ingest.Stored(t, req, now), t.nextEvent, Ingest.ChosenTargets(t, req), j);
  }

  lemma StepKeeps(s: State, step: Step, j: JobId)
    requires j < |s.t.jobs| && Avoids(step, j)
    ensures Keeps(s.t, Apply(s, step).t, j)
  {
    hide FanOut, RouteTargets, Ingest.Committed, Moved, Noted, Births, HasAttempt, DeliveryStatus, ReturnFor;
    hide KeepRoutes, KeepAttempts, KeepRules, UniqueRoutes, EventsOf, DeliveriesOf, DeliveriesTo;
    if step.IngestEvent? {
      IngestKeeps(s.t, step.req, step.now, j);
    } else if step.Replay? && step.event in s.t.events {
      FanOutKeeps(s.t, step.event, RouteTargets(s.t.routes, s.t.destinations, s.t.events[step.event].source), j);
    }
  }

  lemma {:induction false} ExecKeeps(s: State, steps: seq<Step>, j: JobId)
    requires j < |s.t.jobs| && AllAvoid(steps, j)
    ensures Keeps(s.t, Exec(s, steps).t, j)
  {
    if steps != [] {
      hide Apply;
      ExecKeeps(s, steps[..|steps| - 1], j);
      StepKeeps(Exec(s, steps[..|steps| - 1]), steps[|steps| - 1], j);
    }
  }

  // One step of a worker on the whole state

  /** The state with a job's worker moved on. */
  function At(s: State, j: JobId, pc: Pc): State
    requires j < |s.t.jobs|
  {
    s.(t := With(s.t, j, JobState.Running(pc)))
  }

  /** The job, and of it only the worker's progress, has moved to pc. */
  ghost predicate Reached(s: State, s': State, j: JobId, pc: Pc)
    requires j < |s.t.jobs|
  {
    j < |s'.t.jobs| && s'.t.jobs[j] == s.t.jobs[j].(state := JobState.Running(pc))
  }

  function LoadedPc(t: Tables, d: DeliveryId): Pc {
    if d !in t.deliveries || t.deliveries[d].status == Succeeded then Returned(Done)
    else Loaded(t.deliveries[d].event, t.deliveries[d].dest)
  }

  lemma LoadStep(s: State, j: JobId)
    requires j < |s.t.jobs| && s.t.jobs[j].state == JobState.Running(Fetched)
    ensures Apply(s, Load(j)) == At(s, j, LoadedPc(s.t, s.t.jobs[j].delivery))
  {
    assert s.log + [] == s.log;
  }

  function ReadyPc(t: Tables, event: EventId, dest: DestId, paced: bool): Pc {
    if dest !in t.destinations then Returned(Done)
    else if t.destinations[dest].paused || paced then Returned(Snooze)
    else Ready(event, t.destinations[dest].isTunnel)
  }

  lemma LoadDestinationStep(s: State, j: JobId, event: EventId, dest: DestId, paced: bool)
    requires j < |s.t.jobs| && s.t.jobs[j].state == JobState.Running(Loaded(event, dest))
    ensures Apply(s, LoadDestination(j, paced)) == At(s, j, ReadyPc(s.t, event, dest, paced))
  {
    assert s.log + [] == s.log;
  }

  /** A dispatch of the destination's kind. */
  lemma DispatchStep(s: State, j: JobId, event: EventId, x: Try)
    requires j < |s.t.jobs| && s.t.jobs[j].state == JobState.Running(Ready(event, x.OverTunnel?))
    ensures Apply(s, Machine.Dispatch(j, x)) ==
              if event in s.t.events then
                At(s, j, Dispatched(Classify(x))).(log := s.log + [Sent(s.t.jobs[j].delivery, j)])
              else if x.Http? then At(s, j, Returned(Done))
              else At(s, j, Dispatched(AttemptResult(None, false, false)))
  {
    assert s.log + [] == s.log;
  }

  /** A dispatch of the other kind, or after the dispatch, does nothing. */
  lemma NoDispatchStep(s: State, j: JobId, x: Try)
    requires j < |s.t.jobs| && s.t.jobs[j].state.Running?
    requires s.t.jobs[j].state.pc.Ready? ==> s.t.jobs[j].state.pc.isTunnel != x.OverTunnel?
    ensures Apply(s, Machine.Dispatch(j, x)) == s
  {
    assert s.log + [] == s.log && s.t.jobs[j := s.t.jobs[j]] == s.t.jobs;
  }

  lemma RecordStep(s: State, j: JobId, result: AttemptResult, now: int)
    requires j < |s.t.jobs| && s.t.jobs[j].state == JobState.Running(Dispatched(result))
    ensures var job := s.t.jobs[j];
            var status := DeliveryStatus(result, job.attempt, job.maxAttempts);
            var r := Store.RecordAttempt(s.t, job.delivery, status, result.code, now);
            && (r.Some? ==> r.value.jobs == s.t.jobs)
            && Apply(s, Record(j, now)) ==
                 if r.Some? then
                   At(s.(t := r.value, log := s.log + [Recorded(job.delivery, j)]), j, Returned(ReturnFor(result)))
                 else At(s, j, Returned(Error))
  {
    hide HasAttempt, DeliveryStatus, ReturnFor;
  }

  class Database {
    var s: State

    constructor (state: State)
      ensures s == state
    {
      s := state;
    }

    /** UPDATE deliveries ... RETURNING attempt_count. */
    method RecordDeliveryOutcome(d: DeliveryId, status: Status, now: int) returns (count: Option<nat>)
      modifies this
      ensures count.None? <==> d !in old(s).t.deliveries
      ensures count.None? ==> s == old(s)
      ensures count.Some? ==>
        var row := old(s).t.deliveries[d];
        && count.value == row.attemptCount + 1
        && s == old(s).(t := old(s).t.(deliveries := old(s).t.deliveries[d :=
             row.(status := status, attemptCount := row.attemptCount + 1,
                  deadLetteredAt := if status == DeadLettered then Some(now) else row.deadLetteredAt)]))
    {
      if d !in s.t.deliveries { return None; }
      var row := s.t.deliveries[d];
      var deadLetteredAt := row.deadLetteredAt;
      if status == DeadLettered { deadLetteredAt := Some(now); }
      row := row.(status := status, attemptCount := row.attemptCount + 1, deadLetteredAt := deadLetteredAt);
      s := s.(t := s.t.(deliveries := s.t.deliveries[d := row]));
      return Some(row.attemptCount);
    }

    /** Status and history row in one transaction: both or neither. */
    method RecordAttempt(d: DeliveryId, status: Status, code: Option<int>, now: int) returns (ok: bool)
      modifies this
      ensures var r := Store.RecordAttempt(old(s).t, d, status, code, now);
              (ok <==> r.Some?) && s == if ok then old(s).(t := r.value) else old(s)
    {
      var begin := s;
      var number := RecordDeliveryOutcome(d, status, now);
      if number.None? { return false; }
      if HasAttempt(s.t.attempts, d, number.value) {
        s := begin;
        return false;
      }
      s := s.(t := s.t.(attempts := s.t.attempts + [Attempt(d, number.value, code)]));
      return true;
    }

    /** Reset, fresh job, link. */
    method RecoverDelivery(d: DeliveryId, policy: Policy) returns (job: JobId)
      modifies this
      ensures s == old(s).(t := Recover(old(s).t, d, policy)) && job == |old(s).t.jobs|
    {
      var t := s.t;
      if d in t.deliveries {
        t := t.(deliveries := t.deliveries[d := t.deliveries[d].(status := Pending, deadLetteredAt := None)]);
      }
      var maxAttempts := policy.maxAttempts;
      if maxAttempts < 1 { maxAttempts := 1; }
      job := |t.jobs|;
      t := t.(jobs := t.jobs + [Job(d, policy, maxAttempts, 0, Available)]);
      if d in t.deliveries {
        t := t.(deliveries := t.deliveries[d := t.deliveries[d].(job := Some(job))]);
      }
      s := s.(t := t);
    }

    /** Whatever others do before a worker's next step. */
    method Meanwhile(j: JobId, steps: seq<Step>)
      requires j < |s.t.jobs| && AllAvoid(steps, j)
      modifies this
      ensures s == Exec(old(s), steps) && Keeps(old(s).t, s.t, j)
    {
      ExecKeeps(s, steps, j);
      s := Exec(s, steps);
    }

    /** The row to deliver; None when it is gone or has succeeded. */
    method LoadDelivery(j: JobId) returns (row: Option<Delivery>)
      requires j < |s.t.jobs| && s.t.jobs[j].state == JobState.Running(Fetched)
      modifies this
      ensures s == Apply(old(s), Load(j))
      ensures Reached(old(s), s, j, if row.Some? then Loaded(row.value.event, row.value.dest) else Returned(Done))
    {
      LoadStep(s, j);
      hide Apply;
      var d := s.t.jobs[j].delivery;
      if d !in s.t.deliveries {
        s := At(s, j, Returned(Done));
        return None;
      }
      var delivery := s.t.deliveries[d];
      if delivery.status == Succeeded {
        s := At(s, j, Returned(Done));
        return None;
      }
      s := At(s, j, Loaded(delivery.event, delivery.dest));
      return Some(delivery);
    }

    /** The destination, or what to return instead of dispatching. */
    method LoadTarget(j: JobId, delivery: Delivery, paced: bool) returns (dest: Option<Destination>, out: Return)
      requires j < |s.t.jobs| && s.t.jobs[j].state == JobState.Running(Loaded(delivery.event, delivery.dest))
      modifies this
      ensures s == Apply(old(s), LoadDestination(j, paced))
      ensures Reached(old(s), s, j, if dest.Some? then Ready(delivery.event, dest.value.isTunnel) else Returned(out))
    {
      LoadDestinationStep(s, j, delivery.event, delivery.dest, paced);
      hide Apply;
      if delivery.dest !in s.t.destinations {
        s := At(s, j, Returned(Done));
        return None, Done;
      }
      var found := s.t.destinations[delivery.dest];
      if found.paused || paced {
        s := At(s, j, Returned(Snooze));
        return None, Snooze;
      }
      s := At(s, j, Ready(delivery.event, found.isTunnel));
      return Some(found), Done;
    }

    /** One try; over HTTP there is none when the event is gone. */
    method Send(j: JobId, event: EventId, x: Try) returns (result: Option<AttemptResult>)
      requires j < |s.t.jobs| && s.t.jobs[j].state == JobState.Running(Ready(event, x.OverTunnel?))
      modifies this
      ensures s == Apply(old(s), Machine.Dispatch(j, x))
      ensures Reached(old(s), s, j, if result.Some? then Dispatched(result.value) else Returned(Done))
      ensures x.OverTunnel? ==> result.Some?
    {
      DispatchStep(s, j, event, x);
      hide Apply, ClassifyHttp, ClassifyTunnel;
      if event in s.t.events {
        var r := Classify(x);
        s := At(s, j, Dispatched(r)).(log := s.log + [Sent(s.t.jobs[j].delivery, j)]);
        return Some(r);
      }
      if x.Http? {
        s := At(s, j, Returned(Done));
        return None;
      }
      s := At(s, j, Dispatched(AttemptResult(None, false, false)));
      return Some(AttemptResult(None, false, false));
    }

    /** The destination's kind picks one of the two tries; others act between their places in the run. */
    method Deliver(j: JobId, event: EventId, isTunnel: bool, http: HttpTry, tunnel: TunnelTry, others: seq<Step>)
      returns (result: Option<AttemptResult>)
      requires j < |s.t.jobs| && s.t.jobs[j].state == JobState.Running(Ready(event, isTunnel)) && AllAvoid(others, j)
      modifies this
      ensures var tried := Apply(old(s), Machine.Dispatch(j, Http(http)));
              s == if result.None? then tried else Apply(Exec(tried, others), Machine.Dispatch(j, OverTunnel(tunnel)))
      ensures Reached(old(s), s, j, if result.Some? then Dispatched(result.value) else Returned(Done))
    {
      hide Apply, Exec, AllAvoid;
      if isTunnel {
        NoDispatchStep(s, j, Http(http));
        Meanwhile(j, others);
        result := Send(j, event, OverTunnel(tunnel));
      } else {
        result := Send(j, event, Http(http));
        if result.None? { return; }
        Meanwhile(j, others);
        NoDispatchStep(s, j, OverTunnel(tunnel));
      }
    }

    /** Record the attempt and decide what to tell the queue. */
    method RecordResult(j: JobId, result: AttemptResult, now: int) returns (out: Return)
      requires j < |s.t.jobs| && s.t.jobs[j].state == JobState.Running(Dispatched(result))
      modifies this
      ensures s == Apply(old(s), Record(j, now))
      ensures Reached(old(s), s, j, Returned(out))
    {
      RecordStep(s, j, result, now);
      hide Apply, Store.RecordAttempt, DeliveryStatus;
      var job := s.t.jobs[j];
      var status := DeliveryStatus(result, job.attempt, job.maxAttempts);
      var recorded := RecordAttempt(job.delivery, status, result.code, now);
      if !recorded {
        s := At(s, j, Returned(Error));
        return Error;
      }
      out := if result.succeeded then Done else if !result.retryable then Cancel else Error;
      s := At(s.(log := s.log + [Recorded(job.delivery, j)]), j, Returned(out));
    }

    /** Up to the dispatch: the row and its destination, or what to return instead. */
    method Prepare(j: JobId, paced: bool, o0: seq<Step>, o1: seq<Step>)
      returns (row: Option<Delivery>, dest: Option<Destination>, out: Return)
      requires j < |s.t.jobs| && s.t.jobs[j].state == JobState.Running(Fetched) && AllAvoid(o0, j) && AllAvoid(o1, j)
      modifies this
      ensures j < |s.t.jobs|
      ensures var loaded := Apply(Exec(old(s), o0), Load(j));
              s == if row.None? then loaded else Apply(Exec(loaded, o1), LoadDestination(j, paced))
      ensures dest.Some? ==> row.Some?
      ensures s.t.jobs[j].state
           == JobState.Running(if dest.Some? then Ready(row.value.event, dest.value.isTunnel) else Returned(out))
    {
      hide Apply, Exec, AllAvoid;
      Meanwhile(j, o0);
      row := LoadDelivery(j);
      if row.None? { return None, None, Done; }
      Meanwhile(j, o1);
      dest, out := LoadTarget(j, row.value, paced);
    }

    /** One run of the worker on a fetched job. Before each of its steps others may do anything except act on that job;
        the worker makes n of its steps until it returns. */
    method Work(j: JobId, others: nat -> seq<Step>, paced: bool, http: HttpTry, tunnel: TunnelTry, now: int)
      returns (out: Return, ghost n: nat)
      requires j < |s.t.jobs| && s.t.jobs[j].state == JobState.Running(Fetched)
      requires forall i: nat :: AllAvoid(others(i), j)
      modifies this
      ensures n <= 5 && s == Exec(old(s), Interleave(WorkSteps(j, paced, http, tunnel, now), others, n))
      ensures j < |s.t.jobs| && s.t.jobs[j].state == JobState.Running(Returned(out))
    {
      ghost var own := WorkSteps(j, paced, http, tunnel, now);
      ghost var s0 := s;
      hide Apply, Exec, Interleave, AllAvoid;
      InterleaveNone(s0, own, others);
      InterleaveOneMore(s0, own, others, 0);
      InterleaveOneMore(s0, own, others, 1);
      var row, dest, stop := Prepare(j, paced, others(0), others(1));
      if dest.None? { return stop, if row.None? then 1 else 2; }

      InterleaveOneMore(s0, own, others, 2);
      InterleaveOneMore(s0, own, others, 3);
      Meanwhile(j, others(2));
      var result := Deliver(j, row.value.event, dest.value.isTunnel, http, tunnel, others(3));
      if result.None? { return Done, 3; }

      InterleaveOneMore(s0, own, others, 4);
      Meanwhile(j, others(4));
      out := RecordResult(j, result.value, now);
      n := 5;
    }
  }
}
