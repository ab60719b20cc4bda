/** Concrete runs that show what the hypotheses of the delivery theorems exclude. */
module Witness {
  import opened Options
  import opened Store
  import opened Dispatch
  import opened Machine
  import opened Basics
  import opened Liveness
  import opened Finality
  import opened Worker
  import Ingest
  import Rules

  const POLICY := Policy(2, 30, 60)
  const DEST := Destination(POLICY, false, false)
  const ROUTE := Store.Route(5, 1, true)
  const REQUEST := Ingest.Request(5, None, 0, true, map[])
  const EVENT := Event(5, None, true, None, 0)

  /** The tables of the example: one event for one destination, one delivery. */
  function Example(delivery: Delivery, attempts: seq<Attempt>, jobs: seq<Job>): Tables {
    Tables(map[0 := EVENT], map[1 := DEST], [ROUTE], [], map[], map[0 := delivery], attempts, jobs, 1, 1)
  }

  function JobIn(state: JobState, attempt: int): Job { Job(0, POLICY, 2, attempt, state) }

  lemma IngestExample()
    ensures Run([Configure(map[1 := DEST], [ROUTE], []), IngestEvent(REQUEST, 0)])
         == State(Example(NewDelivery(0, 1, 0), [], [JobIn(Available, 0)]), [], [Created(0)])
  {
    var a, b := Configure(map[1 := DEST], [ROUTE], []), IngestEvent(REQUEST, 0);
    var s := Apply(INIT, a);
    ExecOne(INIT, a);
    assert [a, b][..1] == [a];
    var t1 := Ingest.InsertEvent(s.t, REQUEST, 0);
    assert Rules.ListEnabled([], 5) == [];
    var routes := [ROUTE];
    assert routes[..0] == [];
    var targets := [Target(1, POLICY)];
    assert RouteTargets(routes, s.t.destinations, 5) == targets;
    assert Ingest.ChosenTargets(t1, REQUEST) == targets;
    assert targets[..0] == [];
    assert FanOut(t1, 0, targets) == EnqueueOne(t1, 0, targets[0]);
    assert Births(0, 1) == [Created(0)];
  }

  /** Fetch a job and run its worker undisturbed against an HTTP answer. */
  function Attempting(j: JobId, code: int, now: int): seq<Step> {
    [Fetch(j)] + WorkSteps(j, false, Response(code), NotConnected, now)
  }

  lemma FetchesExample(s: State, j: JobId, row: Delivery, attempts: seq<Attempt>, jobs: seq<Job>)
    requires s.t == Example(row, attempts, jobs) && j < |jobs| && jobs[j] == JobIn(Available, 0)
    ensures Apply(s, Fetch(j)).recoveries == s.recoveries
    ensures Apply(s, Fetch(j)).t == Example(row, attempts, jobs[j := JobIn(JobState.Running(Fetched), 1)])
  {}

  /** The example after an attempt that answered with a code. */
  function Tried(j: JobId, code: int, now: int, row: Delivery, attempts: seq<Attempt>, jobs: seq<Job>): Tables
    requires j < |jobs|
  {
    var result := FromCode(code);
    var status := DeliveryStatus(result, 1, 2);
    Example(
      row.(status := status, attemptCount := row.attemptCount + 1,
           deadLetteredAt := if status == DeadLettered then Some(now) else row.deadLetteredAt),
      attempts + [Attempt(0, row.attemptCount + 1, result.code)],
      jobs[j := JobIn(JobState.Running(Returned(ReturnFor(result))), 1)])
  }

  /** A worker of the example moves on. */
  lemma AtExample(s: State, j: JobId, pc: Pc, row: Delivery, attempts: seq<Attempt>, jobs: seq<Job>, state: JobState)
    requires j < |jobs| && s.t == Example(row, attempts, jobs[j := JobIn(state, 1)])
    ensures At(s, j, pc).t == Example(row, attempts, jobs[j := JobIn(JobState.Running(pc), 1)])
  {}

  /** Up to its answer, undisturbed. */
  lemma SendsExample(s: State, j: JobId, code: int, row: Delivery, attempts: seq<Attempt>, jobs: seq<Job>)
    requires j < |jobs| && s.t == Example(row, attempts, jobs[j := JobIn(JobState.Running(Fetched), 1)])
    requires row.event == 0 && row.dest == 1 && row.status != Succeeded
    ensures var s2 := Apply(Apply(s, Load(j)), LoadDestination(j, false));
            var s3 := Apply(s2, Machine.Dispatch(j, Http(Response(code))));
            var s4 := Apply(s3, Machine.Dispatch(j, OverTunnel(NotConnected)));
            s4.t == Example(row, attempts, jobs[j := JobIn(JobState.Running(Dispatched(FromCode(code))), 1)])
  {
    hide Apply, FromCode, At, With;
    LoadStep(s, j);
    var s1 := Apply(s, Load(j));
    AtExample(s, j, Loaded(0, 1), row, attempts, jobs, JobState.Running(Fetched));
    LoadDestinationStep(s1, j, 0, 1, false);
    var s2 := Apply(s1, LoadDestination(j, false));
    AtExample(s1, j, Ready(0, false), row, attempts, jobs, JobState.Running(Loaded(0, 1)));
    DispatchStep(s2, j, 0, Http(Response(code)));
    var s3 := Apply(s2, Machine.Dispatch(j, Http(Response(code))));
    AtExample(s2, j, Dispatched(FromCode(code)), row, attempts, jobs, JobState.Running(Ready(0, false)));
    NoDispatchStep(s3, j, OverTunnel(NotConnected));
  }

  /** A fetched job's worker, undisturbed. */
  lemma WorksExample(s: State, j: JobId, code: int, now: int, row: Delivery, attempts: seq<Attempt>, jobs: seq<Job>)
    requires j < |jobs| && s.t == Example(row, attempts, jobs[j := JobIn(JobState.Running(Fetched), 1)])
    requires row.event == 0 && row.dest == 1 && row.status != Succeeded
    requires !HasAttempt(attempts, 0, row.attemptCount + 1)
    ensures Exec(s, WorkSteps(j, false, Response(code), NotConnected, now)).t
         == Tried(j, code, now, row, attempts, jobs)
  {
    hide Apply, Exec, HasAttempt, DeliveryStatus, ReturnFor, FromCode, At;
    var work := WorkSteps(j, false, Response(code), NotConnected, now);
    ExecFive(s, work[0], work[1], work[2], work[3], work[4]);
    SendsExample(s, j, code, row, attempts, jobs);
    var s4 := Apply(Apply(Apply(Apply(s, work[0]), work[1]), work[2]), work[3]);
    var result := FromCode(code);
    RecordStep(s4, j, result, now);
    var r := Store.RecordAttempt(s4.t, 0, DeliveryStatus(result, 1, 2), result.code, now);
    var status := DeliveryStatus(result, 1, 2);
    var row' := row.(status := status, attemptCount := row.attemptCount + 1,
                     deadLetteredAt := if status == DeadLettered then Some(now) else row.deadLetteredAt);
    var attempts' := attempts + [Attempt(0, row.attemptCount + 1, result.code)];
    assert r.value == Example(row', attempts', s4.t.jobs);
    AtExample(s4.(t := r.value, log := s4.log + [Recorded(0, j)]), j, Returned(ReturnFor(result)),
              row', attempts', jobs, JobState.Running(Dispatched(result)));
  }

  lemma Attempted(s: State, j: JobId, code: int, now: int, row: Delivery, attempts: seq<Attempt>, jobs: seq<Job>)
    requires s.t == Example(row, attempts, jobs) && j < |jobs| && jobs[j] == JobIn(Available, 0)
    requires row.event == 0 && row.dest == 1 && row.status != Succeeded
    requires !HasAttempt(attempts, 0, row.attemptCount + 1)
    ensures var s' := Exec(s, Attempting(j, code, now));
            s'.recoveries == s.recoveries && s'.t == Tried(j, code, now, row, attempts, jobs)
  {
    hide Apply, Exec, HasAttempt, Tried;
    var work := WorkSteps(j, false, Response(code), NotConnected, now);
    var s1 := Apply(s, Fetch(j));
    ExecOne(s, Fetch(j));
    ExecAppend(s, [Fetch(j)], work);
    FetchesExample(s, j, row, attempts, jobs);
    WorksExample(s1, j, code, now, row, attempts, jobs);
    WorkKeepsRecoveries(s1, work);
  }

  lemma {:induction false} WorkKeepsRecoveries(s: State, steps: seq<Step>)
    requires forall i :: 0 <= i < |steps| ==> steps[i].IsWorker() || steps[i].Record?
    ensures Exec(s, steps).recoveries == s.recoveries
  {
    if steps != [] { WorkKeepsRecoveries(s, steps[..|steps| - 1]); }
  }

  /** One source routed to one destination; its only event is refused with 404 and dead-lettered. */
  function Refused(): seq<Step> {
    [Configure(map[1 := DEST], [ROUTE], []), IngestEvent(REQUEST, 0)] + Attempting(0, 404, 9)
  }

  lemma RefusedState()
    ensures Run(Refused()).recoveries == []
    ensures Run(Refused()).t == Example(Delivery(0, 1, Some(0), DeadLettered, 1, Some(9)), [Attempt(0, 1, Some(404))],
                                        [JobIn(JobState.Running(Returned(Cancel)), 1)])
  {
    hide Apply, Exec;
    var setup := [Configure(map[1 := DEST], [ROUTE], []), IngestEvent(REQUEST, 0)];
    IngestExample();
    ExecAppend(INIT, setup, Attempting(0, 404, 9));
    Attempted(Run(setup), 0, 404, 9, NewDelivery(0, 1, 0), [], [JobIn(Available, 0)]);
    assert [] + [Attempt(0, 1, Some(404))] == [Attempt(0, 1, Some(404))];
    assert [WAITING][0 := RETIRING] == [RETIRING];
  }

  // The steps of a recovery

  lemma Reads(s: State, d: DeliveryId)
    requires d in s.t.deliveries && s.t.deliveries[d].status == DeadLettered
    ensures Apply(s, RecoverRead(d)) == s.(recoveries := s.recoveries + [Recovery(d, Checked(s.t.deliveries[d].dest))])
  {}

  lemma ReadsDestination(s: State, r: nat)
    requires r < |s.recoveries| && s.recoveries[r].stage.Checked? && s.recoveries[r].stage.dest in s.t.destinations
    ensures Apply(s, RecoverReadDestination(r))
         == SetRecovery(s, r, Armed(s.t.destinations[s.recoveries[r].stage.dest].policy))
  {}

  lemma Commits(s: State, r: nat)
    requires r < |s.recoveries| && s.recoveries[r].stage.Armed?
    ensures Apply(s, RecoverCommit(r)).recoveries == s.recoveries[r := s.recoveries[r].(stage := Closed)]
    ensures Apply(s, RecoverCommit(r)).t == Recover(s.t, s.recoveries[r].delivery, s.recoveries[r].stage.policy)
  {}

  lemma RecoversExample(row: Delivery, attempts: seq<Attempt>, jobs: seq<Job>)
    ensures Recover(Example(row, attempts, jobs), 0, POLICY)
         == Example(row.(status := Pending, deadLetteredAt := None, job := Some(|jobs|)), attempts, jobs + [WAITING])
  {}

  // A retiring job and its successor

  const RETIRING := JobIn(JobState.Running(Returned(Cancel)), 1)
  const RESET := Delivery(0, 1, Some(1), Pending, 1, None)
  const RECOVER: seq<Step> := [RecoverRead(0), RecoverReadDestination(0), RecoverCommit(0)]

  /** A recovery may commit before the queue has retired the job that dead-lettered the delivery: for a moment a
      pending delivery has two live jobs, one of them retiring. */
  lemma TwoLiveJobs()
    ensures var t := Run(Refused() + RECOVER).t;
            && t.deliveries == map[0 := RESET]
            && t.jobs == [RETIRING, JobIn(Available, 0)]
            && Live(t.jobs[0]) && Live(t.jobs[1]) && Retiring(t.jobs[0])
  {
    hide Exec, Refused, Attempting;
    RefusedState();
    ExecAppend(INIT, Refused(), RECOVER);
    RecoversDead(Run(Refused()), [RETIRING]);
    assert [RETIRING] + [WAITING] == [RETIRING, WAITING];
  }

  // Overlapping recoveries

  const BOTH: seq<Step> := [RecoverRead(0), RecoverRead(0)]

  /** Two recoveries read the dead letter; the first commits and its job is about to be fetched. */
  const OVERLAP: seq<Step> :=
    [RecoverRead(0), RecoverRead(0), RecoverReadDestination(0), RecoverReadDestination(1), RecoverCommit(0)]

  lemma BothRead(s: State)
    requires s.t == Example(Delivery(0, 1, Some(0), DeadLettered, 1, Some(9)), [Attempt(0, 1, Some(404))], [RETIRING])
    requires s.recoveries == []
    ensures Exec(s, BOTH) == Apply(Apply(s, RecoverRead(0)), RecoverRead(0))
    ensures Exec(s, BOTH) == s.(recoveries := [Recovery(0, Checked(1)), Recovery(0, Checked(1))])
  {
    hide Apply;
    assert BOTH[..1] == [RecoverRead(0)];
    ExecOne(s, RecoverRead(0));
    Reads(s, 0);
    var s1 := Apply(s, RecoverRead(0));
    assert s1.recoveries == [Recovery(0, Checked(1))];
    Reads(s1, 0);
  }

  lemma OverlapState()
    ensures var s := Run(Refused() + OVERLAP);
            && s.recoveries == [Recovery(0, Closed), Recovery(0, Armed(POLICY))]
            && s.t == Example(RESET, [Attempt(0, 1, Some(404))], [RETIRING, JobIn(Available, 0)])
    ensures !NoOverlap(Run(Refused() + BOTH))
  {
    hide Apply, Exec, Refused, Attempting, Recover;
    RefusedState();
    ExecAppend(INIT, Refused(), OVERLAP);
    ExecAppend(INIT, Refused(), BOTH);
    var s := Run(Refused());
    assert OVERLAP == [OVERLAP[0], OVERLAP[1], OVERLAP[2], OVERLAP[3], OVERLAP[4]];
    ExecFive(s, OVERLAP[0], OVERLAP[1], OVERLAP[2], OVERLAP[3], OVERLAP[4]);
    BothRead(s);
    var s2 := Apply(Apply(s, RecoverRead(0)), RecoverRead(0));
    assert s2.recoveries[0].Open() && s2.recoveries[1].Open();
    ReadsDestination(s2, 0);
    var s3 := Apply(s2, RecoverReadDestination(0));
    ReadsDestination(s3, 1);
    var s4 := Apply(s3, RecoverReadDestination(1));
    assert s4.recoveries == [Recovery(0, Armed(POLICY)), Recovery(0, Armed(POLICY))];
    Commits(s4, 0);
    RecoversExample(Delivery(0, 1, Some(0), DeadLettered, 1, Some(9)), [Attempt(0, 1, Some(404))], [RETIRING]);
  }

  /** With overlapping recoveries success is not final: the delivery succeeds under the first one's job, and the
      second one's unconditional reset makes it pending again, with one more live job. */
  lemma OverlapUndoesSuccess()
    ensures var before := Run(Refused() + OVERLAP + Attempting(1, 200, 20));
            var after := Apply(before, RecoverCommit(1));
            && 0 in before.t.deliveries && before.t.deliveries[0].status == Succeeded
            && 0 in after.t.deliveries && after.t.deliveries[0].status == Pending
            && |after.t.jobs| == 3 && Drives(after.t.jobs, 0, 2)
  {
    hide Apply, Exec, Refused, Attempting, Recover;
    OverlapState();
    ExecAppend(INIT, Refused() + OVERLAP, Attempting(1, 200, 20));
    var s := Run(Refused() + OVERLAP);
    var attempts, jobs := [Attempt(0, 1, Some(404))], [RETIRING, JobIn(Available, 0)];
    assert !HasAttempt(attempts, 0, 2);
    Attempted(s, 1, 200, 20, RESET, attempts, jobs);
    var before := Run(Refused() + OVERLAP + Attempting(1, 200, 20));
    Commits(before, 1);
    RecoversExample(before.t.deliveries[0], before.t.attempts, before.t.jobs);
  }

  // A lost reply

  /** One step of a worker in the example. */
  lemma MovesExample(s: State, step: Step, row: Delivery, attempts: seq<Attempt>, jobs: seq<Job>)
    requires s.t == Example(row, attempts, jobs) && step.IsWorker() && JobOf(step) < |jobs|
    ensures var j := JobOf(step);
            && Apply(s, step).recoveries == s.recoveries
            && Apply(s, step).t == Example(row, attempts, jobs[j := Moved(s.t, jobs[j], step)])
  {
    hide Moved, Noted;
  }

  lemma ExecFour(s: State, a: Step, b: Step, c: Step, d: Step)
    ensures Exec(s, [a, b, c, d]) == Apply(Apply(Apply(Apply(s, a), b), c), d)
  {
    hide Apply, Exec;
    ExecOne(s, a);
    ExecOne(Apply(s, a), b);
    ExecOne(Apply(Apply(s, a), b), c);
    ExecOne(Apply(Apply(Apply(s, a), b), c), d);
    ExecAppend(s, [a], [b]);
    ExecAppend(s, [a, b], [c]);
    ExecAppend(s, [a, b, c], [d]);
    assert [a] + [b] == [a, b] && [a, b] + [c] == [a, b, c] && [a, b, c] + [d] == [a, b, c, d];
  }

  const CALL := Http(Response(404))
  const WAITING := JobIn(Available, 0)
  const DEAD := Delivery(0, 1, Some(0), DeadLettered, 1, Some(9))
  const FIRST := [Attempt(0, 1, Some(404))]

  /** The first job is refused with 404. */
  const REFUSE: seq<Step> := [Fetch(0), Load(0), LoadDestination(0, false), Machine.Dispatch(0, CALL)]

  lemma Refuses(s: State)
    requires s.t == Example(NewDelivery(0, 1, 0), [], [WAITING])
    ensures Exec(s, REFUSE).recoveries == s.recoveries
    ensures Exec(s, REFUSE).t
         == Example(NewDelivery(0, 1, 0), [], [JobIn(JobState.Running(Dispatched(FromCode(404))), 1)])
  {
    ExecFour(s, REFUSE[0], REFUSE[1], REFUSE[2], REFUSE[3]);
    hide Apply, Exec;
    var row := NewDelivery(0, 1, 0);
    MovesExample(s, REFUSE[0], row, [], [WAITING]);
    var s1 := Apply(s, REFUSE[0]);
    assert s1.t.jobs == [JobIn(JobState.Running(Fetched), 1)];
    MovesExample(s1, REFUSE[1], row, [], s1.t.jobs);
    var s2 := Apply(s1, REFUSE[1]);
    assert s2.t.jobs == [JobIn(JobState.Running(Loaded(0, 1)), 1)];
    MovesExample(s2, REFUSE[2], row, [], s2.t.jobs);
    var s3 := Apply(s2, REFUSE[2]);
    assert s3.t.jobs == [JobIn(JobState.Running(Ready(0, false)), 1)];
    MovesExample(s3, REFUSE[3], row, [], s3.t.jobs);
    assert Apply(s3, REFUSE[3]).t.jobs == [JobIn(JobState.Running(Dispatched(FromCode(404))), 1)];
  }

  /** Its recording commits, the reply is lost, and the queue schedules a retry. */
  const LOSE: seq<Step> := [RecordUnacknowledged(0, 9), Finish(0)]

  lemma Loses(s: State)
    requires s.t == Example(NewDelivery(0, 1, 0), [], [JobIn(JobState.Running(Dispatched(FromCode(404))), 1)])
    ensures Exec(s, LOSE).recoveries == s.recoveries
    ensures Exec(s, LOSE).t == Example(DEAD, FIRST, [JobIn(Retryable, 1)])
  {
    hide Apply, Exec;
    ExecOne(s, LOSE[0]);
    var s1 := Apply(s, LOSE[0]);
    ExecOne(s1, LOSE[1]);
    ExecAppend(s, [LOSE[0]], [LOSE[1]]);
    assert LOSE == [LOSE[0]] + [LOSE[1]];
    RecordsUnanswered(s);
    MovesExample(s1, LOSE[1], DEAD, FIRST, s1.t.jobs);
    assert Apply(s1, LOSE[1]).t.jobs == [JobIn(Retryable, 1)];
  }

  lemma RecordsUnanswered(s: State)
    requires s.t == Example(NewDelivery(0, 1, 0), [], [JobIn(JobState.Running(Dispatched(FromCode(404))), 1)])
    ensures Apply(s, LOSE[0]).recoveries == s.recoveries
    ensures Apply(s, LOSE[0]).t == Example(DEAD, FIRST, [JobIn(JobState.Running(Returned(Error)), 1)])
  {
    assert Apply(s, LOSE[0]) == Recording(s, 0, 9, false);
    hide Apply;
    RecordingEffect(s, 0, 9, false);
    assert Records(s, 0);
    assert RecordedRow(NewDelivery(0, 1, 0), s.t.jobs[0], 9) == DEAD;
    hide Recording, HasAttempt, Records, RecordedRow;
    assert [] + [Attempt(0, 1, Some(404))] == FIRST;
  }

  lemma RecoversDead(s: State, jobs: seq<Job>)
    requires s.t == Example(DEAD, FIRST, jobs) && s.recoveries == [] && |jobs| == 1
    ensures Exec(s, RECOVER).recoveries == [Recovery(0, Closed)]
    ensures Exec(s, RECOVER).t == Example(RESET, FIRST, jobs + [WAITING])
  {
    hide Apply, Recover;
    assert RECOVER[..2] == [RecoverRead(0), RecoverReadDestination(0)] && RECOVER[..2][..1] == [RecoverRead(0)];
    ExecOne(s, RecoverRead(0));
    Reads(s, 0);
    var s1 := Apply(s, RecoverRead(0));
    ReadsDestination(s1, 0);
    var s2 := Apply(s1, RecoverReadDestination(0));
    assert s2.recoveries == [Recovery(0, Armed(POLICY))];
    Commits(s2, 0);
    assert Exec(s, RECOVER) == Apply(s2, RecoverCommit(0));
    RecoversExample(DEAD, FIRST, jobs);
  }

  /** The first job is fetched again and passes the check of the status while the delivery is still pending. */
  const RETRY: seq<Step> := [Promote(0), Fetch(0), Load(0), LoadDestination(0, false)]
  const READY := JobIn(JobState.Running(Ready(0, false)), 2)

  lemma Retries(s: State)
    requires s.t == Example(RESET, FIRST, [JobIn(Retryable, 1), WAITING])
    ensures Exec(s, RETRY).recoveries == s.recoveries
    ensures Exec(s, RETRY).t == Example(RESET, FIRST, [READY, WAITING])
  {
    ExecFour(s, RETRY[0], RETRY[1], RETRY[2], RETRY[3]);
    hide Apply, Exec;
    MovesExample(s, RETRY[0], RESET, FIRST, s.t.jobs);
    var s1 := Apply(s, RETRY[0]);
    assert s1.t.jobs == [JobIn(Available, 1), WAITING];
    MovesExample(s1, RETRY[1], RESET, FIRST, s1.t.jobs);
    var s2 := Apply(s1, RETRY[1]);
    assert s2.t.jobs == [JobIn(JobState.Running(Fetched), 2), WAITING];
    MovesExample(s2, RETRY[2], RESET, FIRST, s2.t.jobs);
    var s3 := Apply(s2, RETRY[2]);
    assert s3.t.jobs == [JobIn(JobState.Running(Loaded(0, 1)), 2), WAITING];
    MovesExample(s3, RETRY[3], RESET, FIRST, s3.t.jobs);
    assert Apply(s3, RETRY[3]).t.jobs == [READY, WAITING];
  }

  /** The run up to the second job's success. */
  function LostReply(): seq<Step> {
    [Configure(map[1 := DEST], [ROUTE], []), IngestEvent(REQUEST, 0)] + REFUSE + LOSE + RECOVER + RETRY
    + Attempting(1, 200, 20)
  }

  lemma LostReplyState()
    ensures var s := Run(LostReply());
            s.recoveries == [Recovery(0, Closed)] && s.t == Tried(1, 200, 20, RESET, FIRST, [READY, WAITING])
  {
    hide Apply, Exec, Attempting, Tried;
    var setup := [Configure(map[1 := DEST], [ROUTE], []), IngestEvent(REQUEST, 0)];
    IngestExample();
    ExecAppend(INIT, setup, REFUSE);
    Refuses(Run(setup));
    ExecAppend(INIT, setup + REFUSE, LOSE);
    Loses(Run(setup + REFUSE));
    ExecAppend(INIT, setup + REFUSE + LOSE, RECOVER);
    RecoversDead(Run(setup + REFUSE + LOSE), [JobIn(Retryable, 1)]);
    ExecAppend(INIT, setup + REFUSE + LOSE + RECOVER, RETRY);
    assert [JobIn(Retryable, 1)] + [WAITING] == [JobIn(Retryable, 1), WAITING];
    Retries(Run(setup + REFUSE + LOSE + RECOVER));
    ExecAppend(INIT, setup + REFUSE + LOSE + RECOVER + RETRY, Attempting(1, 200, 20));
    assert !HasAttempt(FIRST, 0, 2);
    Attempted(Run(setup + REFUSE + LOSE + RECOVER + RETRY), 1, 200, 20, RESET, FIRST, [READY, WAITING]);
  }

  /** With a single recovery success is not final either: after a lost reply the first job tries again beside the
      recovery's, passes its check, and records its failure over the other's success. */
  lemma LostReplyUndoesSuccess()
    ensures var before := Run(LostReply());
            var after := Apply(Apply(before, Machine.Dispatch(0, CALL)), Record(0, 30));
            && 0 in before.t.deliveries && before.t.deliveries[0].status == Succeeded
            && (forall r :: 0 <= r < |before.recoveries| ==> !before.recoveries[r].Open())
            && !Settled(before, 0)
            && 0 in after.t.deliveries && after.t.deliveries[0].status == DeadLettered
  {
    LostReplyState();
    hide Apply, Exec, LostReply;
    var before := Run(LostReply());
    var row, attempts, jobs := before.t.deliveries[0], before.t.attempts, before.t.jobs;
    assert jobs[0] == READY && before.t == Example(row, attempts, jobs) && row.attemptCount == 2;
    assert attempts == [Attempt(0, 1, Some(404)), Attempt(0, 2, Some(200))];
    assert !Harmless(jobs[0]);
    MovesExample(before, Machine.Dispatch(0, CALL), row, attempts, jobs);
    var sent := Apply(before, Machine.Dispatch(0, CALL));
    assert sent.t.jobs[0] == JobIn(JobState.Running(Dispatched(FromCode(404))), 2);
    assert !HasAttempt(attempts, 0, 3);
    RecordStep(sent, 0, FromCode(404), 30);
  }
}
