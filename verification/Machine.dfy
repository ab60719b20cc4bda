/** The delivery state machine: ingest, replay, worker runs, recovery, deletion and configuration change the
    tables and the queue in arbitrary interleaving, one step per transaction, read or queue action. A disabled
    step leaves the state as it is, so every list of steps is a run. */
module Machine {
  import opened Options
  import opened Store
  import opened Dispatch
  import Dedup
  import Ingest
  import Rules
  import opened Traces

  /** A recovery request: the row was read as dead-lettered; then its destination is read; then it commits. */
  datatype Stage = Checked(dest: DestId) | Armed(policy: Policy) | Closed
  datatype Recovery = Recovery(delivery: DeliveryId, stage: Stage) {
    predicate Open() { !stage.Closed? }
  }

  /** History: what happened, in order. */
  datatype Entry =
    | Created(delivery: DeliveryId)
    | Reset(delivery: DeliveryId)
    | Recorded(delivery: DeliveryId, job: JobId)
    | FetchedJob(job: JobId)
    | SnoozedJob(job: JobId)
    | Sent(delivery: DeliveryId, job: JobId)

  datatype State = State(t: Tables, recoveries: seq<Recovery>, log: seq<Entry>)

  const EMPTY := Tables(map[], map[], [], [], map[], map[], [], [], 0, 0)
  const INIT := State(EMPTY, [], [])

  datatype Step =
    // ingest, replay and housekeeping
    | IngestEvent(req: Ingest.Request, now: int)
    | Replay(event: EventId)
    | CleanDedup(now: int)
    // the queue
    | Promote(j: JobId)
    | Fetch(j: JobId)
    | Finish(j: JobId)
    // a worker run
    | Load(j: JobId)
    | LoadDestination(j: JobId, paced: bool)
    | Dispatch(j: JobId, x: Try)
    | Record(j: JobId, now: int)
    // recovery of a dead-lettered delivery
    | RecoverRead(d: DeliveryId)
    | RecoverReadDestination(r: nat)
    | RecoverCommit(r: nat)
    | RecoverAbort(r: nat)
    // administration
    | Configure(destinations: map<DestId, Destination>, routes: seq<Route>, rules: seq<Rules.Rule>)
    | DropDestination(dest: DestId)
    | DropSource(source: SourceId)
    // failures: a database error before the dispatch, one while recording, a commit whose reply is lost, a crash
    | LoadError(j: JobId)
    | RecordError(j: JobId)
    | RecordUnacknowledged(j: JobId, now: int)
    | Crash(j: JobId)
  {
    predicate IsFailure() { LoadError? || RecordError? || RecordUnacknowledged? || Crash? }
    predicate IsWorker() {
      || Promote? || Fetch? || Finish? || Load? || LoadDestination? || Dispatch?
      || LoadError? || RecordError? || Crash?
    }
  }

  // Steps that move one job and nothing else in the tables

  function Returning(job: Job, out: Return): Job { job.(state := Running(Returned(out))) }

  /** An error reschedules a job while attempts remain and discards it otherwise. */
  function Failing(job: Job): Job {
    job.(state := if job.attempt < job.maxAttempts then Retryable else Discarded)
  }

  function Finished(job: Job, out: Return): Job {
    match out
    case Done => job.(state := Completed)
    case Cancel => job.(state := Cancelled)
    case Snooze => job.(state := Scheduled, attempt := job.attempt - 1)
    case Error => Failing(job)
  }

  /** The job after a worker step; the job itself when the step is not enabled. */
  function Moved(t: Tables, job: Job, step: Step): Job
    requires step.IsWorker()
  {
    match step
    case Promote(_) => if job.state.Scheduled? || job.state.Retryable? then job.(state := Available) else job
    case Fetch(_) => if job.state.Available? then job.(state := Running(Fetched), attempt := job.attempt + 1) else job
    case Finish(_) => if job.state.Running? && job.state.pc.Returned? then Finished(job, job.state.pc.out) else job
    case Load(_) =>
      if job.state != Running(Fetched) then job
      else if job.delivery !in t.deliveries then Returning(job, Done)
      else if t.deliveries[job.delivery].status == Succeeded then Returning(job, Done)
      else job.(state := Running(Loaded(t.deliveries[job.delivery].event, t.deliveries[job.delivery].dest)))
    case LoadDestination(_, paced) =>
      if !(job.state.Running? && job.state.pc.Loaded?) then job
      else
        var dest := job.state.pc.dest;
        if dest !in t.destinations then Returning(job, Done)
        else if t.destinations[dest].paused || paced then Returning(job, Snooze)
        else job.(state := Running(Ready(job.state.pc.event, t.destinations[dest].isTunnel)))
    case Dispatch(_, x) =>
      if !CanDispatch(job, x) then job
      else if job.state.pc.event in t.events then job.(state := Running(Dispatched(Classify(x))))
      else if x.Http? then Returning(job, Done)
      else job.(state := Running(Dispatched(AttemptResult(None, false, false))))
    case LoadError(_) =>
      if job.state.Running? && (job.state.pc.Fetched? || job.state.pc.Loaded? || job.state.pc.Ready?)
      then Returning(job, Error) else job
    case RecordError(_) => if job.state.Running? && job.state.pc.Dispatched? then Returning(job, Error) else job
    case Crash(_) => if job.state.Running? then Failing(job) else job
  }

  predicate CanDispatch(job: Job, x: Try) {
    job.state.Running? && job.state.pc.Ready? && (job.state.pc.isTunnel <==> x.OverTunnel?)
  }

  /** What a worker step adds to history. */
  function Noted(t: Tables, job: Job, step: Step): seq<Entry>
    requires step.IsWorker()
  {
    match step
    case Fetch(j) => if job.state.Available? then [FetchedJob(j)] else []
    case Finish(j) => if job.state == Running(Returned(Snooze)) then [SnoozedJob(j)] else []
    case Dispatch(j, x) => if CanDispatch(job, x) && job.state.pc.event in t.events then [Sent(job.delivery, j)] else []
    case _ => []
  }

  /** A worker's recording transaction and what it then returns. */
  function Recording(s: State, j: JobId, now: int, acknowledged: bool): State
    requires j < |s.t.jobs|
  {
    var job := s.t.jobs[j];
    if !(job.state.Running? && job.state.pc.Dispatched?) then s
    else
      var result := job.state.pc.result;
      var status := DeliveryStatus(result, job.attempt, job.maxAttempts);
      match RecordAttempt(s.t, job.delivery, status, result.code, now)
      case None => s.(t := s.t.(jobs := s.t.jobs[j := Returning(job, Error)]))
      case Some(t') =>
        s.(t := t'.(jobs := t'.jobs[j := Returning(job, if acknowledged then ReturnFor(result) else Error)]),
           log := s.log + [Recorded(job.delivery, j)])
  }

  function Births(from: DeliveryId, n: nat): seq<Entry> {
    if n == 0 then [] else Births(from, n - 1) + [Created(from + n - 1)]
  }

  /** A step that may only fan out: its deliveries enter history. */
  function Enqueued(s: State, t': Tables): State {
    var born := if t'.nextDelivery < s.t.nextDelivery then 0 else t'.nextDelivery - s.t.nextDelivery;
    s.(t := t', log := s.log + Births(s.t.nextDelivery, born))
  }

  function SetRecovery(s: State, r: nat, stage: Stage): State
    requires r < |s.recoveries|
  {
    s.(recoveries := s.recoveries[r := s.recoveries[r].(stage := stage)])
  }

  function JobOf(step: Step): JobId
    requires step.IsWorker()
  {
    match step
    case Promote(j) => j case Fetch(j) => j case Finish(j) => j case Load(j) => j
    case LoadDestination(j, _) => j case Dispatch(j, _) => j
    case LoadError(j) => j case RecordError(j) => j case Crash(j) => j
  }

  function Apply(s: State, step: Step): State {
    if step.IsWorker() then
      var j := JobOf(step);
      if j < |s.t.jobs| then
        s.(t := s.t.(jobs := s.t.jobs[j := Moved(s.t, s.t.jobs[j], step)]),
           log := s.log + Noted(s.t, s.t.jobs[j], step))
      else s
    else
      match step
      case IngestEvent(req, now) => Enqueued(s, Ingest.Committed(s.t, req, now))
      case Replay(event) =>
        if event in s.t.events then
          Enqueued(s, FanOut(s.t, event, RouteTargets(s.t.routes, s.t.destinations, s.t.events[event].source)))
        else s
      case CleanDedup(now) => s.(t := s.t.(dedup := Dedup.DeleteExpired(s.t.dedup, now)))
      case Record(j, now) => if j < |s.t.jobs| then Recording(s, j, now, true) else s
      case RecordUnacknowledged(j, now) => if j < |s.t.jobs| then Recording(s, j, now, false) else s
      case RecoverRead(d) =>
        if d in s.t.deliveries && s.t.deliveries[d].status == DeadLettered then
          s.(recoveries := s.recoveries + [Recovery(d, Checked(s.t.deliveries[d].dest))])
        else s
      case RecoverReadDestination(r) =>
        if r < |s.recoveries| && s.recoveries[r].stage.Checked? then
          var dest := s.recoveries[r].stage.dest;
          SetRecovery(s, r, if dest in s.t.destinations then Armed(s.t.destinations[dest].policy) else Closed)
        else s
      case RecoverCommit(r) =>
        if r < |s.recoveries| && s.recoveries[r].stage.Armed? then
          var d := s.recoveries[r].delivery;
          SetRecovery(s, r, Closed).(t := Recover(s.t, d, s.recoveries[r].stage.policy), log := s.log + [Reset(d)])
        else s
      case RecoverAbort(r) =>
        if r < |s.recoveries| then SetRecovery(s, r, Closed) else s
      case Configure(destinations, routes, rules) =>
        if s.t.destinations.Keys <= destinations.Keys && UniqueRoutes(routes) then
          s.(t := s.t.(destinations := destinations, routes := routes, rules := rules))
        else s
      case DropDestination(dest) => s.(t := DeleteDestination(s.t, dest))
      case DropSource(source) => s.(t := DeleteSource(s.t, source))
  }

  function Exec(s: State, steps: seq<Step>): State {
    if steps == [] then s else Apply(Exec(s, steps[..|steps| - 1]), steps[|steps| - 1])
  }

  function Run(steps: seq<Step>): State { Exec(INIT, steps) }

  lemma {:induction false} ExecAppend(s: State, a: seq<Step>, b: seq<Step>)
    ensures Exec(s, a + b) == Exec(Exec(s, a), b)
  {
    if b == [] {
      assert a + b == a;
    } else {
      ExecAppend(s, a, b[..|b| - 1]);
      assert (a + b)[..|a + b| - 1] == a + b[..|b| - 1];
    }
  }

  lemma ExecOne(s: State, x: Step)
    ensures Exec(s, [x]) == Apply(s, x)
  {
    assert [x][..0] == [];
  }

  lemma InterleaveOneMore(s: State, own: seq<Step>, others: nat -> seq<Step>, n: nat)
    requires n < |own|
    ensures Exec(s, Interleave(own, others, n) + others(n)) == Exec(Exec(s, Interleave(own, others, n)), others(n))
    ensures Exec(s, Interleave(own, others, n + 1)) == Apply(Exec(s, Interleave(own, others, n) + others(n)), own[n])
  {
    hide Apply, Exec;
    ExecAppend(s, Interleave(own, others, n), others(n));
    ExecAppend(s, Interleave(own, others, n) + others(n), [own[n]]);
    ExecOne(Exec(s, Interleave(own, others, n) + others(n)), own[n]);
  }

  lemma InterleaveNone(s: State, own: seq<Step>, others: nat -> seq<Step>)
    ensures Exec(s, Interleave(own, others, 0)) == s
  {}
}
