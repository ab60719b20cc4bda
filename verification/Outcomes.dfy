/** What each kind of step does, spelled out: which answers succeed, are retried or are given up, what the queue does
    with a job, and what recovery and administration change. */
module Outcomes {
  import opened Options
  import opened Store
  import opened Dispatch
  import opened Machine
  import opened Basics
  import Dedup
  import History
  import Rules

  /** A try was answered with this status code, over HTTP or in an ack. */
  ghost predicate Answered(x: Try, code: int) { x == Http(Response(code)) || x == OverTunnel(AckCode(code)) }

  /** Answered with a code from 200 to 299. */
  ghost predicate Good(x: Try) { exists code :: Answered(x, code) && 200 <= code <= 299 }

  /** Worth another try: no response over HTTP, an event that could not be read for a tunnel, or a code of 408, 429 or
      from 500 on. */
  ghost predicate Transient(x: Try) {
    || x == Http(NoResponse)
    || x == OverTunnel(EventUnreadable)
    || exists code :: Answered(x, code) && (code == 408 || code == 429 || code >= 500)
  }

  lemma ClassifiedAs(x: Try)
    ensures Classify(x).succeeded <==> Good(x)
    ensures Classify(x).retryable <==> Transient(x)
    ensures !(Good(x) && Transient(x))
    ensures forall code :: Answered(x, code) && -0x8000_0000 <= code < 0x8000_0000 ==> Classify(x).code == Some(code)
    ensures (forall code :: !Answered(x, code)) ==> Classify(x).code == None
  {
    var c := CodeOf(x);
    if c.Some? { assert Answered(x, c.value); }
  }

  /** A worker about to send, on a delivery that exists. */
  ghost predicate Sending(s: State, j: JobId, x: Try) {
    && j < |s.t.jobs| && s.t.jobs[j].delivery in s.t.deliveries
    && s.t.jobs[j].state.Running? && s.t.jobs[j].state.pc.Ready? && s.t.jobs[j].state.pc.event in s.t.events
    && (s.t.jobs[j].state.pc.isTunnel <==> x.OverTunnel?)
  }

  lemma Sends(s: State, j: JobId, x: Try)
    requires Sending(s, j, x)
    ensures var s1 := Apply(s, Machine.Dispatch(j, x)); var job := s.t.jobs[j];
            s1 == s.(t := s.t.(jobs := s.t.jobs[j := job.(state := JobState.Running(Dispatched(Classify(x))))]),
                     log := s.log + [Sent(job.delivery, j)])
  {
    hide Classify;
  }

  /** One attempt, from sending to the queue's action on the job, in any reachable state: the answer alone, and for
      transient ones the attempts left, decide the delivery's status and the job's state; one history row is added. */
  lemma AttemptOutcome(steps: seq<Step>, j: JobId, x: Try, now: int)
    requires Sending(Run(steps), j, x)
    ensures var s := Run(steps); var job := s.t.jobs[j]; var d := job.delivery; var row := s.t.deliveries[d];
            var s1 := Apply(s, Machine.Dispatch(j, x));
            var s2 := Apply(s1, Record(j, now));
            var more := job.attempt < job.maxAttempts;
            && s1.log == s.log + [Sent(d, j)]
            && d in s2.t.deliveries && s2.t.deliveries.Keys == s.t.deliveries.Keys && |s2.t.jobs| == |s.t.jobs|
            && var row' := s2.t.deliveries[d];
               && (row'.status == Succeeded <==> Good(x))
               && (row'.status == Failed <==> Transient(x) && more)
               && (row'.status == DeadLettered <==> !Good(x) && !(Transient(x) && more))
               && row' == row.(status := row'.status, attemptCount := row.attemptCount + 1,
                               deadLetteredAt := if row'.status == DeadLettered then Some(now) else row.deadLetteredAt)
               && |s2.t.attempts| == |s.t.attempts| + 1 && s2.t.attempts[..|s.t.attempts|] == s.t.attempts
               && (var a := s2.t.attempts[|s.t.attempts|];
                   && a.delivery == d && a.number == row.attemptCount + 1
                   && (forall code :: Answered(x, code) && -0x8000_0000 <= code < 0x8000_0000 ==> a.code == Some(code))
                   && ((forall code :: !Answered(x, code)) ==> a.code == None))
               && var job' := Apply(s2, Finish(j)).t.jobs[j];
                  && job'.attempt == job.attempt
                  && job'.state == (if Good(x) then Completed else if !Transient(x) then Cancelled
                                    else if more then Retryable else Discarded)
  {
    var s := Run(steps);
    var job := s.t.jobs[j];
    var d := job.delivery;
    Sends(s, j, x);
    var s1 := Apply(s, Machine.Dispatch(j, x));
    History.AttemptsAreNumbered(steps);
    assert History.Numbered(s.t, d);
    History.NextIsFree(s.t.attempts, d, s.t.deliveries[d].attemptCount);
    ClassifiedAs(x);
    hide Run, Good, Transient, Classify, HasAttempt;
    RecordsAs(s1, j, Classify(x), now);
  }

  lemma RecordsAs(s: State, j: JobId, result: AttemptResult, now: int)
    requires j < |s.t.jobs| && s.t.jobs[j].state == JobState.Running(Dispatched(result))
    requires s.t.jobs[j].delivery in s.t.deliveries
    requires !HasAttempt(s.t.attempts, s.t.jobs[j].delivery, s.t.deliveries[s.t.jobs[j].delivery].attemptCount + 1)
    ensures var job := s.t.jobs[j]; var d := job.delivery; var row := s.t.deliveries[d];
            var s2 := Apply(s, Record(j, now)); var more := job.attempt < job.maxAttempts;
            var status :=
              if result.succeeded then Succeeded else if result.retryable && more then Failed else DeadLettered;
            && s2.t.deliveries == s.t.deliveries[d := row.(status := status, attemptCount := row.attemptCount + 1,
                 deadLetteredAt := if status == DeadLettered then Some(now) else row.deadLetteredAt)]
            && s2.t.attempts == s.t.attempts + [Attempt(d, row.attemptCount + 1, result.code)]
            && |s2.t.jobs| == |s.t.jobs|
            && Apply(s2, Finish(j)).t.jobs[j] == job.(state :=
                 if result.succeeded then Completed else if !result.retryable then Cancelled
                 else if more then Retryable else Discarded)
  {
    hide HasAttempt;
    RecordingEffect(s, j, now, true);
    var s2 := Apply(s, Record(j, now));
    assert s2 == Recording(s, j, now, true) && Records(s, j);
    hide Recording, Records;
    assert s2.t.jobs[j] == s.t.jobs[j].(state := JobState.Running(Returned(ReturnFor(result))));
    Finishes(s2, j);
  }

  /** The queue's action on a job whose worker has returned. */
  lemma Finishes(s: State, j: JobId)
    requires j < |s.t.jobs| && s.t.jobs[j].state.Running? && s.t.jobs[j].state.pc.Returned?
    ensures var job := s.t.jobs[j];
            Apply(s, Finish(j)).t == s.t.(jobs := s.t.jobs[j :=
              match job.state.pc.out
              case Done => job.(state := Completed)
              case Cancel => job.(state := Cancelled)
              case Snooze => job.(state := Scheduled, attempt := job.attempt - 1)
              case Error => job.(state := if job.attempt < job.maxAttempts then Retryable else Discarded)])
    ensures s.t.jobs[j].state.pc.out != Snooze ==> Apply(s, Finish(j)).log == s.log
  {
    assert s.log + [] == s.log;
  }

  /** A worker step that makes its job return, and the queue's action on it, together. */
  lemma ReturnsAndFinishes(s: State, step: Step, j: JobId, out: Return, after: JobState)
    requires j < |s.t.jobs| && step.IsWorker() && JobOf(step) == j && out != Snooze
    requires Moved(s.t, s.t.jobs[j], step) == s.t.jobs[j].(state := JobState.Running(Returned(out)))
    requires Noted(s.t, s.t.jobs[j], step) == []
    requires Finished(s.t.jobs[j], out) == s.t.jobs[j].(state := after)
    ensures Apply(Apply(s, step), Finish(j)) == s.(t := s.t.(jobs := s.t.jobs[j := s.t.jobs[j].(state := after)]))
  {
    hide Moved, Noted;
    var job := s.t.jobs[j];
    var s1 := Apply(s, step);
    assert s.log + [] == s.log;
    assert s1 == s.(t := s.t.(jobs := s.t.jobs[j := job.(state := JobState.Running(Returned(out)))]));
    Finishes(s1, j);
    RecoveriesKept(s1, Finish(j));
    hide Apply;
    assert s1.t.jobs[j := job.(state := after)] == s.t.jobs[j := job.(state := after)];
  }

  lemma RecoveriesKept(s: State, step: Step)
    requires step.IsWorker()
    ensures Apply(s, step).recoveries == s.recoveries
  {
    hide Moved, Noted;
  }

  /** When the delivery is gone by the time its attempt is recorded, nothing is recorded and the job fails; when only
      the reply to the recording is lost, all is recorded and the job fails as well. */
  lemma RecordingFails(s: State, j: JobId, now: int)
    requires j < |s.t.jobs| && s.t.jobs[j].state.Running? && s.t.jobs[j].state.pc.Dispatched?
    ensures s.t.jobs[j].delivery !in s.t.deliveries ==>
      Apply(s, Record(j, now)) == s.(t := s.t.(jobs := s.t.jobs[j :=
        s.t.jobs[j].(state := JobState.Running(Returned(Error)))]))
    ensures var a, u := Apply(s, Record(j, now)), Apply(s, RecordUnacknowledged(j, now));
            && u.t == a.t.(jobs := u.t.jobs) && u.log == a.log && |u.t.jobs| == |s.t.jobs|
            && u.t.jobs[j] == s.t.jobs[j].(state := JobState.Running(Returned(Error)))
  {
    hide HasAttempt;
  }

  /** Over a tunnel a missing event is a failure for good, without a code and without a send. */
  lemma TunnelEventGone(s: State, j: JobId, x: TunnelTry)
    requires j < |s.t.jobs| && s.t.jobs[j].state.Running? && s.t.jobs[j].state.pc.Ready?
    requires s.t.jobs[j].state.pc.isTunnel && s.t.jobs[j].state.pc.event !in s.t.events
    ensures Apply(s, Machine.Dispatch(j, OverTunnel(x))) == s.(t := s.t.(jobs := s.t.jobs[j :=
              s.t.jobs[j].(state := JobState.Running(Dispatched(AttemptResult(None, false, false))))]))
  {
    assert s.log + [] == s.log;
  }

  lemma Loads(s: State, j: JobId)
    requires j < |s.t.jobs| && s.t.jobs[j].state == JobState.Running(Fetched)
    requires s.t.jobs[j].delivery in s.t.deliveries && s.t.deliveries[s.t.jobs[j].delivery].status != Succeeded
    ensures var row := s.t.deliveries[s.t.jobs[j].delivery];
            && |Apply(s, Load(j)).t.jobs| == |s.t.jobs|
            && Apply(s, Load(j)).t.jobs[j].state == JobState.Running(Loaded(row.event, row.dest))
  {}

  /** A worker that finds no delivery, or one that succeeded, or no destination, or over HTTP no event, ends its job
      without sending and touches nothing else; otherwise it goes on with what it read. */
  lemma NothingToDo(s: State, j: JobId, x: Try, paced: bool)
    requires j < |s.t.jobs| && s.t.jobs[j].state.Running?
    ensures var job := s.t.jobs[j]; var d := job.delivery; var s1 := Apply(s, Load(j));
            job.state.pc.Fetched? ==>
              if d !in s.t.deliveries || s.t.deliveries[d].status == Succeeded then
                Apply(s1, Finish(j)) == s.(t := s.t.(jobs := s.t.jobs[j := job.(state := Completed)]))
              else
                s1.t.jobs[j].state == JobState.Running(Loaded(s.t.deliveries[d].event, s.t.deliveries[d].dest))
    ensures var job := s.t.jobs[j]; var s1 := Apply(s, LoadDestination(j, paced));
            job.state.pc.Loaded? && job.state.pc.dest !in s.t.destinations ==>
              Apply(s1, Finish(j)) == s.(t := s.t.(jobs := s.t.jobs[j := job.(state := Completed)]))
    ensures var job := s.t.jobs[j]; var s1 := Apply(s, Machine.Dispatch(j, x));
            job.state.pc.Ready? && job.state.pc.event !in s.t.events && !job.state.pc.isTunnel && x.Http? ==>
              Apply(s1, Finish(j)) == s.(t := s.t.(jobs := s.t.jobs[j := job.(state := Completed)]))
  {
    var job := s.t.jobs[j];
    hide Apply;
    if job.state.pc.Fetched? {
      if job.delivery !in s.t.deliveries || s.t.deliveries[job.delivery].status == Succeeded {
        ReturnsAndFinishes(s, Load(j), j, Done, Completed);
      } else {
        Loads(s, j);
      }
    } else if job.state.pc.Loaded? && job.state.pc.dest !in s.t.destinations {
      ReturnsAndFinishes(s, LoadDestination(j, paced), j, Done, Completed);
    } else if job.state.pc.Ready? && job.state.pc.event !in s.t.events && !job.state.pc.isTunnel && x.Http? {
      ReturnsAndFinishes(s, Machine.Dispatch(j, x), j, Done, Completed);
    }
  }

  /** The queue: a waiting job becomes available, an available one is fetched at the cost of one attempt. */
  lemma QueueActs(s: State, j: JobId)
    requires j < |s.t.jobs|
    ensures var job := s.t.jobs[j];
            (job.state.Scheduled? || job.state.Retryable? ==>
               Apply(s, Promote(j)) == s.(t := s.t.(jobs := s.t.jobs[j := job.(state := Available)])))
    ensures var job := s.t.jobs[j];
            (job.state.Available? ==>
               Apply(s, Fetch(j)) == s.(t := s.t.(jobs := s.t.jobs[j :=
                 job.(state := JobState.Running(Fetched), attempt := job.attempt + 1)]),
                     log := s.log + [FetchedJob(j)]))
  {
    assert s.log + [] == s.log;
  }

  /** A failure: the job is tried again if it has attempts left and is discarded otherwise, at once after a crash and
      with the queue's next action after an error; the delivery is not touched. */
  lemma FailureActs(s: State, j: JobId)
    requires j < |s.t.jobs| && s.t.jobs[j].state.Running?
    ensures var job := s.t.jobs[j]; var after := if job.attempt < job.maxAttempts then Retryable else Discarded;
            var failed := s.(t := s.t.(jobs := s.t.jobs[j := job.(state := after)]));
            && Apply(s, Crash(j)) == failed
            && (job.state.pc.Fetched? || job.state.pc.Loaded? || job.state.pc.Ready? ==>
                  Apply(Apply(s, LoadError(j)), Finish(j)) == failed)
            && (job.state.pc.Dispatched? ==> Apply(Apply(s, RecordError(j)), Finish(j)) == failed)
  {
    var job := s.t.jobs[j];
    var after := if job.attempt < job.maxAttempts then Retryable else Discarded;
    CrashActs(s, j);
    hide Apply;
    if job.state.pc.Fetched? || job.state.pc.Loaded? || job.state.pc.Ready? {
      ReturnsAndFinishes(s, LoadError(j), j, Error, after);
    } else if job.state.pc.Dispatched? {
      ReturnsAndFinishes(s, RecordError(j), j, Error, after);
    }
  }

  lemma CrashActs(s: State, j: JobId)
    requires j < |s.t.jobs| && s.t.jobs[j].state.Running?
    ensures var job := s.t.jobs[j]; var after := if job.attempt < job.maxAttempts then Retryable else Discarded;
            Apply(s, Crash(j)) == s.(t := s.t.(jobs := s.t.jobs[j := job.(state := after)]))
  {
    assert s.log + [] == s.log;
  }

  // Recovery

  /** Recovering a dead letter: the row is pending again with its history kept, and a fresh job, with the retry settings
      its destination has when they are read, drives it. Any other delivery cannot be recovered. */
  lemma RecoveryRequeues(steps: seq<Step>, d: DeliveryId)
    ensures var s := Run(steps);
            if d in s.t.deliveries && s.t.deliveries[d].status == DeadLettered then
              var r, row := |s.recoveries|, s.t.deliveries[d];
              && row.dest in s.t.destinations
              && var policy := s.t.destinations[row.dest].policy;
                 Apply(Apply(Apply(s, RecoverRead(d)), RecoverReadDestination(r)), RecoverCommit(r)).t
                 == s.t.(deliveries := s.t.deliveries[d :=
                           row.(status := Pending, deadLetteredAt := None, job := Some(|s.t.jobs|))],
                         jobs := s.t.jobs + [Job(d, policy, if policy.maxAttempts < 1 then 1 else policy.maxAttempts,
                                                 0, Available)])
            else Apply(s, RecoverRead(d)) == s
  {
    BasicHolds(steps);
    var s := Run(steps);
    hide Run, JobsOk, RecoveriesOk;
    if d in s.t.deliveries && s.t.deliveries[d].status == DeadLettered {
      var r := |s.recoveries|;
      var s1 := Apply(s, RecoverRead(d));
      assert s1.recoveries[r] == Recovery(d, Checked(s.t.deliveries[d].dest));
      var s2 := Apply(s1, RecoverReadDestination(r));
      assert s2.recoveries[r] == Recovery(d, Armed(s.t.destinations[s.t.deliveries[d].dest].policy)) && s2.t == s.t;
    }
  }

  /** A recovery whose destination is gone, and one that is given up, never commits. */
  lemma RecoveryEnds(s: State, r: nat)
    requires r < |s.recoveries|
    ensures var closed := s.(recoveries := s.recoveries[r := s.recoveries[r].(stage := Closed)]);
            && Apply(s, RecoverAbort(r)) == closed
            && (s.recoveries[r].stage.Checked? && s.recoveries[r].stage.dest !in s.t.destinations ==>
                  Apply(s, RecoverReadDestination(r)) == closed)
            && Apply(closed, RecoverCommit(r)) == closed
  {}

  /** A recovery whose row is gone by the time it commits leaves no row behind, only a job that will find nothing. */
  lemma RecoveryOfNothing(s: State, r: nat)
    requires r < |s.recoveries| && s.recoveries[r].stage.Armed? && s.recoveries[r].delivery !in s.t.deliveries
    ensures var policy := s.recoveries[r].stage.policy;
            Apply(s, RecoverCommit(r)).t == s.t.(jobs := s.t.jobs
              + [Job(s.recoveries[r].delivery, policy,
                     if policy.maxAttempts < 1 then 1 else policy.maxAttempts, 0, Available)])
  {}

  // Administration

  lemma AdministrationActs(s: State, dest: DestId, source: SourceId, now: int, k: Dedup.Key,
                           destinations: map<DestId, Destination>, routes: seq<Route>, rules: seq<Rules.Rule>)
    ensures Apply(s, DropDestination(dest)) == s.(t := DeleteDestination(s.t, dest))
    ensures Apply(s, DropSource(source)) == s.(t := DeleteSource(s.t, source))
    ensures var s' := Apply(s, CleanDedup(now));
            && s' == s.(t := s.t.(dedup := s'.t.dedup))
            && (k in s'.t.dedup <==> k in s.t.dedup && s.t.dedup[k].expiresAt > now)
            && (k in s'.t.dedup ==> s'.t.dedup[k] == s.t.dedup[k])
    ensures s.t.destinations.Keys <= destinations.Keys && UniqueRoutes(routes) ==>
      Apply(s, Configure(destinations, routes, rules))
      == s.(t := s.t.(destinations := destinations, routes := routes, rules := rules))
  {
    hide DeleteDestination, DeleteSource, UniqueRoutes, Moved, Noted, Recording, FanOut, Enqueued, Recover;
  }
}
