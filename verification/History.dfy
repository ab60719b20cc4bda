/** A delivery row agrees with its attempt rows and with what happened, in every interleaving. */
module History {
  import opened Options
  import opened Store
  import opened Dispatch
  import opened Machine
  import opened Basics

  /** The attempt numbers of one delivery, in the order its rows were inserted. */
  function NumbersOf(attempts: seq<Attempt>, d: DeliveryId): seq<nat> {
    if attempts == [] then []
    else
      var rest, a := NumbersOf(attempts[..|attempts| - 1], d), attempts[|attempts| - 1];
      if a.delivery == d then rest + [a.number] else rest
  }

  function UpTo(n: nat): seq<nat> { if n == 0 then [] else UpTo(n - 1) + [n] }

  function LastOf(attempts: seq<Attempt>, d: DeliveryId): Option<Attempt> {
    if attempts == [] then None
    else
      var a := attempts[|attempts| - 1];
      if a.delivery == d then Some(a) else LastOf(attempts[..|attempts| - 1], d)
  }

  datatype Mark = Never | Fresh | Tried

  /** Whether something has been recorded for a delivery since it was created or last reset. */
  function MarkOf(log: seq<Entry>, d: DeliveryId): Mark {
    if log == [] then Never
    else
      match log[|log| - 1]
      case Created(x) => if x == d then Fresh else MarkOf(log[..|log| - 1], d)
      case Reset(x) => if x == d then Fresh else MarkOf(log[..|log| - 1], d)
      case Recorded(x, _) => if x == d then Tried else MarkOf(log[..|log| - 1], d)
      case _ => MarkOf(log[..|log| - 1], d)
  }

  ghost predicate Numbered(t: Tables, d: DeliveryId)
    requires d in t.deliveries
  {
    NumbersOf(t.attempts, d) == UpTo(t.deliveries[d].attemptCount)
  }

  ghost predicate StatusOk(t: Tables, log: seq<Entry>, d: DeliveryId)
    requires d in t.deliveries
  {
    var row, last := t.deliveries[d], LastOf(t.attempts, d);
    && MarkOf(log, d) == (if row.status == Pending then Fresh else Tried)
    && (row.status != Pending ==>
          && last.Some? && last.value.number == row.attemptCount
          && (row.status == Succeeded <==> last.value.code.Some? && IsSuccess(last.value.code.value))
          && (row.status == Failed ==> last.value.code.None? || IsRetryable(last.value.code.value)))
    && (row.status == DeadLettered ==> row.deadLetteredAt.Some?)
  }

  ghost predicate AllNumbered(t: Tables) { forall d :: d in t.deliveries ==> Numbered(t, d) }

  ghost predicate ResultsTruthful(t: Tables) {
    forall j :: 0 <= j < |t.jobs| && t.jobs[j].state.Running? && t.jobs[j].state.pc.Dispatched? ==>
      Truthful(t.jobs[j].state.pc.result)
  }

  ghost predicate AllStatusOk(s: State) { forall d :: d in s.t.deliveries ==> StatusOk(s.t, s.log, d) }

  // One row more

  lemma OneAttemptMore(attempts: seq<Attempt>, a: Attempt, d: DeliveryId)
    ensures NumbersOf(attempts + [a], d)
         == if a.delivery == d then NumbersOf(attempts, d) + [a.number] else NumbersOf(attempts, d)
    ensures LastOf(attempts + [a], d) == if a.delivery == d then Some(a) else LastOf(attempts, d)
  {
    assert (attempts + [a])[..|attempts|] == attempts;
  }

  lemma {:induction false} NoAttempts(attempts: seq<Attempt>, d: DeliveryId)
    requires forall i :: 0 <= i < |attempts| ==> attempts[i].delivery != d
    ensures NumbersOf(attempts, d) == [] && LastOf(attempts, d) == None
  {
    if attempts != [] { NoAttempts(attempts[..|attempts| - 1], d); }
  }

  lemma {:induction false} KeptHistory(attempts: seq<Attempt>, gone: set<DeliveryId>, d: DeliveryId)
    requires d !in gone
    ensures NumbersOf(KeepAttempts(attempts, gone), d) == NumbersOf(attempts, d)
    ensures LastOf(KeepAttempts(attempts, gone), d) == LastOf(attempts, d)
  {
    if attempts != [] {
      var init, a := attempts[..|attempts| - 1], attempts[|attempts| - 1];
      KeptHistory(init, gone, d);
      if a.delivery !in gone { OneAttemptMore(KeepAttempts(init, gone), a, d); }
    }
  }

  lemma {:induction false} NextIsFree(attempts: seq<Attempt>, d: DeliveryId, n: nat)
    requires NumbersOf(attempts, d) == UpTo(n)
    ensures !HasAttempt(attempts, d, n + 1)
  {
    if HasAttempt(attempts, d, n + 1) {
      var i :| 0 <= i < |attempts| && attempts[i].delivery == d && attempts[i].number == n + 1;
      NumberListed(attempts, d, i);
      UpToBound(n);
    }
  }

  lemma {:induction false} NumberListed(attempts: seq<Attempt>, d: DeliveryId, i: nat)
    requires i < |attempts| && attempts[i].delivery == d
    ensures attempts[i].number in NumbersOf(attempts, d)
  {
    if i < |attempts| - 1 { NumberListed(attempts[..|attempts| - 1], d, i); }
  }

  lemma {:induction false} UpToBound(n: nat)
    ensures forall k :: k in UpTo(n) <==> 1 <= k <= n
  {
    if n > 0 { UpToBound(n - 1); }
  }

  /** Entries that concern no row's marks. */
  ghost predicate Neutral(e: Entry) { e.FetchedJob? || e.SnoozedJob? || e.Sent? }

  lemma MarkOneMore(log: seq<Entry>, e: Entry, d: DeliveryId)
    ensures MarkOf(log + [e], d) ==
              match e
              case Created(x) => if x == d then Fresh else MarkOf(log, d)
              case Reset(x) => if x == d then Fresh else MarkOf(log, d)
              case Recorded(x, _) => if x == d then Tried else MarkOf(log, d)
              case _ => MarkOf(log, d)
  {
    assert (log + [e])[..|log|] == log;
  }

  lemma {:induction false} MarkBirths(log: seq<Entry>, from: DeliveryId, n: nat, d: DeliveryId)
    ensures MarkOf(log + Births(from, n), d) == if from <= d < from + n then Fresh else MarkOf(log, d)
  {
    if n == 0 {
      assert log + [] == log;
    } else {
      MarkBirths(log, from, n - 1, d);
      MarkOneMore(log + Births(from, n - 1), Created(from + n - 1), d);
      assert log + Births(from, n) == log + Births(from, n - 1) + [Created(from + n - 1)];
    }
  }

  lemma WorkerMarks(s: State, step: Step, d: DeliveryId)
    requires step.IsWorker()
    ensures MarkOf(Apply(s, step).log, d) == MarkOf(s.log, d)
    ensures Apply(s, step).t == s.t.(jobs := Apply(s, step).t.jobs)
  {
    hide Moved, MarkOf;
    var j := JobOf(step);
    if j < |s.t.jobs| {
      var noted := Noted(s.t, s.t.jobs[j], step);
      if noted == [] {
        assert s.log + noted == s.log;
      } else {
        assert noted == [noted[0]] && Neutral(noted[0]);
        MarkOneMore(s.log, noted[0], d);
      }
    }
  }

  // Attempt numbering: no hypothesis at all

  lemma NumberedStep(s: State, step: Step)
    requires Basic(s) && AllNumbered(s.t)
    ensures AllNumbered(Apply(s, step).t)
  {
    var s' := Apply(s, step);
    if step.IsWorker() {
      forall d | d in s'.t.deliveries ensures Numbered(s'.t, d) {
        WorkerMarks(s, step, d);
        assert Numbered(s.t, d);
      }
    } else if step.IngestEvent? || step.Replay? {
      NumberedEnqueue(s, step);
    } else if step.Record? || step.RecordUnacknowledged? {
      if step.j < |s.t.jobs| { NumberedRecording(s, step.j, step.now, step.Record?); }
    } else if step.DropDestination? || step.DropSource? {
      NumberedDelete(s, step);
    } else {
      forall d | d in s'.t.deliveries ensures Numbered(s'.t, d) { assert Numbered(s.t, d); }
    }
  }

  lemma NumberedEnqueue(s: State, step: Step)
    requires Basic(s) && AllNumbered(s.t) && (step.IngestEvent? || step.Replay?)
    ensures AllNumbered(Apply(s, step).t)
  {
    var mid, event, targets := EnqueueEffect(s, step);
    hide Apply, Births, ProperTargets;
    var t, t' := s.t, Apply(s, step).t;
    forall d | d in t'.deliveries ensures Numbered(t', d) {
      if d in t.deliveries {
        assert Numbered(t, d);
      } else {
        FannedRow(mid, t', event, targets, d);
        NoAttempts(t.attempts, d);
      }
    }
  }

  /** The row that a recording counts up stays numbered, and so do the others. */
  lemma OneMoreNumbered(t: Tables, t': Tables, a: Attempt, d: DeliveryId)
    requires d in t.deliveries && d in t'.deliveries && Numbered(t, d) && t'.attempts == t.attempts + [a]
    requires if a.delivery == d then a.number == t'.deliveries[d].attemptCount == t.deliveries[d].attemptCount + 1
             else t'.deliveries[d].attemptCount == t.deliveries[d].attemptCount
    ensures Numbered(t', d)
  {
    hide NumbersOf, LastOf, UpTo;
    OneAttemptMore(t.attempts, a, d);
    UpToNext(t.deliveries[d].attemptCount);
  }

  lemma NumberedRecording(s: State, j: JobId, now: int, ack: bool)
    requires AllNumbered(s.t) && j < |s.t.jobs|
    ensures AllNumbered(Recording(s, j, now, ack).t)
  {
    RecordingEffect(s, j, now, ack);
    hide Recording, NumbersOf, UpTo, DeliveryStatus, ReturnFor, HasAttempt;
    var t, t', job := s.t, Recording(s, j, now, ack).t, s.t.jobs[j];
    if Records(s, j) {
      var a := Attempt(job.delivery, t.deliveries[job.delivery].attemptCount + 1, job.state.pc.result.code);
      forall d | d in t'.deliveries ensures Numbered(t', d) { OneMoreNumbered(t, t', a, d); }
    } else {
      forall d | d in t'.deliveries ensures Numbered(t', d) { assert Numbered(t, d); }
    }
  }

  lemma UpToNext(n: nat)
    ensures UpTo(n + 1) == UpTo(n) + [n + 1]
  {}

  lemma NumberedDelete(s: State, step: Step)
    requires Basic(s) && AllNumbered(s.t) && (step.DropDestination? || step.DropSource?)
    ensures AllNumbered(Apply(s, step).t)
  {
    var gone := DeleteEffect(s, step);
    hide Apply;
    var t' := Apply(s, step).t;
    forall d | d in t'.deliveries ensures Numbered(t', d) {
      KeptHistory(s.t.attempts, gone, d);
      assert Numbered(s.t, d);
    }
  }

  /** In every reachable state, failures and any interleaving included, a delivery's attempt rows are numbered
      1, 2, ..., attempt_count in the order they were inserted: no gap, no repeat. */
  lemma {:induction false} AttemptsAreNumbered(steps: seq<Step>)
    ensures AllNumbered(Run(steps).t)
  {
    if steps != [] {
      var init := steps[..|steps| - 1];
      AttemptsAreNumbered(init);
      BasicHolds(init);
      NumberedStep(Run(init), steps[|steps| - 1]);
    }
  }

  /** The unique constraint on (delivery, number) never fires: recording fails only if the row is gone. */
  lemma ConstraintNeverFires(steps: seq<Step>, d: DeliveryId, status: Status, code: Option<int>, now: int)
    ensures RecordAttempt(Run(steps).t, d, status, code, now).Some? <==> d in Run(steps).t.deliveries
  {
    AttemptsAreNumbered(steps);
    var t := Run(steps).t;
    if d in t.deliveries {
      assert Numbered(t, d);
      NextIsFree(t.attempts, d, t.deliveries[d].attemptCount);
    }
  }

  // Status against history, for codes whose stored form tells the outcome

  ghost predicate CodesTell(steps: seq<Step>) {
    forall i :: 0 <= i < |steps| && steps[i].Dispatch? ==> CodeTells(steps[i].x)
  }

  lemma TruthfulWorker(s: State, step: Step)
    requires step.IsWorker() && ResultsTruthful(s.t) && (step.Dispatch? ==> CodeTells(step.x))
    ensures ResultsTruthful(Apply(s, step).t)
  {
    hide Noted, Classify, Truthful, CodeTells;
    if step.Dispatch? { TruthfulIff(step.x); }
    assert Truthful(AttemptResult(None, false, false)) by { NoCodeTruthful(); }
  }

  lemma NoCodeTruthful()
    ensures Truthful(AttemptResult(None, false, false))
  {}

  lemma TruthfulStep(s: State, step: Step)
    requires Basic(s) && ResultsTruthful(s.t) && (step.Dispatch? ==> CodeTells(step.x))
    ensures ResultsTruthful(Apply(s, step).t)
  {
    hide Truthful, CodeTells, Moved, Noted;
    var s' := Apply(s, step);
    if step.IsWorker() {
      TruthfulWorker(s, step);
    } else if step.IngestEvent? || step.Replay? {
      var mid, event, targets := EnqueueEffect(s, step);
      hide Apply, Births, ProperTargets;
      forall j | |s.t.jobs| <= j < |s'.t.jobs| ensures s'.t.jobs[j].state.Available? {
        FannedJob(mid, s'.t, event, targets, j);
      }
    } else if step.Record? || step.RecordUnacknowledged? {
      if step.j < |s.t.jobs| {
        RecordingEffect(s, step.j, step.now, step.Record?);
        hide Recording, HasAttempt;
      }
    } else if step.DropDestination? || step.DropSource? {
      var gone := DeleteEffect(s, step);
      hide Apply;
    }
  }

  lemma StatusStep(s: State, step: Step)
    requires Basic(s) && AllNumbered(s.t) && AllStatusOk(s) && ResultsTruthful(s.t)
    ensures AllStatusOk(Apply(s, step))
  {
    var s' := Apply(s, step);
    if step.IsWorker() {
      forall d | d in s'.t.deliveries ensures StatusOk(s'.t, s'.log, d) {
        WorkerMarks(s, step, d);
        assert StatusOk(s.t, s.log, d);
      }
    } else if step.IngestEvent? || step.Replay? {
      StatusEnqueue(s, step);
    } else if step.Record? || step.RecordUnacknowledged? {
      if step.j < |s.t.jobs| { StatusRecording(s, step.j, step.now, step.Record?); }
    } else if step.RecoverCommit? {
      StatusRecover(s, step.r);
    } else if step.DropDestination? || step.DropSource? {
      StatusDelete(s, step);
    } else {
      forall d | d in s'.t.deliveries ensures StatusOk(s'.t, s'.log, d) { assert StatusOk(s.t, s.log, d); }
    }
  }

  lemma StatusEnqueue(s: State, step: Step)
    requires Basic(s) && AllStatusOk(s) && (step.IngestEvent? || step.Replay?)
    ensures AllStatusOk(Apply(s, step))
  {
    var mid, event, targets := EnqueueEffect(s, step);
    hide Apply, Births, ProperTargets, MarkOf;
    var s' := Apply(s, step);
    var t, t' := s.t, s'.t;
    forall d | d in t'.deliveries ensures StatusOk(t', s'.log, d) {
      MarkBirths(s.log, t.nextDelivery, |targets|, d);
      if d in t.deliveries {
        assert StatusOk(t, s.log, d);
      } else {
        FannedRow(mid, t', event, targets, d);
      }
    }
  }

  lemma StatusRecording(s: State, j: JobId, now: int, ack: bool)
    requires Basic(s) && AllStatusOk(s) && ResultsTruthful(s.t) && j < |s.t.jobs|
    ensures AllStatusOk(Recording(s, j, now, ack))
  {
    RecordingEffect(s, j, now, ack);
    hide Recording, MarkOf, LastOf, ReturnFor, HasAttempt;
    var s' := Recording(s, j, now, ack);
    forall d | d in s'.t.deliveries ensures StatusOk(s'.t, s'.log, d) {
      assert StatusOk(s.t, s.log, d);
      if Records(s, j) {
        var row, job := s.t.deliveries[s.t.jobs[j].delivery], s.t.jobs[j];
        OneAttemptMore(s.t.attempts, Attempt(job.delivery, row.attemptCount + 1, job.state.pc.result.code), d);
        MarkOneMore(s.log, Recorded(job.delivery, j), d);
        assert Truthful(job.state.pc.result);
      }
    }
  }

  lemma StatusRecover(s: State, r: nat)
    requires AllStatusOk(s)
    ensures AllStatusOk(Apply(s, RecoverCommit(r)))
  {
    hide MarkOf, LastOf;
    var s' := Apply(s, RecoverCommit(r));
    forall d | d in s'.t.deliveries ensures StatusOk(s'.t, s'.log, d) {
      assert StatusOk(s.t, s.log, d);
      if r < |s.recoveries| { MarkOneMore(s.log, Reset(s.recoveries[r].delivery), d); }
    }
  }

  lemma StatusDelete(s: State, step: Step)
    requires Basic(s) && AllStatusOk(s) && (step.DropDestination? || step.DropSource?)
    ensures AllStatusOk(Apply(s, step))
  {
    var gone := DeleteEffect(s, step);
    hide Apply, LastOf, MarkOf;
    var s' := Apply(s, step);
    forall d | d in s'.t.deliveries ensures StatusOk(s'.t, s'.log, d) {
      KeptHistory(s.t.attempts, gone, d);
      assert StatusOk(s.t, s.log, d);
    }
  }

  /** Status agrees with history in every run, failures included, whose codes tell the outcome: pending exactly when
      nothing was recorded since creation or the last reset, otherwise decided by the last attempt's code. */
  lemma {:induction false} StatusAgreesWithHistory(steps: seq<Step>)
    requires CodesTell(steps)
    ensures AllStatusOk(Run(steps)) && ResultsTruthful(Run(steps).t)
  {
    if steps != [] {
      var init, step := steps[..|steps| - 1], steps[|steps| - 1];
      assert CodesTell(init) && steps[|steps| - 1] == step;
      StatusAgreesWithHistory(init);
      BasicHolds(init);
      AttemptsAreNumbered(init);
      TruthfulStep(Run(init), step);
      StatusStep(Run(init), step);
    }
  }
}
