/** Attempt budgets, failures and any interleaving included: snoozes are free, every other run costs one. */
module Budget {
  import opened Options
  import opened Store
  import opened Dispatch
  import opened Machine
  import opened Basics

  /** What history says of one job. */
  datatype Tally = Tally(fetched: nat, snoozed: nat, sent: nat, recorded: nat)

  function Plus(x: Tally, e: Entry, j: JobId): Tally {
    match e
    case FetchedJob(k) => if k == j then x.(fetched := x.fetched + 1) else x
    case SnoozedJob(k) => if k == j then x.(snoozed := x.snoozed + 1) else x
    case Sent(_, k) => if k == j then x.(sent := x.sent + 1) else x
    case Recorded(_, k) => if k == j then x.(recorded := x.recorded + 1) else x
    case _ => x
  }

  function TallyOf(log: seq<Entry>, j: JobId): Tally {
    if log == [] then Tally(0, 0, 0, 0) else Plus(TallyOf(log[..|log| - 1], j), log[|log| - 1], j)
  }

  /** The run in progress has not recorded, or was snoozed. */
  predicate Unspent(job: Job) {
    job.state.Running? && (!job.state.pc.Returned? || job.state.pc.out == Snooze)
  }

  predicate Unsent(job: Job) { Unspent(job) && !job.state.pc.Dispatched? }

  /** Attempts a job has used up for good. */
  function Spent(job: Job): int { job.attempt - (if Unspent(job) then 1 else 0) }

  ghost predicate TallyOk(job: Job, x: Tally) {
    && job.maxAttempts == (if job.policy.maxAttempts < 1 then 1 else job.policy.maxAttempts)
    && job.attempt == x.fetched - x.snoozed
    && x.recorded <= Spent(job)
    && x.sent <= job.attempt - (if Unsent(job) then 1 else 0)
  }

  ghost predicate LogOk(s: State) {
    forall j :: j >= |s.t.jobs| ==> TallyOf(s.log, j) == Tally(0, 0, 0, 0)
  }

  ghost predicate AllTallies(s: State) {
    forall j :: 0 <= j < |s.t.jobs| ==> TallyOk(s.t.jobs[j], TallyOf(s.log, j))
  }

  function SpentOn(jobs: seq<Job>, d: DeliveryId): int {
    if jobs == [] then 0
    else SpentOn(jobs[..|jobs| - 1], d) + (if jobs[|jobs| - 1].delivery == d then Spent(jobs[|jobs| - 1]) else 0)
  }

  function BudgetOn(jobs: seq<Job>, d: DeliveryId): int {
    if jobs == [] then 0
    else BudgetOn(jobs[..|jobs| - 1], d) + (if jobs[|jobs| - 1].delivery == d then jobs[|jobs| - 1].maxAttempts else 0)
  }

  ghost predicate Covered(s: State) {
    forall d :: d in s.t.deliveries ==> s.t.deliveries[d].attemptCount <= SpentOn(s.t.jobs, d)
  }

  lemma TallyOneMore(log: seq<Entry>, e: Entry, j: JobId)
    ensures TallyOf(log + [e], j) == Plus(TallyOf(log, j), e, j)
  {
    assert (log + [e])[..|log|] == log;
  }

  lemma {:induction false} TallyBirths(log: seq<Entry>, from: DeliveryId, n: nat, j: JobId)
    ensures TallyOf(log + Births(from, n), j) == TallyOf(log, j)
  {
    if n == 0 {
      assert log + [] == log;
    } else {
      TallyBirths(log, from, n - 1, j);
      TallyOneMore(log + Births(from, n - 1), Created(from + n - 1), j);
      assert log + Births(from, n) == log + Births(from, n - 1) + [Created(from + n - 1)];
    }
  }

  /** The tally of a job after the entries of one worker step. */
  function After(x: Tally, entries: seq<Entry>, j: JobId): Tally {
    if entries == [] then x else Plus(x, entries[0], j)
  }

  lemma TallyNoted(s: State, step: Step, j: JobId)
    requires step.IsWorker() && JobOf(step) < |s.t.jobs|
    ensures var noted := Noted(s.t, s.t.jobs[JobOf(step)], step);
            && TallyOf(s.log + noted, j) == After(TallyOf(s.log, j), noted, j)
            && (j != JobOf(step) ==> TallyOf(s.log + noted, j) == TallyOf(s.log, j))
  {
    hide TallyOf;
    var noted := Noted(s.t, s.t.jobs[JobOf(step)], step);
    if noted == [] {
      assert s.log + noted == s.log;
    } else {
      assert noted == [noted[0]];
      TallyOneMore(s.log, noted[0], j);
    }
  }

  /** Every worker step keeps a job's account and never gives back what was spent. */
  lemma MovedTally(t: Tables, job: Job, step: Step, x: Tally)
    requires step.IsWorker() && JobOk(job) && TallyOk(job, x)
    ensures TallyOk(Moved(t, job, step), After(x, Noted(t, job, step), JobOf(step)))
    ensures Spent(Moved(t, job, step)) >= Spent(job) && Moved(t, job, step).delivery == job.delivery
  {}

  ghost predicate Growing(jobs: seq<Job>, jobs': seq<Job>) {
    && |jobs| <= |jobs'|
    && (forall k :: 0 <= k < |jobs| ==> jobs'[k].delivery == jobs[k].delivery && Spent(jobs[k]) <= Spent(jobs'[k]))
    && (forall k :: |jobs| <= k < |jobs'| ==> Spent(jobs'[k]) >= 0)
  }

  lemma {:induction false} SpentGrows(jobs: seq<Job>, jobs': seq<Job>, d: DeliveryId)
    requires Growing(jobs, jobs')
    ensures SpentOn(jobs, d) <= SpentOn(jobs', d)
    decreases |jobs'|
  {
    if jobs' != [] {
      var init' := jobs'[..|jobs'| - 1];
      if |jobs'| > |jobs| {
        SpentGrows(jobs, init', d);
      } else {
        SpentGrows(jobs[..|jobs| - 1], init', d);
      }
    }
  }

  /** One job that spends one more raises its delivery's total by one. */
  lemma {:induction false} SpentGrowsByOne(jobs: seq<Job>, jobs': seq<Job>, j: JobId)
    requires Growing(jobs, jobs') && j < |jobs| && Spent(jobs'[j]) >= Spent(jobs[j]) + 1
    ensures SpentOn(jobs, jobs[j].delivery) + 1 <= SpentOn(jobs', jobs[j].delivery)
    decreases |jobs'|
  {
    var init' := jobs'[..|jobs'| - 1];
    if |jobs'| > |jobs| {
      SpentGrowsByOne(jobs, init', j);
    } else if j == |jobs| - 1 {
      SpentGrows(jobs[..|jobs| - 1], init', jobs[j].delivery);
    } else {
      SpentGrowsByOne(jobs[..|jobs| - 1], init', j);
    }
  }

  lemma {:induction false} SpentWithinBudget(jobs: seq<Job>, d: DeliveryId)
    requires forall j :: 0 <= j < |jobs| ==> JobOk(jobs[j])
    ensures 0 <= SpentOn(jobs, d) <= BudgetOn(jobs, d)
  {
    if jobs != [] { SpentWithinBudget(jobs[..|jobs| - 1], d); }
  }

  ghost predicate Accounts(s: State) { LogOk(s) && AllTallies(s) && Covered(s) }

  lemma AccountsWorker(s: State, step: Step)
    requires Basic(s) && Accounts(s) && step.IsWorker()
    ensures Accounts(Apply(s, step))
  {
    hide Moved, Noted, TallyOf, After, TallyOk, Spent, JobOk;
    var j := JobOf(step);
    if j < |s.t.jobs| {
      var s' := Apply(s, step);
      MovedTally(s.t, s.t.jobs[j], step, TallyOf(s.log, j));
      forall k: JobId ensures k != j ==> TallyOf(s'.log, k) == TallyOf(s.log, k) { TallyNoted(s, step, k); }
      TallyNoted(s, step, j);
      forall d | d in s'.t.deliveries ensures s'.t.deliveries[d].attemptCount <= SpentOn(s'.t.jobs, d) {
        SpentGrows(s.t.jobs, s'.t.jobs, d);
      }
    }
  }

  lemma AccountsRecording(s: State, j: JobId, now: int, ack: bool)
    requires Basic(s) && Accounts(s) && j < |s.t.jobs|
    ensures Accounts(Recording(s, j, now, ack))
  {
    RecordingEffect(s, j, now, ack);
    hide Recording, TallyOf, HasAttempt, DeliveryStatus, SpentOn;
    var s' := Recording(s, j, now, ack);
    var job := s.t.jobs[j];
    if Records(s, j) {
      forall k: JobId ensures TallyOf(s'.log, k) == Plus(TallyOf(s.log, k), Recorded(job.delivery, j), k) {
        TallyOneMore(s.log, Recorded(job.delivery, j), k);
      }
      assert TallyOk(job, TallyOf(s.log, j));
      SpentGrowsByOne(s.t.jobs, s'.t.jobs, j);
    }
    assert Growing(s.t.jobs, s'.t.jobs);
    forall d | d in s'.t.deliveries ensures s'.t.deliveries[d].attemptCount <= SpentOn(s'.t.jobs, d) {
      SpentGrows(s.t.jobs, s'.t.jobs, d);
    }
  }

  lemma FannedTallies(s: State, s': State, mid: Tables, event: EventId, targets: seq<Target>)
    requires LogOk(s) && AllTallies(s) && Fans(s, s', mid, event, targets)
    ensures LogOk(s') && AllTallies(s')
  {
    hide Births, ProperTargets, TallyOf, TallyOk;
    forall k: JobId ensures TallyOf(s'.log, k) == TallyOf(s.log, k) {
      TallyBirths(s.log, s.t.nextDelivery, |targets|, k);
    }
    forall k | 0 <= k < |s'.t.jobs| ensures TallyOk(s'.t.jobs[k], TallyOf(s'.log, k)) {
      if k >= |s.t.jobs| {
        FannedJob(mid, s'.t, event, targets, k);
        NewJobTally(s.t.nextDelivery + k - |s.t.jobs|, targets[k - |s.t.jobs|].policy);
      }
    }
  }

  lemma NewJobTally(d: DeliveryId, policy: Policy)
    ensures TallyOk(NewJob(d, policy), Tally(0, 0, 0, 0)) && Spent(NewJob(d, policy)) == 0
  {}

  lemma FannedCovered(s: State, s': State, mid: Tables, event: EventId, targets: seq<Target>)
    requires Basic(s) && Covered(s) && Fans(s, s', mid, event, targets)
    ensures Covered(s')
  {
    hide Births, ProperTargets, SpentOn, Spent, KeysOk;
    var t, t' := s.t, s'.t;
    forall k | |t.jobs| <= k < |t'.jobs| ensures Spent(t'.jobs[k]) == 0 {
      FannedJob(mid, t', event, targets, k);
      NewJobTally(t.nextDelivery + k - |t.jobs|, targets[k - |t.jobs|].policy);
    }
    forall d | d in t'.deliveries ensures t'.deliveries[d].attemptCount <= SpentOn(t'.jobs, d) {
      SpentGrows(t.jobs, t'.jobs, d);
      if d !in t.deliveries {
        FannedRow(mid, t', event, targets, d);
        SpentWithinBudget(t.jobs, d);
      }
    }
  }

  lemma AccountsEnqueue(s: State, step: Step)
    requires Basic(s) && Accounts(s) && (step.IngestEvent? || step.Replay?)
    ensures Accounts(Apply(s, step))
  {
    var mid, event, targets := EnqueueEffect(s, step);
    FannedTallies(s, Apply(s, step), mid, event, targets);
    FannedCovered(s, Apply(s, step), mid, event, targets);
  }

  lemma AccountsRecover(s: State, r: nat)
    requires Basic(s) && Accounts(s)
    ensures Accounts(Apply(s, RecoverCommit(r)))
  {
    hide TallyOf, SpentOn;
    var s' := Apply(s, RecoverCommit(r));
    if r < |s.recoveries| && s.recoveries[r].stage.Armed? {
      forall k: JobId ensures TallyOf(s'.log, k) == TallyOf(s.log, k) {
        TallyOneMore(s.log, Reset(s.recoveries[r].delivery), k);
      }
      forall d | d in s'.t.deliveries ensures s'.t.deliveries[d].attemptCount <= SpentOn(s'.t.jobs, d) {
        SpentGrows(s.t.jobs, s'.t.jobs, d);
      }
    }
  }

  lemma AccountsStep(s: State, step: Step)
    requires Basic(s) && Accounts(s)
    ensures Accounts(Apply(s, step))
  {
    hide TallyOf, SpentOn;
    if step.IsWorker() {
      AccountsWorker(s, step);
    } else if step.IngestEvent? || step.Replay? {
      AccountsEnqueue(s, step);
    } else if step.Record? || step.RecordUnacknowledged? {
      if step.j < |s.t.jobs| { AccountsRecording(s, step.j, step.now, step.Record?); }
    } else if step.RecoverCommit? {
      AccountsRecover(s, step.r);
    } else if step.DropDestination? || step.DropSource? {
      var gone := DeleteEffect(s, step);
    }
  }

  lemma {:induction false} AccountsHold(steps: seq<Step>)
    ensures Accounts(Run(steps))
  {
    if steps != [] {
      var init := steps[..|steps| - 1];
      AccountsHold(init);
      BasicHolds(init);
      AccountsStep(Run(init), steps[|steps| - 1]);
    }
  }

  /** A job makes and records at most max(1, max_attempts) attempts, however many snoozes intervene: its attempt
      counter is the number of runs that were not snoozed and never exceeds that budget. */
  lemma JobBudget(steps: seq<Step>, j: JobId)
    requires j < |Run(steps).t.jobs|
    ensures var job := Run(steps).t.jobs[j]; var x := TallyOf(Run(steps).log, j);
            var budget := if job.policy.maxAttempts < 1 then 1 else job.policy.maxAttempts;
            && job.attempt == x.fetched - x.snoozed <= budget
            && x.recorded <= budget && x.sent <= budget
            && (job.state.Available? || job.state.Scheduled? || job.state.Retryable? ==> job.attempt < budget)
  {
    AccountsHold(steps);
    BasicHolds(steps);
    var s := Run(steps);
    assert TallyOk(s.t.jobs[j], TallyOf(s.log, j)) && JobOk(s.t.jobs[j]);
  }

  /** A delivery's attempt count never exceeds the budgets of all jobs ever enqueued for it. */
  lemma DeliveryBudget(steps: seq<Step>, d: DeliveryId)
    requires d in Run(steps).t.deliveries
    ensures Run(steps).t.deliveries[d].attemptCount <= BudgetOn(Run(steps).t.jobs, d)
  {
    AccountsHold(steps);
    BasicHolds(steps);
    SpentWithinBudget(Run(steps).t.jobs, d);
  }
}
