/** Bulk replay: one transaction per matched event, with anything else running in between, and a final count. */
module Replay {
  import opened Options
  import opened Store
  import opened Dispatch
  import opened Machine
  import opened Traces
  import opened Basics
  import Ingest

  datatype ReplayStatus = InProgress | CompletedReplay | FailedReplay

  /** The replays row; the counts are int32 columns. */
  datatype ReplayRow = ReplayRow(status: ReplayStatus, matched: Option<int>, requeued: Option<int>)

  /** An event as the replay query returned it. */
  datatype Matched = Matched(event: EventId, source: SourceId)

  /** Once listed, an event keeps its source until it is gone for good. */
  ghost predicate Listed(t: Tables, m: Matched) {
    && m.event < t.nextEvent
    && (m.event in t.events ==> t.events[m.event].source == m.source)
  }

  lemma ListedStep(s: State, step: Step, m: Matched)
    requires Basic(s) && Listed(s.t, m)
    ensures Listed(Apply(s, step).t, m)
  {
    hide ProperTargets, Births, JobsOk, RecoveriesOk, FannedOut, Moved, Noted, UniqueRoutes, HasAttempt;
    hide FanOut, RouteTargets, Ingest.Committed, KeepRoutes, KeepAttempts, KeepRules;
    if step.IngestEvent? {
      Ingest.IngestComplete(s.t, step.req, step.now);
    } else if step.Replay? {
      if step.event in s.t.events {
        Ingest.FanOutFrame(s.t, step.event, RouteTargets(s.t.routes, s.t.destinations, s.t.events[step.event].source));
      }
    } else if step.Record? || step.RecordUnacknowledged? {
      if step.j < |s.t.jobs| { RecordingEffect(s, step.j, step.now, step.Record?); }
    }
  }

  /** Delivery ids only grow. */
  lemma IdsGrow(s: State, step: Step)
    requires Basic(s)
    ensures s.t.nextDelivery <= Apply(s, step).t.nextDelivery
  {
    hide ProperTargets, Births, JobsOk, RecoveriesOk;
    if step.IngestEvent? || step.Replay? {
      var mid, event, targets := EnqueueEffect(s, step);
    } else if step.Record? || step.RecordUnacknowledged? {
      if step.j < |s.t.jobs| { RecordingEffect(s, step.j, step.now, step.Record?); }
    }
  }

  lemma {:induction false} ListedLater(s: State, steps: seq<Step>, ms: seq<Matched>)
    requires Basic(s) && forall i :: 0 <= i < |ms| ==> Listed(s.t, ms[i])
    ensures Basic(Exec(s, steps)) && s.t.nextDelivery <= Exec(s, steps).t.nextDelivery
    ensures forall i :: 0 <= i < |ms| ==> Listed(Exec(s, steps).t, ms[i])
  {
    if steps != [] {
      var init, step := steps[..|steps| - 1], steps[|steps| - 1];
      ListedLater(s, init, ms);
      var s1 := Exec(s, init);
      BasicStep(s1, step);
      IdsGrow(s1, step);
      forall i | 0 <= i < |ms| ensures Listed(Apply(s1, step).t, ms[i]) { ListedStep(s1, step, ms[i]); }
    }
  }

  /** The enabled targets of a matched event at the moment its transaction runs. */
  function TargetsNow(t: Tables, m: Matched): seq<Target> {
    RouteTargets(t.routes, t.destinations, m.source)
  }

  /** The ids from..from+n-1. */
  function Ids(from: DeliveryId, n: nat): set<DeliveryId> {
    if n == 0 then {} else Ids(from, n - 1) + {from + n - 1}
  }

  lemma {:induction false} IdsMeaning(from: DeliveryId, n: nat)
    ensures |Ids(from, n)| == n && forall d :: d in Ids(from, n) <==> from <= d < from + n
  {
    if n > 0 { IdsMeaning(from, n - 1); }
  }

  /** One event's transaction: the tables before and after, and how many deliveries it made. */
  datatype Commit = Commit(before: Tables, after: Tables, made: nat)

  /** The transaction fanned the event out to all targets enabled at that moment, one delivery and job each. */
  ghost predicate FansOut(c: Commit, m: Matched) {
    exists targets :: FansOutTo(c, m, targets)
  }

  /** These are the existing destinations of the source's enabled routes, each once. */
  ghost predicate FansOutTo(c: Commit, m: Matched, targets: seq<Target>) {
    && FannedOut(c.before, c.after, m.event, targets) && c.made == |targets|
    && ProperTargets(targets, c.before.destinations)
    && forall dest :: Hits(targets, dest) <==> Routed(c.before.routes, m.source, dest) && dest in c.before.destinations
  }

  lemma FansOutNow(c: Commit, m: Matched)
    requires UniqueRoutes(c.before.routes) && c.made == |TargetsNow(c.before, m)|
    requires FannedOut(c.before, c.after, m.event, TargetsNow(c.before, m))
    ensures FansOut(c, m)
  {
    hide FannedOut, RouteTargets;
    var targets := TargetsNow(c.before, m);
    RouteTargetsMeaning(c.before.routes, c.before.destinations, m.source, 0);
    forall dest
      ensures Hits(targets, dest) <==> Routed(c.before.routes, m.source, dest) && dest in c.before.destinations
    {
      RouteTargetsMeaning(c.before.routes, c.before.destinations, m.source, dest);
    }
    assert FansOutTo(c, m, targets);
  }

  function Replays(ms: seq<Matched>): seq<Step> { seq(|ms|, i requires 0 <= i < |ms| => Machine.Replay(ms[i].event)) }

  /** What has happened when the first n events are replayed: the replays with others' steps before each, and, if that
      is not all, the others' steps before the one that failed, and that one too if only its reply was lost. */
  function Trace(ms: seq<Matched>, others: nat -> seq<Step>, n: nat, unanswered: bool): seq<Step>
    requires n <= |ms|
  {
    if n == |ms| then Interleave(Replays(ms), others, n)
    else if unanswered then Interleave(Replays(ms), others, n + 1)
    else Interleave(Replays(ms), others, n) + others(n)
  }

  /** The i-th transaction of a replay: the tables around the i-th replay step of the run, fanned out in between. */
  ghost predicate CommitOf(s: State, ms: seq<Matched>, others: nat -> seq<Step>, i: nat, c: Commit)
    requires i < |ms|
  {
    && c.before == Exec(s, Interleave(Replays(ms), others, i) + others(i)).t
    && c.after == Exec(s, Interleave(Replays(ms), others, i + 1)).t
    && FansOut(c, ms[i])
  }

  lemma CommitAt(s: State, ms: seq<Matched>, others: nat -> seq<Step>, i: nat, c: Commit)
    requires i < |ms|
    ensures && c.before == Exec(s, Interleave(Replays(ms), others, i) + others(i)).t
            && c.after == Exec(s, Interleave(Replays(ms), others, i + 1)).t
            && FansOut(c, ms[i])
            ==> CommitOf(s, ms, others, i, c)
  {}

  /** All deliveries a list of transactions created. */
  ghost function CreatedBy(commits: seq<Commit>): set<DeliveryId> {
    if commits == [] then {}
    else
      var c := commits[|commits| - 1];
      CreatedBy(commits[..|commits| - 1]) + Ids(c.before.nextDelivery, c.made)
  }

  lemma CreatedOneMore(commits: seq<Commit>, c: Commit, next: DeliveryId)
    requires (forall d :: d in CreatedBy(commits) ==> d < next) && next <= c.before.nextDelivery
    ensures |CreatedBy(commits + [c])| == |CreatedBy(commits)| + c.made
    ensures forall d :: d in CreatedBy(commits + [c]) ==>
      d in CreatedBy(commits) || c.before.nextDelivery <= d < c.before.nextDelivery + c.made
  {
    assert (commits + [c])[..|commits|] == commits;
    IdsMeaning(c.before.nextDelivery, c.made);
    assert CreatedBy(commits) !! Ids(c.before.nextDelivery, c.made);
  }

  lemma CreatedByNone()
    ensures CreatedBy([]) == {}
  {}

  lemma FansNext(c: Commit, m: Matched)
    requires FansOut(c, m)
    ensures c.after.nextDelivery == c.before.nextDelivery + c.made
  {}

  /** The worker's view: the shared state and its own row. */
  class ReplayWorker {
    var s: State
    var row: ReplayRow

    constructor (state: State)
      ensures s == state && row == ReplayRow(InProgress, None, None)
    {
      s, row := state, ReplayRow(InProgress, None, None);
    }

    /** One event in its own transaction: everything or nothing. It reports an error after a commit only if the reply
        was lost. */
    method ReplayOne(m: Matched, fault: Option<nat>, lost: bool) returns (r: Result<nat>, ghost made: Option<nat>)
      requires Basic(s) && Listed(s.t, m)
      modifies this`s
      ensures Basic(s)
      ensures made.None? ==> s == old(s)
      ensures made.Some? ==>
        s == Apply(old(s), Machine.Replay(m.event)) && FansOut(Commit(old(s).t, s.t, made.value), m)
      ensures r.Ok? ==> made == Some(r.value)
      ensures r.Err? ==> made.None? || lost
      ensures made.None? ==> fault.Some? || m.event !in old(s).t.events
    {
      var targets := TargetsNow(s.t, m);
      var tx := new Ingest.Transaction(s.t, fault, lost);
      made := None;
      if m.event !in s.t.events {
        // the insert would violate the foreign key on events
        if targets != [] { return Err, None; }
        NothingFanned(s.t, m.event);
      } else {
        r := tx.EnqueueDeliveriesTo(m.event, targets);
        if r.Err? { return; }
        FanOutShape(s.t, m.event, targets);
        EnqueueBasic(s, Machine.Replay(m.event));
      }
      var committed, ok := tx.Commit();
      if !committed { return Err, None; }
      if m.event in s.t.events { s := Enqueued(s, tx.t); }
      made := Some(|targets|);
      FansOutNow(Commit(old(s).t, s.t, |targets|), m);
      r := if ok then Ok(|targets|) else Err;
    }

    /** FinishReplay, which may itself fail. */
    method Finish(status: ReplayStatus, matched: nat, requeued: nat, fails: bool)
      modifies this`row
      ensures row == if fails then old(row)
                     else ReplayRow(status, Some(ToInt32(matched)), Some(ToInt32(requeued)))
    {
      if !fails { row := ReplayRow(status, Some(ToInt32(matched)), Some(ToInt32(requeued))); }
    }

    /** The whole replay. `listing` is None when the filter or the query fails; `others` happens before each event's
        transaction, `faults` decides whether it fails and `lost` whether the reply to its commit is lost. */
    method Work(listing: Option<seq<Matched>>, others: nat -> seq<Step>, faults: nat -> Option<nat>, lost: nat -> bool,
                finishFails: bool)
      returns (ghost commits: seq<Commit>, ghost unanswered: Option<Commit>)
      requires Basic(s)
      requires listing.Some? ==> forall i :: 0 <= i < |listing.value| ==> Listed(s.t, listing.value[i])
      modifies this
      ensures Basic(s)
      ensures listing.None? ==> commits == [] && unanswered.None? && s == old(s)
      // the state is that of the interleaved run: one replay step for each event up to the end or the failing one
      ensures listing.Some? ==>
        && |commits| <= |listing.value|
        && (unanswered.Some? ==> |commits| < |listing.value| && lost(|commits|))
        && s == Exec(old(s), Trace(listing.value, others, |commits|, unanswered.Some?))
        && (|commits| < |listing.value| && unanswered.None? ==>
              faults(|commits|).Some? || listing.value[|commits|].event !in s.t.events)
      // each of those events contributed all its enabled targets, at its own moment of that run
      ensures forall i :: 0 <= i < |commits| ==> CommitOf(old(s), listing.value, others, i, commits[i])
      ensures unanswered.Some? ==> CommitOf(old(s), listing.value, others, |commits|, unanswered.value)
      // the count is the number of deliveries committed, except for a last commit whose reply was lost
      ensures !finishFails ==>
        && row.requeued == Some(ToInt32(|CreatedBy(commits)|))
        && row.matched == Some(ToInt32(if listing.None? then 0 else |listing.value|))
        && row.status == (if listing.Some? && |commits| == |listing.value| then CompletedReplay else FailedReplay)
      ensures finishFails ==> row == old(row)
      ensures forall d :: d in CreatedBy(commits) ==> old(s).t.nextDelivery <= d < s.t.nextDelivery
    {
      hide Basic, Apply, Exec, FansOut, CommitOf, ToInt32, CreatedBy, Listed, Interleave;
      commits, unanswered := [], None;
      assert CreatedBy(commits) == {} by { CreatedByNone(); }
      if listing.None? {
        Finish(FailedReplay, 0, 0, finishFails);
        return;
      }
      var events := listing.value;
      ghost var own := Replays(events);
      var requeued: nat := 0;
      InterleaveNone(s, own, others);
      for i := 0 to |events|
        invariant Basic(s) && old(s).t.nextDelivery <= s.t.nextDelivery && row == old(row)
        invariant s == Exec(old(s), Interleave(own, others, i))
        invariant forall k :: 0 <= k < |events| ==> Listed(s.t, events[k])
        invariant |commits| == i && unanswered.None?
        invariant forall k :: 0 <= k < i ==> CommitOf(old(s), events, others, k, commits[k])
        invariant requeued == |CreatedBy(commits)|
        invariant forall d :: d in CreatedBy(commits) ==> old(s).t.nextDelivery <= d < s.t.nextDelivery
      {
        ghost var seen := s.t.nextDelivery;
        InterleaveOneMore(old(s), own, others, i);
        ListedLater(s, others(i), events);
        s := Exec(s, others(i));
        ghost var before := s;
        var n, made := ReplayOne(events[i], faults(i), lost(i));
        if made.Some? {
          ghost var c := Commit(before.t, s.t, made.value);
          assert CommitOf(old(s), events, others, i, c) by { CommitAt(old(s), events, others, i, c); }
          FansNext(c, events[i]);
          if n.Err? {
            unanswered := Some(c);
          } else {
            CreatedOneMore(commits, c, seen);
            commits := commits + [c];
          }
        }
        if n.Err? {
          Finish(FailedReplay, |events|, requeued, finishFails);
          return;
        }
        forall k | 0 <= k < |events| ensures Listed(s.t, events[k]) {
          ListedStep(before, Machine.Replay(events[i].event), events[k]);
        }
        requeued := requeued + n.value;
      }
      assert Trace(events, others, |events|, false) == Interleave(own, others, |events|);
      Finish(CompletedReplay, |events|, requeued, finishFails);
    }
  }

  /** The int32 count is the number itself exactly when it is below 2^31. */
  lemma CountFits(n: nat)
    ensures ToInt32(n) == n <==> n < 0x8000_0000
  {}
}
