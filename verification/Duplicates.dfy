/** Deduplication over whole runs of the gateway: whatever is interleaved with it, an ingest is a duplicate exactly
    when a scan of the source's ingest history says so. */
module Duplicates {
  import opened Options
  import opened Store
  import opened Dispatch
  import opened Machine
  import opened Basics
  import Dedup
  import Ingest
  import Rules

  // The ingest history of a run; deleting a source deletes its part of it

  function Forget(ops: seq<Dedup.Op>, source: SourceId): seq<Dedup.Op> {
    if ops == [] then []
    else
      var rest, op := Forget(ops[..|ops| - 1], source), ops[|ops| - 1];
      if op.Ingest? && op.key.source == source then rest else rest + [op]
  }

  function Ops(steps: seq<Step>): seq<Dedup.Op> {
    if steps == [] then []
    else
      var init, step := steps[..|steps| - 1], steps[|steps| - 1];
      var ops := Ops(init);
      if step.IngestEvent? && step.req.key.Some? then
        ops + [Dedup.Ingest(Ingest.DedupKeyOf(step.req), Run(init).t.nextEvent, step.req.windowSeconds, step.now)]
      else if step.CleanDedup? then ops + [Dedup.Cleanup(step.now)]
      else if step.DropSource? then Forget(ops, step.source)
      else ops
  }

  /** The clock readings of ingests and cleanups never go backward. */
  ghost predicate Clocked(steps: seq<Step>) {
    forall i, j :: 0 <= i < j < |steps| && Timed(steps[i]) && Timed(steps[j]) ==> steps[i].now <= steps[j].now
  }

  predicate Timed(step: Step) { step.IngestEvent? || step.CleanDedup? }

  ghost predicate Before(ops: seq<Dedup.Op>, now: int) { forall i :: 0 <= i < |ops| ==> ops[i].now <= now }

  lemma {:induction false} ForgetKeepsOrder(ops: seq<Dedup.Op>, source: SourceId)
    ensures forall op :: op in Forget(ops, source) ==> op in ops
    ensures Dedup.Clocked(ops) ==> Dedup.Clocked(Forget(ops, source))
  {
    if ops != [] {
      var n := |ops| - 1;
      ForgetKeepsOrder(ops[..n], source);
      var rest := Forget(ops[..n], source);
      if Dedup.Clocked(ops) {
        forall i | 0 <= i < |rest| ensures rest[i].now <= ops[n].now {
          assert rest[i] in ops[..n];
        }
      }
    }
  }

  lemma OneReadingMore(ops: seq<Dedup.Op>, op: Dedup.Op, now: int)
    requires Dedup.Clocked(ops) && Before(ops, op.now) && op.now <= now
    ensures Dedup.Clocked(ops + [op]) && Before(ops + [op], now)
  {}

  lemma {:induction false} OpsClocked(steps: seq<Step>, now: int)
    requires Clocked(steps) && forall i :: 0 <= i < |steps| && Timed(steps[i]) ==> steps[i].now <= now
    ensures Dedup.Clocked(Ops(steps)) && Before(Ops(steps), now)
  {
    if steps != [] {
      var n := |steps| - 1;
      var init, step := steps[..n], steps[n];
      assert steps[n] == step;
      hide Before, Dedup.Clocked, Run;
      if Timed(step) {
        OpsClocked(init, step.now);
        if step.CleanDedup? || step.req.key.Some? {
          OneReadingMore(Ops(init), Ops(steps)[|Ops(steps)| - 1], now);
        } else {
          OpsClocked(init, now);
        }
      } else {
        OpsClocked(init, now);
        if step.DropSource? { ForgetStaysBefore(Ops(init), step.source, now); }
      }
    }
  }

  lemma ForgetStaysBefore(ops: seq<Dedup.Op>, source: SourceId, now: int)
    requires Dedup.Clocked(ops) && Before(ops, now)
    ensures Dedup.Clocked(Forget(ops, source)) && Before(Forget(ops, source), now)
  {
    ForgetKeepsOrder(ops, source);
    forall i | 0 <= i < |Forget(ops, source)| ensures Forget(ops, source)[i].now <= now {
      assert Forget(ops, source)[i] in ops;
    }
  }

  // The index follows the history

  function Spare(index: Dedup.Index, source: SourceId): Dedup.Index {
    map k | k in index && k.source != source :: index[k]
  }

  /** Claims of other sources, and cleanups, do not see what is spared. */
  lemma ClaimSpares(index: Dedup.Index, source: SourceId, key: Dedup.Key, event: EventId, window: int, now: int)
    ensures Spare(Dedup.Claim(index, key, event, window, now).0, source) ==
              if key.source == source then Spare(index, source)
              else Dedup.Claim(Spare(index, source), key, event, window, now).0
  {}

  lemma DeleteSpares(index: Dedup.Index, source: SourceId, now: int)
    ensures Spare(Dedup.DeleteExpired(index, now), source) == Dedup.DeleteExpired(Spare(index, source), now)
  {}

  lemma AfterOneMore(ops: seq<Dedup.Op>, op: Dedup.Op)
    ensures Dedup.After(ops + [op]) ==
              if op.Ingest? then
                Dedup.Claim(Dedup.After(ops), op.key, op.event, Dedup.Window(op.windowSeconds), op.now).0
              else Dedup.DeleteExpired(Dedup.After(ops), op.now)
  {
    hide Dedup.Claim, Dedup.DeleteExpired;
    assert (ops + [op])[..|ops|] == ops;
  }

  lemma {:induction false} ForgetIsSpare(ops: seq<Dedup.Op>, source: SourceId)
    ensures Dedup.After(Forget(ops, source)) == Spare(Dedup.After(ops), source)
  {
    hide Dedup.Claim, Dedup.DeleteExpired, Dedup.After, Spare, Dedup.Window;
    if ops == [] {
      SpareNothing(source);
    } else {
      var n := |ops| - 1;
      var init, op := ops[..n], ops[n];
      ForgetIsSpare(init, source);
      assert ops == init + [op];
      AfterOneMore(init, op);
      AfterOneMore(Forget(init, source), op);
      if op.Ingest? {
        ClaimSpares(Dedup.After(init), source, op.key, op.event, Dedup.Window(op.windowSeconds), op.now);
      } else {
        DeleteSpares(Dedup.After(init), source, op.now);
      }
    }
  }

  lemma SpareNothing(source: SourceId)
    ensures Dedup.After([]) == Spare(Dedup.After([]), source)
  {}

  lemma {:induction false} FanOutKeepsIndex(t: Tables, event: EventId, targets: seq<Target>)
    ensures FanOut(t, event, targets).dedup == t.dedup
  {
    if targets != [] { FanOutKeepsIndex(t, event, targets[..|targets| - 1]); }
  }

  lemma IngestIndex(t: Tables, req: Ingest.Request, now: int)
    ensures Ingest.Committed(t, req, now).dedup ==
              if req.key.None? then t.dedup
              else Dedup.Claim(t.dedup, Ingest.DedupKeyOf(req), t.nextEvent, Dedup.Window(req.windowSeconds), now).0
  {
    Ingest.CommittedCases(t, req, now);
    hide Ingest.Committed, Ingest.RuleDrop, Ingest.ChosenTargets, FanOut;
    FanOutKeepsIndex(Ingest.Stored(t, req, now), t.nextEvent, Ingest.ChosenTargets(t, req));
  }

  /** Steps that are neither ingest, cleanup nor source deletion leave the index alone. */
  lemma OtherStep(s: State, step: Step)
    requires !Timed(step) && !step.DropSource?
    ensures Apply(s, step).t.dedup == s.t.dedup
  {
    hide FanOut, RouteTargets, Moved, Noted, HasAttempt, Births, KeepRoutes, KeepAttempts, DeliveriesTo, UniqueRoutes;
    if step.Replay? && step.event in s.t.events {
      FanOutKeepsIndex(s.t, step.event, RouteTargets(s.t.routes, s.t.destinations, s.t.events[step.event].source));
    }
  }

  /** What one step does to the index. */
  lemma StepIndex(s: State, step: Step)
    ensures Apply(s, step).t.dedup ==
              if step.IngestEvent? && step.req.key.Some? then
                Dedup.Claim(s.t.dedup, Ingest.DedupKeyOf(step.req), s.t.nextEvent,
                            Dedup.Window(step.req.windowSeconds), step.now).0
              else if step.CleanDedup? then Dedup.DeleteExpired(s.t.dedup, step.now)
              else if step.DropSource? then Spare(s.t.dedup, step.source)
              else s.t.dedup
  {
    hide FanOut, Moved, Noted, Births, Recording, Ingest.Committed, Dedup.Claim, Dedup.DeleteExpired;
    hide EventsOf, DeliveriesOf, KeepRoutes, KeepRules, KeepAttempts;
    if step.IngestEvent? {
      IngestIndex(s.t, step.req, step.now);
    } else if !step.CleanDedup? && !step.DropSource? {
      OtherStep(s, step);
    }
  }

  lemma {:induction false} IndexFollowsHistory(steps: seq<Step>)
    ensures Run(steps).t.dedup == Dedup.After(Ops(steps))
  {
    if steps != [] {
      hide Apply, Dedup.Claim, Dedup.DeleteExpired, Dedup.After, Spare, Forget;
      var init, step := steps[..|steps| - 1], steps[|steps| - 1];
      IndexFollowsHistory(init);
      StepIndex(Run(init), step);
      if step.DropSource? {
        ForgetIsSpare(Ops(init), step.source);
      } else if Ops(steps) != Ops(init) {
        AfterOneMore(Ops(init), Ops(steps)[|Ops(steps)| - 1]);
      }
    }
  }

  /** In every run, whatever else is interleaved: the event that an ingest stores is marked a duplicate and delivered
      nowhere if an earlier winner of its source and key still covers its reading; otherwise its rules alone decide. */
  lemma IngestMeetsHistory(steps: seq<Step>, req: Ingest.Request, now: int)
    requires Clocked(steps + [IngestEvent(req, now)])
    ensures var s, s' := Run(steps), Run(steps + [IngestEvent(req, now)]);
            var event := s.t.nextEvent;
            var duplicate := req.key.Some? && Dedup.ScanFinds(Ops(steps), |Ops(steps)|, Ingest.DedupKeyOf(req), now);
            && event in s'.t.events
            && (duplicate ==>
                  && s'.t.events[event].droppedReason == Some(Ingest.DUPLICATE)
                  && s'.t.deliveries == s.t.deliveries && s'.t.jobs == s.t.jobs && s'.t.dedup == s.t.dedup)
            && (!duplicate ==>
                  && s'.t.events[event].droppedReason == Ingest.RuleDrop(s.t, req)
                  && (req.key.Some? ==> Dedup.Held(s'.t.dedup, Ingest.DedupKeyOf(req), now)))
  {
    var all := steps + [IngestEvent(req, now)];
    assert all[..|steps|] == steps && all[|steps|] == IngestEvent(req, now);
    forall i | 0 <= i < |steps| && Timed(steps[i]) ensures steps[i].now <= now { assert all[i] == steps[i]; }
    assert Clocked(steps) by {
      forall i, j | 0 <= i < j < |steps| && Timed(steps[i]) && Timed(steps[j]) ensures steps[i].now <= steps[j].now {
        assert all[i] == steps[i] && all[j] == steps[j];
      }
    }
    OpsClocked(steps, now);
    IndexFollowsHistory(steps);
    if req.key.Some? { Dedup.IndexIsScan(Ops(steps), Ingest.DedupKeyOf(req), now); }
    BasicHolds(steps);
    var s := Run(steps);
    hide Exec, Ops, Clocked, Dedup.ScanFinds, Dedup.After;
    ExecAppend(INIT, steps, [IngestEvent(req, now)]);
    ExecOne(s, IngestEvent(req, now));
    hide Ingest.Committed, FannedOut, Rules.Evaluate, Rules.ListEnabled, Ingest.ChosenTargets, ProperTargets;
    hide Births, JobsOk, RecoveriesOk;
    Ingest.IngestComplete(s.t, req, now);
    IngestIndex(s.t, req, now);
  }

  // Cleanup changes nothing but expired rows

  function WithoutCleanups(steps: seq<Step>): seq<Step> {
    if steps == [] then []
    else
      var rest, step := WithoutCleanups(steps[..|steps| - 1]), steps[|steps| - 1];
      if step.CleanDedup? then rest else rest + [step]
  }

  function WithIndex(s: State, index: Dedup.Index): State { s.(t := s.t.(dedup := index)) }

  /** Two states that differ at most in expired rows of the index. */
  ghost predicate Alike(s1: State, s2: State, now: int) {
    s2 == WithIndex(s1, s2.t.dedup) && Dedup.SameLive(s1.t.dedup, s2.t.dedup, now)
  }

  lemma {:induction false} FanOutAnyIndex(t: Tables, event: EventId, targets: seq<Target>, index: Dedup.Index)
    ensures FanOut(t.(dedup := index), event, targets) == FanOut(t, event, targets).(dedup := index)
  {
    if targets != [] { FanOutAnyIndex(t, event, targets[..|targets| - 1], index); }
  }

  lemma ProcessAnyIndex(t: Tables, req: Ingest.Request, event: EventId, index: Dedup.Index)
    ensures Ingest.Process(t.(dedup := index), req, event) == Ingest.Process(t, req, event).(dedup := index)
  {
    hide Rules.Evaluate, Rules.ListEnabled, FanOut, RouteTargets, TargetsByIds;
    FanOutAnyIndex(t, event, Ingest.ChosenTargets(t, req), index);
  }

  lemma IngestAlike(s1: State, s2: State, req: Ingest.Request, now: int)
    requires Alike(s1, s2, now)
    ensures Alike(Apply(s1, IngestEvent(req, now)), Apply(s2, IngestEvent(req, now)), now)
  {
    hide Ingest.Process, FanOut, Births, Dedup.Claim, Dedup.SameLive;
    var event := s1.t.nextEvent;
    var t1 := Ingest.InsertEvent(s1.t, req, now);
    IngestIndex(s1.t, req, now);
    IngestIndex(s2.t, req, now);
    if req.key.None? {
      ProcessAnyIndex(t1, req, event, s2.t.dedup);
    } else {
      var key, window := Ingest.DedupKeyOf(req), Dedup.Window(req.windowSeconds);
      Dedup.SimulateClaim(s1.t.dedup, s2.t.dedup, now, key, event, window, now);
      var index1 := Dedup.Claim(s1.t.dedup, key, event, window, now).0;
      var index2 := Dedup.Claim(s2.t.dedup, key, event, window, now).0;
      ProcessAnyIndex(t1.(dedup := index1), req, event, index2);
      LosingClaim(s1.t.dedup, key, event, window, now);
      LosingClaim(s2.t.dedup, key, event, window, now);
    }
  }

  lemma LosingClaim(index: Dedup.Index, key: Dedup.Key, event: EventId, window: int, now: int)
    ensures !Dedup.Claim(index, key, event, window, now).1 ==> Dedup.Claim(index, key, event, window, now).0 == index
  {}

  lemma DropSourceAlike(s1: State, s2: State, source: SourceId, now: int)
    requires Alike(s1, s2, now)
    ensures Alike(Apply(s1, DropSource(source)), Apply(s2, DropSource(source)), now)
  {
    hide KeepRoutes, KeepRules, KeepAttempts;
    assert EventsOf(s1.t, source) == EventsOf(s2.t, source);
    assert DeliveriesOf(s1.t, EventsOf(s1.t, source)) == DeliveriesOf(s2.t, EventsOf(s2.t, source));
  }

  lemma RecordingAnyIndex(s: State, j: JobId, now: int, ack: bool, index: Dedup.Index)
    requires j < |s.t.jobs|
    ensures Recording(WithIndex(s, index), j, now, ack) == WithIndex(Recording(s, j, now, ack), index)
  {
    hide HasAttempt, DeliveryStatus, ReturnFor;
  }

  lemma WorkerAnyIndex(s: State, step: Step, index: Dedup.Index)
    requires step.IsWorker()
    ensures Apply(WithIndex(s, index), step) == WithIndex(Apply(s, step), index)
  {
    var j := JobOf(step);
    if j < |s.t.jobs| {
      assert Moved(s.t.(dedup := index), s.t.jobs[j], step) == Moved(s.t, s.t.jobs[j], step);
      assert Noted(s.t.(dedup := index), s.t.jobs[j], step) == Noted(s.t, s.t.jobs[j], step);
    }
  }

  /** The other steps neither read nor write the index. */
  lemma OtherAnyIndex(s: State, step: Step, index: Dedup.Index)
    requires !Timed(step) && !step.DropSource?
    ensures Apply(WithIndex(s, index), step) == WithIndex(Apply(s, step), index)
  {
    if step.IsWorker() {
      WorkerAnyIndex(s, step, index);
    } else if step.Record? || step.RecordUnacknowledged? {
      if step.j < |s.t.jobs| {
        RecordingAnyIndex(s, step.j, step.now, step.Record?, index);
        hide Recording;
      }
    } else {
      hide FanOut, RouteTargets, Births, KeepRoutes, KeepAttempts, UniqueRoutes;
      if step.Replay? && step.event in s.t.events {
        var targets := RouteTargets(s.t.routes, s.t.destinations, s.t.events[step.event].source);
        FanOutAnyIndex(s.t, step.event, targets, index);
      } else if step.DropDestination? {
        assert DeliveriesTo(s.t, step.dest) == DeliveriesTo(s.t.(dedup := index), step.dest);
      }
    }
  }

  /** Cleanup is invisible to the whole gateway: with every cleanup removed, a clocked run of ingests, replays, workers,
      recoveries, deletions and failures ends in the same state, up to rows of the index that have expired. */
  lemma {:induction false} CleanupChangesNothing(steps: seq<Step>, now: int)
    requires Clocked(steps) && forall i :: 0 <= i < |steps| && Timed(steps[i]) ==> steps[i].now <= now
    ensures Alike(Run(steps), Run(WithoutCleanups(steps)), now)
  {
    if steps != [] {
      var n := |steps| - 1;
      var init, step := steps[..n], steps[n];
      var at := if Timed(step) then step.now else now;
      CleanupChangesNothing(init, at);
      var s1, kept := Run(init), WithoutCleanups(init);
      var s2 := Run(kept);
      assert (kept + [step])[..|kept|] == kept;
      AlikeStep(s1, s2, step, at);
      hide Apply;
      AlikeLater(Run(steps), Run(WithoutCleanups(steps)), at, now);
    }
  }

  lemma AlikeLater(s1: State, s2: State, from: int, now: int)
    requires Alike(s1, s2, from) && from <= now
    ensures Alike(s1, s2, now)
  {}

  lemma AlikeStep(s1: State, s2: State, step: Step, now: int)
    requires Alike(s1, s2, now) && (Timed(step) ==> step.now == now)
    ensures Alike(Apply(s1, step), if step.CleanDedup? then s2 else Apply(s2, step), now)
  {
    if step.CleanDedup? {
      Dedup.SimulateCleanup(s1.t.dedup, s2.t.dedup, now, now);
    } else {
      hide Apply;
      if step.IngestEvent? {
        IngestAlike(s1, s2, step.req, now);
      } else if step.DropSource? {
        DropSourceAlike(s1, s2, step.source, now);
      } else {
        OtherStep(s1, step);
        OtherAnyIndex(s1, step, s2.t.dedup);
      }
    }
  }
}
