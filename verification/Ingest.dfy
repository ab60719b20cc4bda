/** Transactional ingest: store the event, claim its dedupe key, evaluate rules, fan out. */
module Ingest {
  import opened Options
  import opened Store
  import opened Rules
  import Dedup

  /** One webhook as it reaches the transaction: its source's settings, the derived key if any, the outcome
      of signature verification and of every rule expression. */
  datatype Request = Request(
    source: SourceId,
    key: Option<Dedup.DedupeKey>,
    windowSeconds: int,
    verified: bool,
    verdicts: Verdicts)

  const DUPLICATE: string := "duplicate"

  function InsertEvent(t: Tables, req: Request, now: int): Tables {
    t.(events := t.events[t.nextEvent := Event(req.source, req.key, req.verified, None, now)],
       nextEvent := t.nextEvent + 1)
  }

  function MarkDropped(t: Tables, event: EventId, reason: string): Tables {
    if event in t.events then t.(events := t.events[event := t.events[event].(droppedReason := Some(reason))]) else t
  }

  function DedupKeyOf(req: Request): Dedup.Key
    requires req.key.Some?
  {
    Dedup.Key(req.source, req.key.value)
  }

  /** The destinations a stored event goes to, unless the decision drops it. */
  function ChosenTargets(t: Tables, req: Request): seq<Target> {
    match Evaluate(ListEnabled(t.rules, req.source), req.verdicts)
    case NoDecision => RouteTargets(t.routes, t.destinations, req.source)
    case Decided(r) => if r.action.Route? then TargetsByIds(r.action.destinations, t.destinations) else []
  }

  /** Rules and fan-out for a stored event that is not a duplicate. */
  function Process(t: Tables, req: Request, event: EventId): Tables {
    var decision := Evaluate(ListEnabled(t.rules, req.source), req.verdicts);
    if decision.Decided? && decision.rule.action.Drop? then MarkDropped(t, event, decision.rule.name)
    else FanOut(t, event, ChosenTargets(t, req))
  }

  /** The committed outcome of one ingest. */
  function Committed(t: Tables, req: Request, now: int): Tables {
    var event := t.nextEvent;
    var t1 := InsertEvent(t, req, now);
    if req.key.None? then Process(t1, req, event)
    else
      var (dedup, won) := Dedup.Claim(t.dedup, DedupKeyOf(req), event, Dedup.Window(req.windowSeconds), now);
      if won then Process(t1.(dedup := dedup), req, event) else MarkDropped(t1, event, DUPLICATE)
  }

  predicate IsDuplicate(t: Tables, req: Request, now: int) {
    req.key.Some? && Dedup.Held(t.dedup, DedupKeyOf(req), now)
  }

  /** The name of the rule that drops the event, if the rules do. */
  function RuleDrop(t: Tables, req: Request): Option<string> {
    match Evaluate(ListEnabled(t.rules, req.source), req.verdicts)
    case Decided(r) => if r.action.Drop? then Some(r.name) else None
    case NoDecision => None
  }

  /** The reason for which an event is stored but not delivered, if any. */
  function DropReason(t: Tables, req: Request, now: int): Option<string> {
    if IsDuplicate(t, req, now) then Some(DUPLICATE) else RuleDrop(t, req)
  }

  /** The event stored and its key claimed, before the rules are asked. */
  function Stored(t: Tables, req: Request, now: int): Tables {
    var t1 := InsertEvent(t, req, now);
    if req.key.None? then t1
    else
      t1.(dedup := Dedup.Claim(t.dedup, DedupKeyOf(req), t.nextEvent, Dedup.Window(req.windowSeconds), now).0)
  }

  /** The three ways an ingest commits. */
  lemma CommittedCases(t: Tables, req: Request, now: int)
    ensures Committed(t, req, now) ==
              if IsDuplicate(t, req, now) then MarkDropped(InsertEvent(t, req, now), t.nextEvent, DUPLICATE)
              else if RuleDrop(t, req).Some? then MarkDropped(Stored(t, req, now), t.nextEvent, RuleDrop(t, req).value)
              else FanOut(Stored(t, req, now), t.nextEvent, ChosenTargets(t, req))
  {
    hide ListEnabled, Evaluate, RouteTargets, TargetsByIds, FanOut, MarkDropped;
    var t2 := Stored(t, req, now);
    assert ChosenTargets(t2, req) == ChosenTargets(t, req);
  }

  /** Completeness: a commit stores exactly one event; it is dropped with no delivery, or every chosen target,
      each destination once, gets one delivery and one job that point at each other. */
  lemma IngestComplete(t: Tables, req: Request, now: int)
    requires FreshIds(t) && UniqueRoutes(t.routes)
    ensures var t' := Committed(t, req, now);
            var reason := DropReason(t, req, now);
            && t'.events == t.events[t.nextEvent := Event(req.source, req.key, req.verified, reason, now)]
            && t'.nextEvent == t.nextEvent + 1
            && (reason.Some? ==> t' == t.(events := t'.events, nextEvent := t'.nextEvent, dedup := t'.dedup))
            && (reason.None? ==>
                  FannedOut(t.(events := t'.events, nextEvent := t'.nextEvent, dedup := t'.dedup), t',
                            t.nextEvent, ChosenTargets(t, req)))
            && ProperTargets(ChosenTargets(t, req), t.destinations)
  {
    CommittedCases(t, req, now);
    ChosenProper(t, req, 0);
    hide Committed, FannedOut, ProperTargets, ChosenTargets, RuleDrop, FanOut, IsDuplicate, UniqueRoutes, FreshIds;
    hide InsertEvent, Stored, MarkDropped;
    StoredEvent(t, req, now);
    if IsDuplicate(t, req, now) {
      Dropped(t, InsertEvent(t, req, now), req, now, DUPLICATE);
    } else if RuleDrop(t, req).Some? {
      Dropped(t, Stored(t, req, now), req, now, RuleDrop(t, req).value);
    } else {
      FanOutShape(Stored(t, req, now), t.nextEvent, ChosenTargets(t, req));
      FanOutFrame(Stored(t, req, now), t.nextEvent, ChosenTargets(t, req));
    }
  }

  /** The tables with the event in, and nothing else but perhaps its claim. */
  ghost predicate HasStored(t: Tables, t': Tables, req: Request, reason: Option<string>, now: int) {
    && t'.events == t.events[t.nextEvent := Event(req.source, req.key, req.verified, reason, now)]
    && t'.nextEvent == t.nextEvent + 1
    && t' == t.(events := t'.events, nextEvent := t'.nextEvent, dedup := t'.dedup)
  }

  lemma StoredEvent(t: Tables, req: Request, now: int)
    ensures HasStored(t, InsertEvent(t, req, now), req, None, now)
    ensures HasStored(t, Stored(t, req, now), req, None, now)
    ensures FreshIds(t) ==> FreshIds(Stored(t, req, now))
  {
    hide Dedup.Claim;
  }

  lemma Dropped(t: Tables, t': Tables, req: Request, now: int, reason: string)
    requires HasStored(t, t', req, None, now)
    ensures HasStored(t, MarkDropped(t', t.nextEvent, reason), req, Some(reason), now)
  {}

  lemma FanOutFrame(t: Tables, event: EventId, targets: seq<Target>)
    requires FreshIds(t)
    ensures var t' := FanOut(t, event, targets);
            t' == t.(deliveries := t'.deliveries, jobs := t'.jobs, nextDelivery := t'.nextDelivery)
  {
    FanOutShape(t, event, targets);
  }

  /** Which destinations are chosen: those of the lowest matching rule when it routes, unknown ones skipped;
      every enabled route of the source when no rule matches. */
  lemma ChosenProper(t: Tables, req: Request, dest: DestId)
    requires UniqueRoutes(t.routes)
    ensures ProperTargets(ChosenTargets(t, req), t.destinations)
    ensures Hits(ChosenTargets(t, req), dest) <==>
              && dest in t.destinations
              && match Evaluate(ListEnabled(t.rules, req.source), req.verdicts)
                 case NoDecision => Routed(t.routes, req.source, dest)
                 case Decided(r) => r.action.Route? && dest in r.action.destinations
  {
    match Evaluate(ListEnabled(t.rules, req.source), req.verdicts)
    case NoDecision => RouteTargetsMeaning(t.routes, t.destinations, req.source, dest);
    case Decided(r) =>
      if r.action.Route? { TargetsByIdsMeaning(r.action.destinations, t.destinations, dest); }
  }

  /** The rule matches and comes before every other matching rule of the source. */
  ghost predicate Deciding(rules: seq<Rule>, req: Request, r: Rule) {
    && r in rules && Matching(req, r)
    && forall x :: x in rules && Matching(req, x) && x != r ==>
         r.priority < x.priority || (r.priority == x.priority && r.createdAt < x.createdAt)
  }

  ghost predicate Matching(req: Request, r: Rule) {
    r.enabled && r.source == req.source && r.id in req.verdicts && req.verdicts[r.id] == Matches
  }

  lemma DecidingDecides(rules: seq<Rule>, req: Request, r: Rule)
    ensures Deciding(rules, req, r) ==> Evaluate(ListEnabled(rules, req.source), req.verdicts) == Decided(r)
    ensures (forall x :: x in rules ==> !Matching(req, x)) ==>
              Evaluate(ListEnabled(rules, req.source), req.verdicts) == NoDecision
  {
    LowestMatchDecides(rules, req.source, req.verdicts);
    hide ListEnabled, Evaluate;
    var d := Evaluate(ListEnabled(rules, req.source), req.verdicts);
    if d.Decided? { assert Matching(req, d.rule); }
  }

  /** The event got a new delivery to this destination. */
  ghost predicate DeliveredTo(t: Tables, t': Tables, event: EventId, dest: DestId) {
    exists d :: d in t'.deliveries && d !in t.deliveries
                && t'.deliveries[d].event == event && t'.deliveries[d].dest == dest
  }

  /** Another live event holds the key of this one. */
  ghost predicate Taken(t: Tables, req: Request, now: int) {
    && req.key.Some? && Dedup.Key(req.source, req.key.value) in t.dedup
    && t.dedup[Dedup.Key(req.source, req.key.value)].expiresAt > now
  }

  /** Ingest from end to end: a taken key makes a duplicate; otherwise the key is claimed for the source's window and
      the first matching rule drops the event or names its destinations; with no matching rule every enabled route
      counts. */
  lemma IngestDecides(t: Tables, req: Request, now: int, r: Rule, dest: DestId)
    requires FreshIds(t) && UniqueRoutes(t.routes)
    ensures var t' := Committed(t, req, now);
            && t.nextEvent in t'.events
            && var reason := t'.events[t.nextEvent].droppedReason;
               if Taken(t, req, now) then
                 && reason == Some("duplicate")
                 && t'.deliveries == t.deliveries && t'.jobs == t.jobs && t'.dedup == t.dedup
               else
                 && t'.dedup == ClaimedIndex(t, req, now)
                 && (Deciding(t.rules, req, r) && r.action.Drop? ==>
                       reason == Some(r.name) && t'.deliveries == t.deliveries && t'.jobs == t.jobs)
                 && (Deciding(t.rules, req, r) && r.action.Route? ==>
                       && reason == None
                       && (DeliveredTo(t, t', t.nextEvent, dest) <==>
                             dest in r.action.destinations && dest in t.destinations))
                 && ((forall x :: x in t.rules ==> !Matching(req, x)) ==>
                       && reason == None
                       && (DeliveredTo(t, t', t.nextEvent, dest) <==>
                             Routed(t.routes, req.source, dest) && dest in t.destinations))
  {
    IngestComplete(t, req, now);
    IngestClaims(t, req, now);
    DecidingDecides(t.rules, req, r);
    ChosenProper(t, req, dest);
    var t' := Committed(t, req, now);
    hide Committed, ListEnabled, Evaluate, FannedOut, ProperTargets, Deciding, Matching;
    hide Hits, Routed, RouteTargets, TargetsByIds;
    if DropReason(t, req, now).None? {
      var mid := t.(events := t'.events, nextEvent := t'.nextEvent, dedup := t'.dedup);
      HitsAreDelivered(t, mid, t', t.nextEvent, ChosenTargets(t, req), dest);
    }
  }

  /** The index with the key taken for as long as the source's setting says. */
  ghost function ClaimedIndex(t: Tables, req: Request, now: int): Dedup.Index {
    if req.key.None? then t.dedup
    else
      t.dedup[Dedup.Key(req.source, req.key.value) := Dedup.Row(t.nextEvent,
        now + (if req.windowSeconds > 0 then req.windowSeconds * 1_000_000 else 300_000_000))]
  }

  lemma IngestClaims(t: Tables, req: Request, now: int)
    requires FreshIds(t)
    ensures Committed(t, req, now).dedup == if Taken(t, req, now) then t.dedup else ClaimedIndex(t, req, now)
  {
    CommittedCases(t, req, now);
    hide Committed, RuleDrop, ChosenTargets, FanOut, FreshIds;
    StoredEvent(t, req, now);
    if !IsDuplicate(t, req, now) && RuleDrop(t, req).None? {
      FanOutFrame(Stored(t, req, now), t.nextEvent, ChosenTargets(t, req));
    }
  }

  lemma HitsAreDelivered(t: Tables, mid: Tables, t': Tables, event: EventId, targets: seq<Target>, dest: DestId)
    requires FreshIds(t) && mid.deliveries == t.deliveries && mid.nextDelivery == t.nextDelivery
    requires FannedOut(mid, t', event, targets)
    ensures DeliveredTo(t, t', event, dest) <==> Hits(targets, dest)
  {
    if i :| 0 <= i < |targets| && targets[i].dest == dest {
      assert t'.deliveries[t.nextDelivery + i].dest == dest;
    }
    if d :| d in t'.deliveries && d !in t.deliveries
            && t'.deliveries[d].event == event && t'.deliveries[d].dest == dest
    {
      assert targets[d - t.nextDelivery].dest == dest;
    }
  }

  /** Deleting rules that do not match changes nothing that an ingest stores. */
  lemma BrokenRulesDoNotMatter(t: Tables, req: Request, now: int, gone: set<RuleId>)
    requires forall r :: r in t.rules && r.id in gone ==>
               || r.id !in req.verdicts || req.verdicts[r.id] == Broken
               || req.verdicts[r.id] == NotBoolean || req.verdicts[r.id] == Misses
    ensures Committed(t.(rules := Without(t.rules, gone)), req, now)
         == Committed(t, req, now).(rules := Without(t.rules, gone))
  {
    BrokenRulesIrrelevant(t.rules, req.source, gone, req.verdicts);
    var rules := Without(t.rules, gone);
    CommittedCases(t, req, now);
    CommittedCases(t.(rules := rules), req, now);
    hide Committed, Evaluate, ListEnabled, RouteTargets, TargetsByIds, FanOut, Fires, Without;
    var t' := t.(rules := rules);
    assert ChosenTargets(t', req) == ChosenTargets(t, req) && RuleDrop(t', req) == RuleDrop(t, req);
    assert IsDuplicate(t', req, now) == IsDuplicate(t, req, now);
    StoredAnyRules(t, req, now, rules);
    hide ChosenTargets, RuleDrop, IsDuplicate, Stored, InsertEvent;
    FanOutIgnoresRules(Stored(t, req, now), t.nextEvent, ChosenTargets(t, req), rules);
  }

  lemma StoredAnyRules(t: Tables, req: Request, now: int, rules: seq<Rule>)
    ensures InsertEvent(t.(rules := rules), req, now) == InsertEvent(t, req, now).(rules := rules)
    ensures Stored(t.(rules := rules), req, now) == Stored(t, req, now).(rules := rules)
  {
    hide Dedup.Claim;
  }

  lemma {:induction false} FanOutIgnoresRules(t: Tables, event: EventId, targets: seq<Target>, rules: seq<Rule>)
    ensures FanOut(t.(rules := rules), event, targets) == FanOut(t, event, targets).(rules := rules)
    ensures FanOut(t, event, targets).rules == t.rules
  {
    if targets != [] { FanOutIgnoresRules(t, event, targets[..|targets| - 1], rules); }
  }

  // The transaction, statement by statement

  /** The database as one transaction sees it. `failAfter` says how many more statements succeed before
      one fails; None means that none does. A commit may go through and its reply still be lost. */
  class Transaction {
    var t: Tables
    var failAfter: Option<nat>
    const replyLost: bool

    constructor (tables: Tables, fault: Option<nat>, lost: bool)
      ensures t == tables && failAfter == fault && replyLost == lost
    {
      t, failAfter, replyLost := tables, fault, lost;
    }

    /** Whether the next statement goes through. */
    method Statement() returns (ok: bool)
      modifies this`failAfter
      ensures old(failAfter).None? ==> ok && failAfter.None?
      ensures ok <==> old(failAfter) != Some(0)
    {
      if failAfter.None? { return true; }
      if failAfter.value == 0 { return false; }
      failAfter := Some(failAfter.value - 1);
      return true;
    }

    /** Whether the commit took effect, and whether the caller learns so. */
    method Commit() returns (committed: bool, ok: bool)
      modifies this`failAfter
      ensures ok <==> committed && !replyLost
      ensures old(failAfter).None? ==> committed
    {
      committed := Statement();
      ok := committed && !replyLost;
    }

    /** One delivery, one job and their link per target; the first failing statement ends the loop. */
    method EnqueueDeliveriesTo(event: EventId, targets: seq<Target>) returns (r: Result<nat>)
      modifies this
      ensures r.Ok? ==> t == FanOut(old(t), event, targets) && r.value == |targets|
      ensures old(failAfter).None? ==> r.Ok? && failAfter.None?
    {
      ghost var start := t;
      for i := 0 to |targets|
        invariant t == FanOut(start, event, targets[..i])
        invariant old(failAfter).None? ==> failAfter.None?
      {
        var target := targets[i];
        var ok := Statement();
        if !ok { return Err; }
        var delivery := t.nextDelivery;
        t := t.(deliveries := t.deliveries[delivery := Delivery(event, target.dest, None, Pending, 0, None)],
                nextDelivery := delivery + 1);

        ok := Statement();
        if !ok { return Err; }
        var maxAttempts := target.policy.maxAttempts;
        if maxAttempts < 1 { maxAttempts := 1; }
        var job := |t.jobs|;
        t := t.(jobs := t.jobs + [Job(delivery, target.policy, maxAttempts, 0, Available)]);

        ok := Statement();
        if !ok { return Err; }
        t := t.(deliveries := t.deliveries[delivery := t.deliveries[delivery].(job := Some(job))]);

        assert targets[..i + 1][..i] == targets[..i];
        assert FanOut(start, event, targets[..i + 1]).deliveries == t.deliveries;
      }
      assert targets[..|targets|] == targets;
      return Ok(|targets|);
    }

    /** ProcessEvent: all or nothing. A success is exactly the committed outcome; an error leaves everything as it was,
        unless it is the reply to a commit that was lost. */
    method ProcessEvent(req: Request, now: int) returns (r: Result<EventId>)
      modifies this
      ensures r.Ok? ==> t == Committed(old(t), req, now) && r.value == old(t).nextEvent
      ensures r.Err? ==> t == old(t) || (replyLost && t == Committed(old(t), req, now))
      ensures old(failAfter).None? ==> t == Committed(old(t), req, now) && (r.Ok? <==> !replyLost)
    {
      var begin := t;
      var committed: bool;
      r, committed := Attempt(req, now);
      if !committed { t := begin; }
    }

    method Attempt(req: Request, now: int) returns (r: Result<EventId>, committed: bool)
      modifies this
      ensures committed ==> t == Committed(old(t), req, now)
      ensures r.Ok? ==> r.value == old(t).nextEvent
      ensures r.Ok? <==> committed && !replyLost
      ensures old(failAfter).None? ==> committed
    {
      var ok := Statement();
      if !ok { return Err, false; }
      var event := t.nextEvent;
      t := InsertEvent(t, req, now);

      if req.key.Some? {
        ok := Statement();
        if !ok { return Err, false; }
        var (dedup, won) := Dedup.Claim(t.dedup, DedupKeyOf(req), event, Dedup.Window(req.windowSeconds), now);
        if !won {
          ok := Statement();
          if !ok { return Err, false; }
          t := MarkDropped(t, event, DUPLICATE);
          committed, ok := Commit();
          return if ok then Ok(event) else Err, committed;
        }
        t := t.(dedup := dedup);
      }

      ok := Statement();
      if !ok { return Err, false; }
      var decision := EvaluateRules(ListEnabled(t.rules, req.source), req.verdicts);
      if decision.Decided? && decision.rule.action.Drop? {
        ok := Statement();
        if !ok { return Err, false; }
        t := MarkDropped(t, event, decision.rule.name);
      } else {
        ok := Statement();
        if !ok { return Err, false; }
        var enqueued := EnqueueDeliveriesTo(event, ChosenTargets(t, req));
        if enqueued.Err? { return Err, false; }
      }
      committed, ok := Commit();
      return if ok then Ok(event) else Err, committed;
    }
  }
}
