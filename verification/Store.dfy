/** The tables behind ingest and delivery, the job queue, and the writes that fan-out, recovery and
    attempt recording make to them. Primary keys are handed out in increasing order and never reused. */
module Store {
  import opened Options
  import Dedup
  import Rules

  type SourceId = Rules.SourceId
  type DestId = Rules.DestId
  type EventId = Dedup.EventId
  type DeliveryId = nat
  type JobId = nat

  datatype Status = Pending | Succeeded | Failed | DeadLettered

  /** A destination's retry settings, snapshotted onto every job. */
  datatype Policy = Policy(maxAttempts: int, backoffBase: int, backoffMax: int)

  datatype Destination = Destination(policy: Policy, paused: bool, isTunnel: bool)

  datatype Route = Route(source: SourceId, dest: DestId, enabled: bool)

  datatype Event = Event(
    source: SourceId,
    dedupeKey: Option<Dedup.DedupeKey>,
    verified: bool,
    droppedReason: Option<string>,
    receivedAt: int)

  datatype Delivery = Delivery(
    event: EventId,
    dest: DestId,
    job: Option<JobId>,
    status: Status,
    attemptCount: nat,
    deadLetteredAt: Option<int>)

  datatype Attempt = Attempt(delivery: DeliveryId, number: nat, code: Option<int>)

  /** One try's result, as far as status and history depend on it. */
  datatype AttemptResult = AttemptResult(code: Option<int>, succeeded: bool, retryable: bool)

  /** What a worker run returns to the queue: nil, JobCancel, JobSnooze or an error. */
  datatype Return = Done | Cancel | Snooze | Error

  /** How far a running job's worker has got. */
  datatype Pc =
    | Fetched
    | Loaded(event: EventId, dest: DestId)
    | Ready(event: EventId, isTunnel: bool)
    | Dispatched(result: AttemptResult)
    | Returned(out: Return)

  datatype JobState =
    | Available
    | Scheduled
    | Retryable
    | Running(pc: Pc)
    | Completed
    | Cancelled
    | Discarded

  datatype Job = Job(delivery: DeliveryId, policy: Policy, maxAttempts: int, attempt: int, state: JobState)

  /** Jobs are indexed by their id. */
  datatype Tables = Tables(
    events: map<EventId, Event>,
    destinations: map<DestId, Destination>,
    routes: seq<Route>,
    rules: seq<Rules.Rule>,
    dedup: Dedup.Index,
    deliveries: map<DeliveryId, Delivery>,
    attempts: seq<Attempt>,
    jobs: seq<Job>,
    nextEvent: EventId,
    nextDelivery: DeliveryId)

  datatype Target = Target(dest: DestId, policy: Policy)

  function NewJob(delivery: DeliveryId, policy: Policy): Job {
    Job(delivery, policy, if policy.maxAttempts < 1 then 1 else policy.maxAttempts, 0, Available)
  }

  function NewDelivery(event: EventId, dest: DestId, job: JobId): Delivery {
    Delivery(event, dest, Some(job), Pending, 0, None)
  }

  // Fan-out

  /** One target: a delivery, its job, and the link from the one to the other. */
  function EnqueueOne(t: Tables, event: EventId, target: Target): Tables {
    t.(deliveries := t.deliveries[t.nextDelivery := NewDelivery(event, target.dest, |t.jobs|)],
       jobs := t.jobs + [NewJob(t.nextDelivery, target.policy)],
       nextDelivery := t.nextDelivery + 1)
  }

  function FanOut(t: Tables, event: EventId, targets: seq<Target>): Tables {
    if targets == [] then t
    else EnqueueOne(FanOut(t, event, targets[..|targets| - 1]), event, targets[|targets| - 1])
  }

  /** After fan-out: old rows untouched, and for target i one delivery and one job that point at each other. */
  ghost predicate FannedOut(t: Tables, t': Tables, event: EventId, targets: seq<Target>) {
    && t' == t.(deliveries := t'.deliveries, jobs := t'.jobs, nextDelivery := t.nextDelivery + |targets|)
    && |t'.jobs| == |t.jobs| + |targets|
    && (forall j :: 0 <= j < |t.jobs| ==> t'.jobs[j] == t.jobs[j])
    && (forall d :: d in t'.deliveries <==> d in t.deliveries || t.nextDelivery <= d < t.nextDelivery + |targets|)
    && (forall d :: d in t.deliveries ==> t'.deliveries[d] == t.deliveries[d])
    && (forall i :: 0 <= i < |targets| ==>
          && t'.deliveries[t.nextDelivery + i] == Delivery(event, targets[i].dest, Some(|t.jobs| + i), Pending, 0, None)
          && t'.jobs[|t.jobs| + i]
             == Job(t.nextDelivery + i, targets[i].policy, Clamped(targets[i].policy), 0, Available))
  }

  /** The attempts a retry policy allows: at least one. */
  function Clamped(policy: Policy): (n: int)
    ensures n >= 1 && n >= policy.maxAttempts && (n == 1 || n == policy.maxAttempts)
  {
    if policy.maxAttempts < 1 then 1 else policy.maxAttempts
  }

  ghost predicate FreshIds(t: Tables) {
    (forall d :: d in t.deliveries ==> d < t.nextDelivery) && (forall e :: e in t.events ==> e < t.nextEvent)
  }

  lemma {:induction false} FanOutShape(t: Tables, event: EventId, targets: seq<Target>)
    requires FreshIds(t)
    ensures FannedOut(t, FanOut(t, event, targets), event, targets)
  {
    if targets != [] {
      var n := |targets| - 1;
      FanOutShape(t, event, targets[..n]);
      var mid := FanOut(t, event, targets[..n]);
      FanOutOneMore(t, mid, event, targets);
    }
  }

  lemma FanOutOneMore(t: Tables, mid: Tables, event: EventId, targets: seq<Target>)
    requires FreshIds(t) && targets != [] && FannedOut(t, mid, event, targets[..|targets| - 1])
    ensures FannedOut(t, EnqueueOne(mid, event, targets[|targets| - 1]), event, targets)
  {
    var n := |targets| - 1;
    assert forall i :: 0 <= i < n ==> targets[..n][i] == targets[i];
    var t' := EnqueueOne(mid, event, targets[n]);
    forall i | 0 <= i < |targets|
      ensures t'.deliveries[t.nextDelivery + i] == NewDelivery(event, targets[i].dest, |t.jobs| + i)
      ensures t'.jobs[|t.jobs| + i] == NewJob(t.nextDelivery + i, targets[i].policy)
    {
      if i < n {
        assert mid.deliveries[t.nextDelivery + i] == NewDelivery(event, targets[..n][i].dest, |t.jobs| + i);
      }
    }
  }

  // Which destinations an event goes to

  function RouteTargets(routes: seq<Route>, destinations: map<DestId, Destination>, source: SourceId): seq<Target> {
    if routes == [] then []
    else
      var rest, r := RouteTargets(routes[..|routes| - 1], destinations, source), routes[|routes| - 1];
      if r.source == source && r.enabled && r.dest in destinations
      then rest + [Target(r.dest, destinations[r.dest].policy)] else rest
  }

  /** Destinations by id: unknown ids are absent, a repeated id counts once. */
  function TargetsByIds(ids: seq<DestId>, destinations: map<DestId, Destination>): seq<Target> {
    if ids == [] then []
    else
      var init, id := ids[..|ids| - 1], ids[|ids| - 1];
      var rest := TargetsByIds(init, destinations);
      if id in destinations && id !in init then rest + [Target(id, destinations[id].policy)] else rest
  }

  /** Each destination at most once, with its current settings. */
  ghost predicate ProperTargets(targets: seq<Target>, destinations: map<DestId, Destination>) {
    && (forall i :: 0 <= i < |targets| ==>
          targets[i].dest in destinations && targets[i].policy == destinations[targets[i].dest].policy)
    && (forall i, j :: 0 <= i < j < |targets| ==> targets[i].dest != targets[j].dest)
  }

  ghost predicate Hits(targets: seq<Target>, dest: DestId) {
    exists i :: 0 <= i < |targets| && targets[i].dest == dest
  }

  ghost predicate Routed(routes: seq<Route>, source: SourceId, dest: DestId) {
    exists i :: 0 <= i < |routes| && routes[i].source == source && routes[i].dest == dest && routes[i].enabled
  }

  /** UNIQUE (source_id, destination_id). */
  predicate UniqueRoutes(routes: seq<Route>) {
    forall i, j :: 0 <= i < j < |routes| ==> routes[i].source != routes[j].source || routes[i].dest != routes[j].dest
  }

  lemma HitsOneMore(targets: seq<Target>, x: Target, dest: DestId)
    ensures Hits(targets + [x], dest) <==> Hits(targets, dest) || x.dest == dest
  {
    var all := targets + [x];
    assert all[|targets|] == x;
    if i :| 0 <= i < |targets| && targets[i].dest == dest { assert all[i] == targets[i]; }
  }

  lemma {:induction false} RouteTargetsMeaning(routes: seq<Route>, destinations: map<DestId, Destination>,
                                               source: SourceId, dest: DestId)
    requires UniqueRoutes(routes)
    ensures ProperTargets(RouteTargets(routes, destinations, source), destinations)
    ensures Hits(RouteTargets(routes, destinations, source), dest)
       <==> Routed(routes, source, dest) && dest in destinations
  {
    if routes != [] {
      var n := |routes| - 1;
      var init, r := routes[..n], routes[n];
      var rest := RouteTargets(init, destinations, source);
      RouteTargetsMeaning(init, destinations, source, dest);
      assert Routed(routes, source, dest) <==>
        Routed(init, source, dest) || (r.source == source && r.dest == dest && r.enabled) by {
        if i :| 0 <= i < n && init[i].source == source && init[i].dest == dest && init[i].enabled {
          assert routes[i] == init[i];
        }
        if i :| 0 <= i < |routes| && routes[i].source == source && routes[i].dest == dest && routes[i].enabled {
          if i < n { assert init[i] == routes[i]; }
        }
      }
      if r.source == source && r.enabled && r.dest in destinations {
        HitsOneMore(rest, Target(r.dest, destinations[r.dest].policy), dest);
        RouteTargetsMeaning(init, destinations, source, r.dest);
        assert !Routed(init, source, r.dest);
        ProperOneMore(rest, destinations, r.dest);
      }
    }
  }

  lemma ProperOneMore(targets: seq<Target>, destinations: map<DestId, Destination>, dest: DestId)
    requires ProperTargets(targets, destinations) && dest in destinations && !Hits(targets, dest)
    ensures ProperTargets(targets + [Target(dest, destinations[dest].policy)], destinations)
  {}

  lemma {:induction false} TargetsByIdsMeaning(ids: seq<DestId>, destinations: map<DestId, Destination>, dest: DestId)
    ensures ProperTargets(TargetsByIds(ids, destinations), destinations)
    ensures Hits(TargetsByIds(ids, destinations), dest) <==> dest in ids && dest in destinations
  {
    if ids != [] {
      var init, id := ids[..|ids| - 1], ids[|ids| - 1];
      assert ids == init + [id];
      TargetsByIdsMeaning(init, destinations, dest);
      if id in destinations && id !in init {
        HitsOneMore(TargetsByIds(init, destinations), Target(id, destinations[id].policy), dest);
        TargetsByIdsMeaning(init, destinations, id);
        ProperOneMore(TargetsByIds(init, destinations), destinations, id);
      }
    }
  }

  // Recovery and attempt recording

  /** Reset a dead-lettered row, enqueue a fresh job, link it. Updates of a row that is gone touch nothing. */
  function Recover(t: Tables, delivery: DeliveryId, policy: Policy): Tables {
    var t1 := t.(jobs := t.jobs + [NewJob(delivery, policy)]);
    if delivery !in t.deliveries then t1
    else
      t1.(deliveries := t.deliveries[delivery :=
            t.deliveries[delivery].(status := Pending, deadLetteredAt := None, job := Some(|t.jobs|))])
  }

  predicate HasAttempt(attempts: seq<Attempt>, delivery: DeliveryId, number: nat) {
    exists i :: 0 <= i < |attempts| && attempts[i].delivery == delivery && attempts[i].number == number
  }

  /** The new status and count, and the history row numbered by the new count, or nothing: the update needs its
      row, the insert must respect UNIQUE (delivery_id, attempt_number). */
  function RecordAttempt(t: Tables, delivery: DeliveryId, status: Status, code: Option<int>, now: int): Option<Tables> {
    if delivery !in t.deliveries then None
    else
      var row := t.deliveries[delivery];
      var number := row.attemptCount + 1;
      if HasAttempt(t.attempts, delivery, number) then None
      else
        Some(t.(deliveries := t.deliveries[delivery :=
                  row.(status := status, attemptCount := number,
                       deadLetteredAt := if status == DeadLettered then Some(now) else row.deadLetteredAt)],
                attempts := t.attempts + [Attempt(delivery, number, code)]))
  }

  // Deletions cascade to deliveries and attempts

  function KeepAttempts(attempts: seq<Attempt>, gone: set<DeliveryId>): seq<Attempt> {
    if attempts == [] then []
    else
      var rest, a := KeepAttempts(attempts[..|attempts| - 1], gone), attempts[|attempts| - 1];
      if a.delivery in gone then rest else rest + [a]
  }

  function Cascade(t: Tables, gone: set<DeliveryId>): Tables {
    t.(deliveries := t.deliveries - gone, attempts := KeepAttempts(t.attempts, gone))
  }

  function KeepRoutes(routes: seq<Route>, dests: set<DestId>, sources: set<SourceId>): seq<Route> {
    if routes == [] then []
    else
      var rest, r := KeepRoutes(routes[..|routes| - 1], dests, sources), routes[|routes| - 1];
      if r.dest in dests || r.source in sources then rest else rest + [r]
  }

  function DeliveriesTo(t: Tables, dest: DestId): set<DeliveryId> {
    set d | d in t.deliveries && t.deliveries[d].dest == dest
  }

  function EventsOf(t: Tables, source: SourceId): set<EventId> {
    set e | e in t.events && t.events[e].source == source
  }

  function DeliveriesOf(t: Tables, events: set<EventId>): set<DeliveryId> {
    set d | d in t.deliveries && t.deliveries[d].event in events
  }

  function DeleteDestination(t: Tables, dest: DestId): Tables {
    Cascade(t.(destinations := t.destinations - {dest}, routes := KeepRoutes(t.routes, {dest}, {})),
            DeliveriesTo(t, dest))
  }

  function KeepRules(rules: seq<Rules.Rule>, source: SourceId): seq<Rules.Rule> {
    if rules == [] then []
    else if rules[0].source == source then KeepRules(rules[1..], source)
    else [rules[0]] + KeepRules(rules[1..], source)
  }

  function DeleteSource(t: Tables, source: SourceId): Tables {
    var events := EventsOf(t, source);
    Cascade(
      t.(events := t.events - events,
         routes := KeepRoutes(t.routes, {}, {source}),
         rules := KeepRules(t.rules, source),
         dedup := map k | k in t.dedup && k.source != source :: t.dedup[k]),
      DeliveriesOf(t, events))
  }

  lemma {:induction false} KeptAttemptsAre(attempts: seq<Attempt>, gone: set<DeliveryId>, a: Attempt)
    ensures multiset(KeepAttempts(attempts, gone))[a] == if a.delivery in gone then 0 else multiset(attempts)[a]
  {
    if attempts != [] {
      var init, last := attempts[..|attempts| - 1], attempts[|attempts| - 1];
      assert attempts == init + [last];
      KeptAttemptsAre(init, gone, a);
    }
  }

  lemma {:induction false} KeptRoutesAre(routes: seq<Route>, dests: set<DestId>, sources: set<SourceId>, r: Route)
    ensures r in KeepRoutes(routes, dests, sources) <==> r in routes && r.dest !in dests && r.source !in sources
  {
    if routes != [] {
      var init, last := routes[..|routes| - 1], routes[|routes| - 1];
      assert routes == init + [last];
      KeptRoutesAre(init, dests, sources, r);
    }
  }

  lemma {:induction false} KeptRulesAre(rules: seq<Rules.Rule>, source: SourceId, r: Rules.Rule)
    ensures r in KeepRules(rules, source) <==> r in rules && r.source != source
  {
    if rules != [] {
      assert rules == [rules[0]] + rules[1..];
      KeptRulesAre(rules[1..], source, r);
    }
  }

  /** Deleting a destination deletes its routes, its deliveries and their attempts, and nothing else. */
  lemma DestinationDeleted(t: Tables, dest: DestId, d: DeliveryId, a: Attempt, r: Route)
    ensures var t' := DeleteDestination(t, dest);
            && t'.destinations == t.destinations - {dest}
            && (d in t'.deliveries <==> d in t.deliveries && t.deliveries[d].dest != dest)
            && (d in t'.deliveries ==> t'.deliveries[d] == t.deliveries[d])
            && (r in t'.routes <==> r in t.routes && r.dest != dest)
            && multiset(t'.attempts)[a] == (
                 if a.delivery in t.deliveries && t.deliveries[a.delivery].dest == dest then 0
                 else multiset(t.attempts)[a])
            && t' == t.(destinations := t'.destinations, routes := t'.routes, deliveries := t'.deliveries,
                        attempts := t'.attempts)
  {
    KeptAttemptsAre(t.attempts, DeliveriesTo(t, dest), a);
    KeptRoutesAre(t.routes, {dest}, {}, r);
    hide KeepAttempts, KeepRoutes;
  }

  /** Deleting a source deletes its events, rules, routes and dedupe keys, the deliveries of its events and their
      attempts, and nothing else. */
  lemma SourceDeleted(t: Tables, source: SourceId, e: EventId, d: DeliveryId, a: Attempt, r: Route, rule: Rules.Rule,
                      k: Dedup.Key)
    ensures var t' := DeleteSource(t, source);
            && (e in t'.events <==> e in t.events && t.events[e].source != source)
            && (e in t'.events ==> t'.events[e] == t.events[e])
            && (d in t'.deliveries <==> d in t.deliveries && !OfSource(t, d, source))
            && (d in t'.deliveries ==> t'.deliveries[d] == t.deliveries[d])
            && (r in t'.routes <==> r in t.routes && r.source != source)
            && (rule in t'.rules <==> rule in t.rules && rule.source != source)
            && (k in t'.dedup <==> k in t.dedup && k.source != source) && (k in t'.dedup ==> t'.dedup[k] == t.dedup[k])
            && multiset(t'.attempts)[a] == (
                 if a.delivery in t.deliveries && OfSource(t, a.delivery, source) then 0 else multiset(t.attempts)[a])
            && t' == t.(events := t'.events, routes := t'.routes, rules := t'.rules, dedup := t'.dedup,
                        deliveries := t'.deliveries, attempts := t'.attempts)
  {
    KeptAttemptsAre(t.attempts, DeliveriesOf(t, EventsOf(t, source)), a);
    KeptRoutesAre(t.routes, {}, {source}, r);
    KeptRulesAre(t.rules, source, rule);
    hide KeepAttempts, KeepRoutes, KeepRules;
  }

  ghost predicate OfSource(t: Tables, d: DeliveryId, source: SourceId)
    requires d in t.deliveries
  {
    t.deliveries[d].event in t.events && t.events[t.deliveries[d].event].source == source
  }
}
