/** The tunnel connection: concurrent Deliver calls, one reader, timeouts and close, as interleaved atomic
    steps. A disabled step leaves the state as it is, so every list of steps is a run. */
module Tunnel {
  import opened Options

  type DeliveryId = nat
  type CallId = nat

  datatype Ack = Ack(id: DeliveryId, code: int)

  /** How a Deliver call ends. `at` is the position of the ack among all acks the reader looked up. */
  datatype Outcome = Acked(ack: Ack, at: nat) | ErrClosed | ErrWrite | ErrTimeout

  datatype Pc = Writing | Waiting | Leaving(out: Outcome) | Returned(out: Outcome)

  /** One call with its own one-slot channel; `since` counts the acks looked up before it registered. */
  datatype Call = Call(id: DeliveryId, since: nat, slot: Option<(Ack, nat)>, pc: Pc) {
    predicate InFlight() { !pc.Returned? }
    predicate Listening() { pc.Writing? || pc.Waiting? }
  }

  datatype Reader =
    | Reading
    | Looking(ack: Ack)
    | Sending(call: CallId, ack: Ack, at: nat)
    | Closing
    | Unregistered
    | Ended

  /** An ack as the reader looked it up, and the call it found registered. */
  datatype Seen = Seen(ack: Ack, call: Option<CallId>)

  /** `pending` is None once it has been set to nil; `closes` counts closings of the done channel. */
  datatype State = State(
    pending: Option<map<DeliveryId, CallId>>,
    calls: seq<Call>,
    reader: Reader,
    closes: nat,
    seen: seq<Seen>)

  const INIT := State(Some(map[]), [], Reading, 0, [])

  datatype Step =
    | Start(id: DeliveryId)
    | Wrote(c: CallId)
    | WriteFailed(c: CallId)
    | Receive(c: CallId)
    | SeeDone(c: CallId)
    | Expire(c: CallId)
    | Leave(c: CallId)
    | ReadFrame(frame: Option<Ack>)
    | Lookup
    | Send
    | ReadFail
    | ClosePending
    | CloseDone

  function SetPc(s: State, c: CallId, pc: Pc): State
    requires c < |s.calls|
  {
    s.(calls := s.calls[c := s.calls[c].(pc := pc)])
  }

  function Apply(s: State, step: Step): State {
    match step
    case Start(id) =>
      if s.pending.None? then
        s.(calls := s.calls + [Call(id, |s.seen|, None, Returned(ErrClosed))])
      else
        s.(calls := s.calls + [Call(id, |s.seen|, None, Writing)],
           pending := Some(s.pending.value[id := |s.calls|]))
    case Wrote(c) =>
      if c < |s.calls| && s.calls[c].pc.Writing? then SetPc(s, c, Waiting) else s
    case WriteFailed(c) =>
      if c < |s.calls| && s.calls[c].pc.Writing? then SetPc(s, c, Leaving(ErrWrite)) else s
    case Receive(c) =>
      if c < |s.calls| && s.calls[c].pc.Waiting? && s.calls[c].slot.Some? then
        var (ack, at) := s.calls[c].slot.value;
        s.(calls := s.calls[c := s.calls[c].(slot := None, pc := Leaving(Acked(ack, at)))])
      else s
    case SeeDone(c) =>
      if c < |s.calls| && s.calls[c].pc.Waiting? && s.closes > 0 then SetPc(s, c, Leaving(ErrClosed)) else s
    case Expire(c) =>
      if c < |s.calls| && s.calls[c].pc.Waiting? then SetPc(s, c, Leaving(ErrTimeout)) else s
    case Leave(c) =>
      if c < |s.calls| && s.calls[c].pc.Leaving? then
        var left := SetPc(s, c, Returned(s.calls[c].pc.out));
        if s.pending.None? then left
        else left.(pending := Some(s.pending.value - {s.calls[c].id}))
      else s
    case ReadFrame(frame) =>
      if s.reader.Reading? && frame.Some? then s.(reader := Looking(frame.value)) else s
    case Lookup =>
      if s.reader.Looking? && s.pending.Some? then
        var ack := s.reader.ack;
        if ack.id in s.pending.value then
          var c := s.pending.value[ack.id];
          s.(reader := Sending(c, ack, |s.seen|), seen := s.seen + [Seen(ack, Some(c))])
        else s.(reader := Reading, seen := s.seen + [Seen(ack, None)])
      else s
    case Send =>
      if s.reader.Sending? && s.reader.call < |s.calls| then
        var c := s.reader.call;
        if s.calls[c].slot.Some? then s.(reader := Reading)
        else
          s.(reader := Reading,
             calls := s.calls[c := s.calls[c].(slot := Some((s.reader.ack, s.reader.at)))])
      else s
    case ReadFail => if s.reader.Reading? then s.(reader := Closing) else s
    case ClosePending => if s.reader.Closing? then s.(reader := Unregistered, pending := None) else s
    case CloseDone => if s.reader.Unregistered? then s.(reader := Ended, closes := s.closes + 1) else s
  }

  function Run(steps: seq<Step>): State {
    if steps == [] then INIT else Apply(Run(steps[..|steps| - 1]), steps[|steps| - 1])
  }

  /** No two calls in flight carry the same delivery id. */
  ghost predicate Distinct(s: State) {
    forall c, d :: 0 <= c < d < |s.calls| && s.calls[c].InFlight() && s.calls[d].InFlight()
      ==> s.calls[c].id != s.calls[d].id
  }

  ghost predicate DistinctRun(steps: seq<Step>) {
    Distinct(Run(steps)) && (steps != [] ==> DistinctRun(steps[..|steps| - 1]))
  }

  /** While this call is in flight no other call with its id is; other calls may clash as they like. */
  ghost predicate Alone(s: State, c: CallId) {
    c < |s.calls| && s.calls[c].InFlight() ==>
      forall d :: 0 <= d < |s.calls| && d != c && s.calls[d].InFlight() ==> s.calls[d].id != s.calls[c].id
  }

  ghost predicate AloneRun(steps: seq<Step>, c: CallId) {
    Alone(Run(steps), c) && (steps != [] ==> AloneRun(steps[..|steps| - 1], c))
  }

  lemma {:induction false} DistinctMeansAlone(steps: seq<Step>, c: CallId)
    requires DistinctRun(steps)
    ensures AloneRun(steps, c)
  {
    if steps != [] { DistinctMeansAlone(steps[..|steps| - 1], c); }
  }

  /** Position k holds the first ack for call c that was looked up while c was registered. */
  ghost predicate FirstAck(call: Call, c: CallId, seen: seq<Seen>, k: nat) {
    && call.since <= k < |seen|
    && seen[k].ack.id == call.id
    && seen[k].call == Some(c)
    && NoAckBefore(seen, call.id, call.since, k)
  }

  ghost predicate NoAckBefore(seen: seq<Seen>, id: DeliveryId, since: nat, k: nat)
    requires k <= |seen|
  {
    forall i :: since <= i < k ==> seen[i].ack.id != id
  }

  // What every run keeps, shared ids included

  ghost predicate ReaderInv(s: State) {
    && (s.pending.None? <==> s.reader.Unregistered? || s.reader.Ended?)
    && s.closes == (if s.reader.Ended? then 1 else 0)
  }

  /** What the pending map holds is in flight, under its own id. */
  ghost predicate MapInv(s: State) {
    s.pending.Some? ==>
      forall id :: id in s.pending.value ==>
        var c := s.pending.value[id];
        c < |s.calls| && s.calls[c].InFlight() && s.calls[c].id == id
  }

  /** The ack looked up at this position was found to be for this call. */
  ghost predicate From(seen: seq<Seen>, c: CallId, ack: Ack, at: nat) {
    at < |seen| && seen[at] == Seen(ack, Some(c))
  }

  ghost predicate CallSourced(call: Call, c: CallId, seen: seq<Seen>) {
    && (call.slot.Some? ==> From(seen, c, call.slot.value.0, call.slot.value.1))
    && (!call.Listening() && call.pc.out.Acked? ==> From(seen, c, call.pc.out.ack, call.pc.out.at))
  }

  /** No ack in the reader's hand, in a slot or in an outcome comes from nowhere. */
  ghost predicate Sourced(s: State) {
    && (s.reader.Sending? ==>
          s.reader.call < |s.calls| && From(s.seen, s.reader.call, s.reader.ack, s.reader.at))
    && forall c :: 0 <= c < |s.calls| ==> CallSourced(s.calls[c], c, s.seen)
  }

  ghost predicate Base(s: State) { ReaderInv(s) && MapInv(s) && Sourced(s) }

  lemma MapStep(s: State, step: Step)
    requires MapInv(s)
    ensures MapInv(Apply(s, step))
  {}

  lemma FromLater(seen: seq<Seen>, x: Seen, call: Call, c: CallId)
    requires CallSourced(call, c, seen)
    ensures CallSourced(call, c, seen + [x])
  {}

  lemma SourcedStep(s: State, step: Step)
    requires Base(s)
    ensures Sourced(Apply(s, step))
  {
    if step.Lookup? && s.reader.Looking? && s.pending.Some? {
      SourcedLookup(s);
    }
  }

  lemma SourcedLookup(s: State)
    requires Base(s) && s.reader.Looking? && s.pending.Some?
    ensures Sourced(Apply(s, Lookup))
  {
    hide CallSourced;
    var s' := Apply(s, Lookup);
    forall c | 0 <= c < |s'.calls| ensures CallSourced(s'.calls[c], c, s'.seen) {
      FromLater(s.seen, s'.seen[|s.seen|], s.calls[c], c);
    }
  }

  lemma {:induction false} BaseHolds(steps: seq<Step>)
    ensures Base(Run(steps))
  {
    if steps != [] {
      hide Apply, Base;
      var init, step := steps[..|steps| - 1], steps[|steps| - 1];
      BaseHolds(init);
      BaseStep(Run(init), step);
    }
  }

  lemma ReaderStep(s: State, step: Step)
    requires ReaderInv(s)
    ensures ReaderInv(Apply(s, step))
  {}

  lemma BaseStep(s: State, step: Step)
    requires Base(s)
    ensures Base(Apply(s, step))
  {
    hide Apply, ReaderInv, MapInv, Sourced;
    ReaderStep(s, step);
    MapStep(s, step);
    SourcedStep(s, step);
  }

  // What a run keeps of a call that is alone with its id

  ghost predicate SendingTo(reader: Reader, c: CallId) { reader.Sending? && reader.call == c }

  /** Where the first ack for a call is: unseen, in the reader's hand, in the slot, or in the outcome. */
  ghost predicate Mailbox(call: Call, c: CallId, reader: Reader, seen: seq<Seen>) {
    && call.since <= |seen|
    && (call.Listening() ==>
          match call.slot
          case Some((ack, at)) => FirstAck(call, c, seen, at) && ack == seen[at].ack
          case None =>
            if SendingTo(reader, c) then FirstAck(call, c, seen, reader.at)
            else NoAckBefore(seen, call.id, call.since, |seen|))
    && (!call.Listening() && call.pc.out.Acked? ==>
          FirstAck(call, c, seen, call.pc.out.at) && call.pc.out.ack == seen[call.pc.out.at].ack)
  }

  /** A call in flight is found under its id. */
  ghost predicate Registered(s: State, c: CallId)
    requires c < |s.calls|
  {
    s.pending.Some? && s.calls[c].InFlight() ==>
      s.calls[c].id in s.pending.value && s.pending.value[s.calls[c].id] == c
  }

  ghost predicate CallInv(s: State, c: CallId) {
    c < |s.calls| ==> Registered(s, c) && Mailbox(s.calls[c], c, s.reader, s.seen)
  }

  lemma RegisteredStep(s: State, step: Step, c: CallId)
    requires c < |s.calls| && Registered(s, c) && Alone(s, c) && Alone(Apply(s, step), c)
    ensures c < |Apply(s, step).calls| && Registered(Apply(s, step), c)
  {
    if step.Start? && s.pending.Some? && s.calls[c].InFlight() {
      var s' := Apply(s, step);
      assert s'.calls[c] == s.calls[c] && s'.calls[|s.calls|].id == step.id;
    }
  }

  lemma RegisteredFirst(s: State, step: Step, c: CallId)
    requires c == |s.calls| && c < |Apply(s, step).calls|
    ensures Registered(Apply(s, step), c)
  {}

  /** Only the message part of the state matters to a mailbox. */
  lemma MailboxFramed(call: Call, c: CallId, reader: Reader, reader': Reader, seen: seq<Seen>)
    requires Mailbox(call, c, reader, seen)
    requires reader' == reader || (!SendingTo(reader, c) && !SendingTo(reader', c))
    ensures Mailbox(call, c, reader', seen)
  {}

  lemma MailboxLookup(s: State, c: CallId)
    requires Base(s) && c < |s.calls| && Registered(s, c) && Mailbox(s.calls[c], c, s.reader, s.seen)
    requires s.reader.Looking? && s.pending.Some?
    ensures var s' := Apply(s, Lookup); Mailbox(s'.calls[c], c, s'.reader, s'.seen)
  {
    hide Sourced, ReaderInv;
    var s' := Apply(s, Lookup);
    assert forall i :: 0 <= i < |s.seen| ==> s'.seen[i] == s.seen[i];
  }

  lemma MailboxSend(s: State, c: CallId)
    requires Base(s) && c < |s.calls| && Mailbox(s.calls[c], c, s.reader, s.seen)
    ensures var s' := Apply(s, Send); Mailbox(s'.calls[c], c, s'.reader, s'.seen)
  {
    hide MapInv, ReaderInv, CallSourced;
  }

  lemma MailboxCall(s: State, step: Step, c: CallId)
    requires c < |s.calls| ==> Mailbox(s.calls[c], c, s.reader, s.seen)
    requires c == |s.calls| ==> !SendingTo(s.reader, c)
    requires c < |Apply(s, step).calls|
    requires step.Start? || step.Wrote? || step.WriteFailed? || step.Receive? || step.SeeDone? || step.Expire?
             || step.Leave?
    ensures var s' := Apply(s, step); Mailbox(s'.calls[c], c, s'.reader, s'.seen)
  {
    hide FirstAck;
    if c < |s.calls| { AckOnce(s, step, c); }
  }

  /** A step of a call does not change which ack is its first. */
  lemma AckOnce(s: State, step: Step, c: CallId)
    requires c < |s.calls|
    ensures var s' := Apply(s, step);
            && c < |s'.calls| && s'.calls[c].id == s.calls[c].id && s'.calls[c].since == s.calls[c].since
            && forall k :: FirstAck(s.calls[c], c, s.seen, k) == FirstAck(s'.calls[c], c, s.seen, k)
  {}

  lemma MailboxStep(s: State, step: Step, c: CallId)
    requires Base(s) && c < |Apply(s, step).calls|
    requires c < |s.calls| ==> Registered(s, c) && Mailbox(s.calls[c], c, s.reader, s.seen)
    ensures var s' := Apply(s, step); Mailbox(s'.calls[c], c, s'.reader, s'.seen)
  {
    hide Mailbox, MapInv, ReaderInv, CallSourced, Registered;
    if step.Lookup? {
      if s.reader.Looking? && s.pending.Some? { MailboxLookup(s, c); }
    } else if step.Send? {
      MailboxSend(s, c);
    } else if step.ReadFrame? || step.ReadFail? || step.ClosePending? || step.CloseDone? {
      MailboxFramed(s.calls[c], c, s.reader, Apply(s, step).reader, s.seen);
    } else {
      MailboxCall(s, step, c);
    }
  }

  lemma {:induction false} CallInvHolds(steps: seq<Step>, c: CallId)
    requires AloneRun(steps, c)
    ensures CallInv(Run(steps), c)
  {
    if steps != [] {
      var init, step := steps[..|steps| - 1], steps[|steps| - 1];
      CallInvHolds(init, c);
      BaseHolds(init);
      CallInvStep(Run(init), step, c);
    }
  }

  lemma CallInvStep(s: State, step: Step, c: CallId)
    requires Base(s) && CallInv(s, c) && Alone(s, c) && Alone(Apply(s, step), c)
    ensures CallInv(Apply(s, step), c)
  {
    hide Mailbox, Registered, Base, Alone;
    CallsGrow(s, step);
    if c < |s.calls| {
      RegisteredStep(s, step, c);
      MailboxStep(s, step, c);
    } else if c < |Apply(s, step).calls| {
      RegisteredFirst(s, step, c);
      MailboxStep(s, step, c);
    }
  }

  lemma CallsGrow(s: State, step: Step)
    ensures |s.calls| <= |Apply(s, step).calls| <= |s.calls| + 1
  {}

  // What the protocol promises

  /** A call that was alone with its id and returns an ack returns the first ack looked up with its id while it was
      registered, whatever other calls do. */
  lemma AckCorrelation(steps: seq<Step>, c: CallId)
    requires AloneRun(steps, c) && c < |Run(steps).calls|
    requires Run(steps).calls[c].pc.Returned? && Run(steps).calls[c].pc.out.Acked?
    ensures var s := Run(steps); var out := s.calls[c].pc.out;
            FirstAck(s.calls[c], c, s.seen, out.at) && out.ack == s.seen[out.at].ack
  {
    CallInvHolds(steps, c);
  }

  /** In every run, shared ids included, no ack resolves two calls, and none resolves a call it was not found for. */
  lemma AckResolvesOne(steps: seq<Step>, c: CallId, d: CallId)
    requires c < |Run(steps).calls| && d < |Run(steps).calls|
    requires Run(steps).calls[c].pc.Returned? && Run(steps).calls[c].pc.out.Acked?
    requires Run(steps).calls[d].pc.Returned? && Run(steps).calls[d].pc.out.Acked?
    ensures var s := Run(steps); var out := s.calls[c].pc.out;
            From(s.seen, c, out.ack, out.at) && (s.calls[d].pc.out.at == out.at ==> c == d)
  {
    BaseHolds(steps);
    var s := Run(steps);
    assert CallSourced(s.calls[c], c, s.seen) && CallSourced(s.calls[d], d, s.seen);
  }

  /** No lost wake-up by an ack: once an ack for a waiting call that is alone with its id has been looked up, it is in
      the call's slot, where Receive returns it, or in the reader's hand with the slot free, where Send puts it. */
  lemma AckNotLost(steps: seq<Step>, c: CallId, k: nat)
    requires AloneRun(steps, c) && c < |Run(steps).calls| && Run(steps).calls[c].pc.Waiting?
    requires Run(steps).calls[c].since <= k < |Run(steps).seen|
    requires Run(steps).seen[k].ack.id == Run(steps).calls[c].id
    ensures var s := Run(steps);
            var s' := if s.calls[c].slot.Some? then s else Apply(s, Send);
            var done := Apply(s', Receive(c)).calls[c].pc;
            done.Leaving? && done.out.Acked? && FirstAck(s.calls[c], c, s.seen, done.out.at)
  {
    CallInvHolds(steps, c);
    BaseHolds(steps);
    hide Run;
  }

  /** No leak in any run: while open, a registered id is that of a call in flight. With distinct ids the registered ids
      are exactly those of the calls in flight. */
  lemma RegisteredExactly(steps: seq<Step>)
    requires Run(steps).pending.Some?
    ensures var s := Run(steps);
            var inFlight := set c | 0 <= c < |s.calls| && s.calls[c].InFlight() :: s.calls[c].id;
            s.pending.value.Keys <= inFlight && (DistinctRun(steps) ==> s.pending.value.Keys == inFlight)
  {
    BaseHolds(steps);
    var s := Run(steps);
    forall id | id in s.pending.value
      ensures exists c :: 0 <= c < |s.calls| && s.calls[c].InFlight() && s.calls[c].id == id
    {
      var c := s.pending.value[id];
      assert s.calls[c].id == id;
    }
    if DistinctRun(steps) {
      forall c | 0 <= c < |s.calls| && s.calls[c].InFlight() ensures s.calls[c].id in s.pending.value {
        DistinctMeansAlone(steps, c);
        CallInvHolds(steps, c);
      }
    }
  }

  /** In every run, whatever frames arrive, the reader is back at the socket after at most two steps of its own. */
  lemma ReaderNeverBlocks(steps: seq<Step>)
    ensures Run(steps).reader.Looking? ==> Apply(Apply(Run(steps), Lookup), Send).reader.Reading?
    ensures Run(steps).reader.Sending? ==> Apply(Run(steps), Send).reader.Reading?
  {
    BaseHolds(steps);
    hide Run;
  }

  /** Closing wakes everyone, shared ids included: after the read loop ended, done has been closed exactly once, each
      waiting call can return, and each new call returns ErrClosed at once. */
  lemma ClosedForGood(steps: seq<Step>, c: CallId, id: DeliveryId)
    requires Run(steps).reader.Ended?
    ensures var s := Run(steps);
            && s.closes == 1
            && (c < |s.calls| && s.calls[c].pc.Waiting? ==> Apply(s, SeeDone(c)).calls[c].pc == Leaving(ErrClosed))
            && Apply(s, Start(id)).calls == s.calls + [Call(id, |s.seen|, None, Returned(ErrClosed))]
  {
    BaseHolds(steps);
    hide Run;
  }

  /** Nothing reopens a connection: done stays closed, once, in every continuation, and no more acks are looked up. */
  lemma {:induction false} StaysClosed(steps: seq<Step>, more: seq<Step>)
    requires Run(steps).reader.Ended?
    ensures Run(steps + more).reader.Ended? && Run(steps + more).closes == 1
    ensures Run(steps + more).pending.None? && Run(steps + more).seen == Run(steps).seen
  {
    hide Apply, Base;
    if more == [] {
      assert steps + more == steps;
      BaseHolds(steps);
      ClosedOnce(Run(steps));
    } else {
      var init := more[..|more| - 1];
      StaysClosed(steps, init);
      assert (steps + more)[..|steps + more| - 1] == steps + init;
      ClosedStep(Run(steps + init), more[|more| - 1]);
    }
  }

  lemma ClosedOnce(s: State)
    requires Base(s) && s.reader.Ended?
    ensures s.pending.None? && s.closes == 1
  {}

  lemma ClosedStep(s: State, step: Step)
    requires s.reader.Ended? && s.pending.None?
    ensures var s' := Apply(s, step);
            s'.reader.Ended? && s'.pending.None? && s'.closes == s.closes && s'.seen == s.seen
  {}

  // Every call can end

  /** Whatever happened before, on an open connection whose reader is at the socket: a new call is registered, and when
      its frame is written and an ack for its id arrives, it returns that ack and is no longer registered. */
  lemma CallIsAnswered(steps: seq<Step>, id: DeliveryId, code: int)
    requires Run(steps).reader.Reading?
    ensures var s, c := Run(steps), |Run(steps).calls|;
            var s1 := Apply(s, Start(id));
            var s2 := Apply(Apply(s1, Wrote(c)), ReadFrame(Some(Ack(id, code))));
            var s3 := Apply(Apply(s2, Lookup), Send);
            var s4 := Apply(Apply(s3, Receive(c)), Leave(c));
            && s1.pending.Some? && id in s1.pending.value && |s1.calls| == c + 1 && s1.calls[c].id == id
            && s3.reader.Reading? && s3.calls[c].slot.Some? && s3.calls[c].slot.value.0 == Ack(id, code)
            && s4.calls[c].pc == Returned(Acked(Ack(id, code), |s.seen|))
            && s4.pending.Some? && id !in s4.pending.value
  {
    BaseHolds(steps);
    hide Run, MapInv, Sourced;
    var s, c := Run(steps), |Run(steps).calls|;
    assert s.pending.Some?;
    var s1 := Apply(s, Start(id));
    assert s1.calls[c] == Call(id, |s.seen|, None, Writing) && s1.pending.value[id] == c;
    var s2 := Apply(Apply(s1, Wrote(c)), ReadFrame(Some(Ack(id, code))));
    assert s2.calls[c] == Call(id, |s.seen|, None, Waiting) && s2.pending == s1.pending && s2.seen == s.seen;
    assert s2.reader == Looking(Ack(id, code));
    var s3 := Apply(Apply(s2, Lookup), Send);
    assert s3.calls[c] == Call(id, |s.seen|, Some((Ack(id, code), |s.seen|)), Waiting) && s3.pending == s1.pending;
  }

  /** A call that cannot write, or whose deadline passes, returns with that error and is no longer registered. */
  lemma CallGivesUp(s: State, c: CallId)
    requires c < |s.calls|
    ensures s.calls[c].pc.Writing? ==>
      Apply(Apply(s, WriteFailed(c)), Leave(c)).calls[c] == s.calls[c].(pc := Returned(ErrWrite))
    ensures s.calls[c].pc.Waiting? ==>
      Apply(Apply(s, Expire(c)), Leave(c)).calls[c] == s.calls[c].(pc := Returned(ErrTimeout))
    ensures s.pending.Some? && s.calls[c].pc.Leaving? ==>
      Apply(s, Leave(c)).pending == Some(s.pending.value - {s.calls[c].id})
  {}

  /** A frame that is no ack, and the end of the socket, are the reader's other two ways on. */
  lemma ReaderGoesOn(s: State)
    requires s.reader.Reading?
    ensures Apply(s, ReadFrame(None)) == s
    ensures Apply(Apply(Apply(s, ReadFail), ClosePending), CloseDone)
         == s.(reader := Ended, pending := None, closes := s.closes + 1)
  {}

  // Why ids in flight must be distinct

  const CLASH: seq<Step> :=
    [Start(7), Wrote(0), Start(7), Wrote(1), Expire(0), Leave(0), ReadFrame(Some(Ack(7, 200))), Lookup]

  /** Two calls with one id: the first to leave unregisters the second, whose ack is then dropped unseen. */
  lemma SharedIdLosesAck()
    ensures !DistinctRun(CLASH) && !AloneRun(CLASH, 1)
    ensures var s := Run(CLASH);
            && |s.calls| == 2 && s.calls[1] == Call(7, 0, None, Waiting) && s.reader.Reading?
            && s.seen == [Seen(Ack(7, 200), None)]
  {
    hide Run, DistinctRun, AloneRun;
    Clashes();
    DistinctPrefix(CLASH, 3);
    AlonePrefix(CLASH, 1, 3);
    RunPrefix(CLASH, 3);
    RunPrefix(CLASH, 4);
    RunPrefix(CLASH, 5);
    var left := Run(CLASH[..6]);
    assert left.pending.value == map[];
    RunPrefix(CLASH, 6);
    RunPrefix(CLASH, 7);
    assert CLASH[..8] == CLASH;
  }

  lemma Clashes()
    ensures var s := Run(CLASH[..3]);
            && s == State(Some(map[7 := 1]), [Call(7, 0, None, Waiting), Call(7, 0, None, Writing)], Reading, 0, [])
            && !Distinct(s) && !Alone(s, 1)
  {
    hide Run;
    assert Run(CLASH[..0]) == INIT by { RunNone(); }
    RunPrefix(CLASH, 0);
    RunPrefix(CLASH, 1);
    RunPrefix(CLASH, 2);
    var s := Run(CLASH[..3]);
    assert s.pending.value == map[7 := 1];
    assert s.calls[0].InFlight() && s.calls[1].InFlight();
  }

  lemma {:induction false} AlonePrefix(steps: seq<Step>, c: CallId, k: nat)
    requires k <= |steps|
    ensures AloneRun(steps, c) ==> Alone(Run(steps[..k]), c)
    decreases |steps|
  {
    if k == |steps| {
      assert steps[..k] == steps;
    } else {
      var init := steps[..|steps| - 1];
      AlonePrefix(init, c, k);
      assert init[..k] == steps[..k];
    }
  }

  lemma RunNone()
    ensures Run([]) == INIT
  {}

  lemma RunPrefix(steps: seq<Step>, k: nat)
    requires k < |steps|
    ensures Run(steps[..k + 1]) == Apply(Run(steps[..k]), steps[k])
  {
    assert steps[..k + 1][..k] == steps[..k];
  }

  lemma {:induction false} DistinctPrefix(steps: seq<Step>, k: nat)
    requires k <= |steps|
    ensures DistinctRun(steps) ==> DistinctRun(steps[..k]) && Distinct(Run(steps[..k]))
    decreases |steps|
  {
    if k == |steps| {
      assert steps[..k] == steps;
    } else {
      var init := steps[..|steps| - 1];
      DistinctPrefix(init, k);
      assert init[..k] == steps[..k];
    }
  }
}
