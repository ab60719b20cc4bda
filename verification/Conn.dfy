/** The tunnel connection as an object: each critical section and channel operation is a method, and each is one
    step of the protocol. What every run of the protocol keeps therefore holds of the object. */
module Conn {
  import opened Options
  import opened Tunnel
  import opened Traces

  /** A call's one-slot channel, with the id that the call registered it under. */
  class Channel {
    var slot: Option<Ack>
    const id: DeliveryId
    ghost const call: CallId

    constructor (delivery: DeliveryId, ghost owner: CallId)
      ensures slot == None && id == delivery && call == owner
    {
      slot, id, call := None, delivery, owner;
    }
  }

  /** The first ack for an id among the frames read. */
  function FirstFor(frames: seq<Option<Ack>>, id: DeliveryId): Option<Ack> {
    if frames == [] then None
    else
      var before, last := FirstFor(frames[..|frames| - 1], id), frames[|frames| - 1];
      if before.None? && last.Some? && last.value.id == id then last else before
  }

  /** A one-slot channel keeps what it holds. */
  function Kept(slot: Option<Ack>, offered: Option<Ack>): Option<Ack> {
    if slot.Some? then slot else offered
  }

  // Steps, from where the object stands

  /** Steps that touch none of the object's fields. */
  predicate Outside(step: Step) {
    step.Wrote? || step.WriteFailed? || step.SeeDone? || step.Expire? || step.ReadFrame? || step.ReadFail?
  }

  /** A place in the read loop that is passed over: nothing to look up, or nobody to send to. */
  predicate Skipped(s: State, step: Step) {
    (step.Lookup? && !s.reader.Looking?) || (step.Send? && !s.reader.Sending?)
  }

  predicate CallStep(step: Step) {
    || step.Start? || step.Wrote? || step.WriteFailed? || step.Receive? || step.SeeDone? || step.Expire? || step.Leave?
  }

  /** A receive has something to receive, and a call that leaves was about to. Disabled steps do nothing, so that no run
      is lost by leaving them out. */
  predicate Enabled(s: State, step: Step) {
    && (step.Receive? ==> step.c < |s.calls| && s.calls[step.c].pc.Waiting? && s.calls[step.c].slot.Some?)
    && (step.Leave? ==> step.c < |s.calls| && s.calls[step.c].pc.Leaving?)
  }

  lemma FieldsKept(s: State, step: Step)
    requires Outside(step) || Skipped(s, step)
    ensures var s' := Apply(s, step);
            && s'.pending == s.pending && s'.closes == s.closes && |s'.calls| == |s.calls|
            && forall c :: 0 <= c < |s.calls| ==> s'.calls[c].id == s.calls[c].id && s'.calls[c].slot == s.calls[c].slot
  {}

  ghost predicate Doable(trace: seq<Step>, steps: seq<Step>) {
    forall i :: 0 <= i < |steps| ==> CallStep(steps[i]) && Enabled(Run(trace + steps[..i]), steps[i])
  }

  /** The reader's steps on some frames. */
  function Turns(frames: seq<Option<Ack>>): (steps: seq<Step>)
    ensures |steps| == 3 * |frames|
  {
    if frames == [] then []
    else Turns(frames[..|frames| - 1]) + [ReadFrame(frames[|frames| - 1]), Lookup, Send]
  }

  /** All its steps, to the end. */
  function Reads(frames: seq<Option<Ack>>): seq<Step> { Turns(frames) + [ReadFail, ClosePending, CloseDone] }

  lemma {:induction false} TurnReads(frames: seq<Option<Ack>>, i: nat)
    requires i < |frames|
    ensures var own := Reads(frames);
            own[3 * i] == ReadFrame(frames[i]) && own[3 * i + 1] == Lookup && own[3 * i + 2] == Send
  {
    if i < |frames| - 1 {
      TurnReads(frames[..|frames| - 1], i);
    }
  }

  lemma EndReads(frames: seq<Option<Ack>>)
    ensures var own, n := Reads(frames), 3 * |frames|;
            |own| == n + 3 && own[n] == ReadFail && own[n + 1] == ClosePending && own[n + 2] == CloseDone
  {}

  lemma InterleaveNone(start: seq<Step>, own: seq<Step>, others: nat -> seq<Step>)
    ensures start + Interleave(own, others, 0) == start
  {}

  lemma InterleaveNext(start: seq<Step>, own: seq<Step>, others: nat -> seq<Step>, n: nat)
    requires n < |own|
    ensures start + Interleave(own, others, n + 1) == start + Interleave(own, others, n) + others(n) + [own[n]]
  {}

  lemma InterleaveThree(start: seq<Step>, own: seq<Step>, others: nat -> seq<Step>, n: nat)
    requires n + 3 <= |own|
    ensures start + Interleave(own, others, n + 1) == start + Interleave(own, others, n) + others(n) + [own[n]]
    ensures start + Interleave(own, others, n + 2)
         == start + Interleave(own, others, n + 1) + others(n + 1) + [own[n + 1]]
    ensures start + Interleave(own, others, n + 3)
         == start + Interleave(own, others, n + 2) + others(n + 2) + [own[n + 2]]
  {
    hide Interleave;
    InterleaveNext(start, own, others, n);
    InterleaveNext(start, own, others, n + 1);
    InterleaveNext(start, own, others, n + 2);
  }

  lemma StillOpen(c: Conn)
    requires c.Valid() && Run(c.trace).reader.Looking?
    ensures c.pending.Some?
  {
    BaseHolds(c.trace);
  }

  lemma IsClosed(c: Conn)
    requires c.Valid() && Run(c.trace).reader.Unregistered?
    ensures c.pending.None?
  {
    BaseHolds(c.trace);
  }

  class Conn {
    /** None is the nil map. */
    var pending: Option<map<DeliveryId, Channel>>
    var done: bool
    /** Every call's own channel. */
    var channels: seq<Channel>
    /** The protocol steps so far. */
    ghost var trace: seq<Step>

    /** The object is in the state that the protocol is in after `trace`. */
    ghost predicate Valid()
      reads this, set ch | ch in channels
    {
      var s := Run(trace);
      && |channels| == |s.calls|
      && (forall c :: 0 <= c < |channels| ==>
            && channels[c].call == c && channels[c].id == s.calls[c].id
            && channels[c].slot == (if s.calls[c].slot.Some? then Some(s.calls[c].slot.value.0) else None))
      && (pending.None? <==> s.pending.None?)
      && (pending.Some? ==>
            && pending.value.Keys == s.pending.value.Keys
            && forall id :: id in pending.value ==>
                 && pending.value[id] in channels && pending.value[id].call == s.pending.value[id]
                 && pending.value[id].id == id)
      && (done <==> s.closes > 0)
    }

    constructor ()
      ensures Valid() && trace == [] && channels == []
    {
      pending, done, channels, trace := Some(map[]), false, [], [];
    }

    /** What happens outside the object's own fields: a write ends, a deadline passes, a waiter sees that done is
        closed, a frame or an error comes from the socket. */
    ghost method Observe(step: Step)
      requires Valid() && (Outside(step) || Skipped(Run(trace), step))
      modifies this`trace
      ensures Valid() && trace == old(trace) + [step] && Run(trace) == Apply(Run(old(trace)), step)
    {
      hide Run;
      Snoc(trace, step);
      FieldsKept(Run(trace), step);
      hide Apply;
      trace := trace + [step];
    }

    /** The first section of Deliver: a channel, registered unless the connection is closed. */
    method Register(id: DeliveryId) returns (ch: Channel, registered: bool)
      requires Valid()
      modifies this
      ensures Valid() && trace == old(trace) + [Start(id)]
      ensures fresh(ch) && channels == old(channels) + [ch] && registered == old(pending).Some?
    {
      hide Run;
      Snoc(trace, Start(id));
      ch := new Channel(id, |channels|);
      assert forall c :: 0 <= c < |channels| ==> channels[c] != ch;
      channels, trace := channels + [ch], trace + [Start(id)];
      assert ch in channels;
      registered := pending.Some?;
      if registered { pending := Some(pending.value[id := ch]); }
    }

    /** The deferred section of Deliver; deleting from a nil map does nothing. */
    method Leave(id: DeliveryId, ghost c: CallId)
      requires Valid() && c < |Run(trace).calls| && Run(trace).calls[c].pc.Leaving? && Run(trace).calls[c].id == id
      modifies this
      ensures Valid() && trace == old(trace) + [Step.Leave(c)] && channels == old(channels)
    {
      Snoc(trace, Step.Leave(c));
      trace := trace + [Step.Leave(c)];
      if pending.Some? { pending := Some(pending.value - {id}); }
    }

    /** The first arm of Deliver's select. */
    method Receive(ch: Channel) returns (ack: Ack)
      requires Valid() && ch in channels && ch.slot.Some? && Run(trace).calls[ch.call].pc.Waiting?
      modifies this, ch
      ensures Valid() && trace == old(trace) + [Step.Receive(ch.call)] && channels == old(channels)
      ensures old(ch.slot) == Some(ack)
      ensures var pc := Run(trace).calls[ch.call].pc; pc.Leaving? && pc.out.Acked? && pc.out.ack == ack
    {
      Snoc(trace, Step.Receive(ch.call));
      trace := trace + [Step.Receive(ch.call)];
      ack := ch.slot.value;
      ch.slot := None;
    }

    /** The reader's section: the channel registered for an ack's id, if any. */
    method Lookup(ack: Ack) returns (ch: Option<Channel>)
      requires Valid() && Run(trace).reader == Looking(ack) && pending.Some?
      modifies this
      ensures Valid() && trace == old(trace) + [Step.Lookup] && channels == old(channels) && pending == old(pending)
      ensures ch == if ack.id in pending.value then Some(pending.value[ack.id]) else None
      ensures ch.None? ==> Run(trace).reader == Reading
      ensures ch.Some? ==> ch.value in channels && Run(trace).reader.Sending?
                           && Run(trace).reader.call == ch.value.call && Run(trace).reader.ack == ack
    {
      Snoc(trace, Step.Lookup);
      trace := trace + [Step.Lookup];
      if ack.id in pending.value { return Some(pending.value[ack.id]); }
      return None;
    }

    /** The reader's send: a full slot discards the ack, and neither case waits. */
    method Offer(ch: Channel, ack: Ack)
      requires Valid() && ch in channels
      requires Run(trace).reader.Sending? && Run(trace).reader.call == ch.call && Run(trace).reader.ack == ack
      modifies this, ch
      ensures Valid() && trace == old(trace) + [Send] && channels == old(channels) && pending == old(pending)
      ensures Run(trace).reader == Reading && ch.slot == Kept(old(ch.slot), Some(ack))
    {
      Snoc(trace, Send);
      trace := trace + [Send];
      if ch.slot.None? { ch.slot := Some(ack); }
    }

    /** Set the map to nil. */
    method UnsetPending()
      requires Valid() && Run(trace).reader == Closing
      modifies this
      ensures Valid() && trace == old(trace) + [Step.ClosePending] && channels == old(channels)
      ensures pending.None? && Run(trace).reader == Unregistered
    {
      Snoc(trace, Step.ClosePending);
      trace := trace + [Step.ClosePending];
      pending := None;
    }

    /** Close the done channel. */
    method CloseDone()
      requires Valid() && Run(trace).reader == Unregistered
      modifies this
      ensures Valid() && trace == old(trace) + [Step.CloseDone] && channels == old(channels)
      ensures pending == old(pending) && done && Run(trace).reader == Ended
    {
      Snoc(trace, Step.CloseDone);
      trace := trace + [Step.CloseDone];
      done := true;
    }

    // The read loop among other parties

    /** One step of a call. */
    method Other(step: Step)
      requires Valid() && CallStep(step) && Enabled(Run(trace), step)
      modifies this, set ch | ch in channels
      ensures Valid() && trace == old(trace) + [step] && Run(trace).reader == Run(old(trace)).reader
      ensures old(channels) <= channels && forall ch :: ch in channels ==> ch in old(channels) || fresh(ch)
    {
      hide Run;
      Snoc(trace, step);
      if step.Start? {
        var _, _ := Register(step.id);
      } else if step.Leave? {
        Leave(channels[step.c].id, step.c);
      } else if step.Receive? {
        var _ := Receive(channels[step.c]);
      } else {
        Observe(step);
      }
    }

    /** Any steps of any calls. */
    method Others(steps: seq<Step>)
      requires Valid() && Doable(trace, steps)
      modifies this, set ch | ch in channels
      ensures Valid() && trace == old(trace) + steps && Run(trace).reader == Run(old(trace)).reader
      ensures old(channels) <= channels && forall ch :: ch in channels ==> ch in old(channels) || fresh(ch)
    {
      hide Run, Valid;
      ghost var start := trace;
      for i := 0 to |steps|
        invariant Valid() && trace == start + steps[..i] && Run(trace).reader == Run(start).reader
        invariant old(channels) <= channels && forall ch :: ch in channels ==> ch in old(channels) || fresh(ch)
      {
        Other(steps[i]);
        assert start + steps[..i] + [steps[i]] == start + steps[..i + 1];
      }
      assert steps[..|steps|] == steps;
    }

    /** One turn of the read loop, with other parties' steps before each of the reader's. */
    method Turn(frame: Option<Ack>, o1: seq<Step>, o2: seq<Step>, o3: seq<Step>)
      requires Valid() && Run(trace).reader == Reading
      requires Doable(trace, o1) && Doable(trace + o1 + [ReadFrame(frame)], o2)
      requires Doable(trace + o1 + [ReadFrame(frame)] + o2 + [Step.Lookup], o3)
      modifies this, set ch | ch in channels
      ensures Valid() && Run(trace).reader == Reading
      ensures trace == old(trace) + o1 + [ReadFrame(frame)] + o2 + [Step.Lookup] + o3 + [Send]
      ensures old(channels) <= channels && forall ch :: ch in channels ==> ch in old(channels) || fresh(ch)
    {
      hide Run, Valid, Doable;
      Others(o1);
      Observe(ReadFrame(frame));
      Others(o2);
      if frame.None? {
        Observe(Step.Lookup);
        Others(o3);
        Observe(Send);
      } else {
        StillOpen(this);
        var ch := Lookup(frame.value);
        Others(o3);
        if ch.Some? { Offer(ch.value, frame.value); } else { Observe(Send); }
      }
    }

    /** All turns of the read loop. */
    method ReadFrames(frames: seq<Option<Ack>>, others: nat -> seq<Step>)
      requires Valid() && Run(trace).reader == Reading
      requires forall i :: 0 <= i < |Reads(frames)| ==> Doable(trace + Interleave(Reads(frames), others, i), others(i))
      modifies this, set ch | ch in channels
      ensures Valid() && Run(trace).reader == Reading
      ensures trace == old(trace) + Interleave(Reads(frames), others, 3 * |frames|)
      ensures forall ch :: ch in channels ==> ch in old(channels) || fresh(ch)
    {
      hide Run, Valid, Doable, Interleave, Reads;
      ghost var start, own := trace, Reads(frames);
      EndReads(frames);
      assert trace == start + Interleave(own, others, 0) by { InterleaveNone(start, own, others); }
      for i := 0 to |frames|
        invariant Valid() && Run(trace).reader == Reading && trace == start + Interleave(own, others, 3 * i)
        invariant forall ch :: ch in channels ==> ch in old(channels) || fresh(ch)
      {
        TurnReads(frames, i);
        InterleaveThree(start, own, others, 3 * i);
        Turn(frames[i], others(3 * i), others(3 * i + 1), others(3 * i + 2));
      }
    }

    /** The end of the read loop, with other parties' steps before each of the reader's. */
    method ReadEnd(o1: seq<Step>, o2: seq<Step>, o3: seq<Step>)
      requires Valid() && Run(trace).reader == Reading
      requires Doable(trace, o1) && Doable(trace + o1 + [ReadFail], o2)
      requires Doable(trace + o1 + [ReadFail] + o2 + [Step.ClosePending], o3)
      modifies this, set ch | ch in channels
      ensures Valid() && pending.None? && done && Run(trace).reader == Ended
      ensures trace == old(trace) + o1 + [ReadFail] + o2 + [Step.ClosePending] + o3 + [Step.CloseDone]
    {
      hide Run, Valid, Doable;
      Others(o1);
      Observe(ReadFail);
      Others(o2);
      UnsetPending();
      Others(o3);
      IsClosed(this);
      CloseDone();
    }

    /** The read loop among other parties: whatever calls do before each of its steps, it makes the protocol's reader
        steps for every frame in turn and then, on the error that ends it, closes the connection. */
    method ReadLoop(frames: seq<Option<Ack>>, others: nat -> seq<Step>)
      requires Valid() && Run(trace).reader == Reading
      requires forall i :: 0 <= i < |Reads(frames)| ==> Doable(trace + Interleave(Reads(frames), others, i), others(i))
      modifies this, set ch | ch in channels
      ensures Valid() && trace == old(trace) + Interleave(Reads(frames), others, |Reads(frames)|)
      ensures pending.None? && done && Run(trace).reader == Ended
    {
      hide Run, Valid, Doable, Interleave, Reads;
      ghost var start, own := trace, Reads(frames);
      var n := 3 * |frames|;
      EndReads(frames);
      ReadFrames(frames, others);
      InterleaveThree(start, own, others, n);
      ReadEnd(others(n), others(n + 1), others(n + 2));
    }

    // The read loop on its own

    /** One turn of the read loop: an ack fills the free slot of the call registered for its id, if any. */
    method HandleFrame(frame: Option<Ack>)
      requires Valid() && Run(trace).reader == Reading && pending.Some?
      modifies this, set ch | ch in channels
      ensures Valid() && Run(trace).reader == Reading && pending == old(pending) && channels == old(channels)
      ensures forall id :: id in pending.value ==>
        pending.value[id].slot
        == Kept(old(pending.value[id].slot), if frame.Some? && frame.value.id == id then frame else None)
    {
      hide Run;
      Observe(ReadFrame(frame));
      if frame.Some? {
        var ch := Lookup(frame.value);
        if ch.Some? {
          hide Apply;
          Distinguished(frame.value.id);
          Offer(ch.value, frame.value);
        }
      }
    }

    /** Calls registered under different ids have different channels. */
    lemma Distinguished(id: DeliveryId)
      requires Valid() && pending.Some? && id in pending.value
      ensures forall other :: other in pending.value && other != id ==> pending.value[other] != pending.value[id]
    {
      hide Run, Apply;
    }

    /** The end of the read loop. */
    method Close()
      requires Valid() && Run(trace).reader == Reading
      modifies this
      ensures Valid() && pending.None? && done && Run(trace).reader == Ended && channels == old(channels)
    {
      hide Run;
      Observe(ReadFail);
      hide Valid, Apply;
      UnsetPending();
      CloseDone();
    }

    /** Every frame in turn. */
    method HandleFrames(frames: seq<Option<Ack>>)
      requires Valid() && Run(trace).reader == Reading && pending.Some?
      requires forall id :: id in pending.value ==> pending.value[id] in channels
      modifies this, set ch | ch in channels
      ensures Valid() && Run(trace).reader == Reading && pending == old(pending) && channels == old(channels)
      ensures forall id :: id in pending.value ==>
        pending.value[id].slot == Kept(old(pending.value[id].slot), FirstFor(frames, id))
    {
      hide Run, Valid;
      for i := 0 to |frames|
        invariant Valid() && Run(trace).reader == Reading && pending == old(pending) && channels == old(channels)
        invariant forall id :: id in pending.value ==>
          pending.value[id].slot == Kept(old(pending.value[id].slot), FirstFor(frames[..i], id))
      {
        assert frames[..i + 1][..i] == frames[..i];
        HandleFrame(frames[i]);
      }
      assert frames[..|frames|] == frames;
    }

    /** The read loop with nobody else acting meanwhile: each registered call whose slot was free ends up with the
        first ack for its id, unknown and repeated acks change nothing, and the final error closes the connection. */
    method ReadAlone(frames: seq<Option<Ack>>)
      requires Valid() && Run(trace).reader == Reading && pending.Some?
      modifies this, set ch | ch in channels
      ensures Valid() && pending.None? && done && Run(trace).reader == Ended && channels == old(channels)
      ensures forall id :: id in old(pending).value ==>
        old(pending).value[id].slot == Kept(old(pending.value[id].slot), FirstFor(frames, id))
    {
      hide Run, FirstFor;
      HandleFrames(frames);
      hide Valid;
      Close();
    }
  }

  // The protocol's promises, read off the object

  /** While open, every id in the object's map is that of a call between registration and exit, and with distinct ids
      the map holds exactly those. */
  lemma MapHoldsInFlight(c: Conn)
    requires c.Valid() && c.pending.Some?
    ensures var calls := Run(c.trace).calls;
            var inFlight := set k | 0 <= k < |calls| && calls[k].InFlight() :: calls[k].id;
            c.pending.value.Keys <= inFlight && (DistinctRun(c.trace) ==> c.pending.value.Keys == inFlight)
  {
    RegisteredExactly(c.trace);
  }

  /** What a listening call that was alone with its id finds in its channel is the first ack for that id looked up since
      it registered. */
  lemma ChannelHoldsFirstAck(c: Conn, k: CallId)
    requires c.Valid() && AloneRun(c.trace, k) && k < |c.channels|
    requires Run(c.trace).calls[k].Listening() && c.channels[k].slot.Some?
    ensures var s := Run(c.trace);
            exists at: nat :: FirstAck(s.calls[k], k, s.seen, at) && s.seen[at].ack == c.channels[k].slot.value
  {
    CallInvHolds(c.trace, k);
    var s := Run(c.trace);
    hide FirstAck, NoAckBefore, Run;
    assert c.channels[k].slot == if s.calls[k].slot.Some? then Some(s.calls[k].slot.value.0) else None;
    var at: nat := s.calls[k].slot.value.1;
    assert FirstAck(s.calls[k], k, s.seen, at) && s.seen[at].ack == c.channels[k].slot.value;
  }

  /** Once done is closed the map is nil, and stays so with done closed once, whatever happens next. */
  lemma DoneMeansClosed(c: Conn, more: seq<Step>)
    requires c.Valid() && c.done
    ensures c.pending.None? && Run(c.trace + more).pending.None? && Run(c.trace + more).closes == 1
  {
    BaseHolds(c.trace);
    StaysClosed(c.trace, more);
  }

  lemma Snoc(steps: seq<Step>, step: Step)
    ensures Run(steps + [step]) == Apply(Run(steps), step)
  {
    assert (steps + [step])[..|steps|] == steps;
  }
}
