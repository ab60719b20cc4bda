/** The token bucket that both the ingest limiter and the delivery pacer are built on.
    Token counts are reals; clock readings are whole nanoseconds. */
module Buckets {

  const NANOS: int := 1_000_000_000

  /** A bucket refills at `rate` tokens a second up to a burst that equals the rate. */
  datatype Bucket = Bucket(tokens: real, rate: real, last: int)

  function Seconds(nanos: int): real {
    nanos as real / NANOS as real
  }

  /** Tokens that flow in at `rate` a second between two instants. */
  function Flow(rate: real, from: int, to: int): real {
    Seconds(to - from) * rate
  }

  function Refill(b: Bucket, now: int): Bucket {
    var level := b.tokens + Flow(b.rate, b.last, now);
    b.(tokens := if level > b.rate then b.rate else level, last := now)
  }

  /** One spending attempt: the bucket afterwards and whether a token was spent. */
  function Take(b: Bucket, now: int): (Bucket, bool) {
    var full := Refill(b, now);
    if full.tokens < 1.0 then (full, false) else (full.(tokens := full.tokens - 1.0), true)
  }

  ghost predicate Sound(b: Bucket, rate: real, now: int) {
    b.rate == rate && 0.0 <= b.tokens <= rate && b.last <= now
  }

  /** Tokens are counted by the second of clock time. */
  lemma FlowIs(rate: real, from: int, to: int)
    ensures Flow(rate, from, to) == rate * ((to - from) as real / 1_000_000_000.0)
  {}

  lemma FlowAdd(rate: real, a: int, b: int, c: int)
    ensures Flow(rate, a, c) == Flow(rate, a, b) + Flow(rate, b, c)
  {
    assert Seconds(c - a) == Seconds(b - a) + Seconds(c - b);
  }

  lemma FlowPositive(rate: real, a: int, b: int)
    requires rate >= 0.0 && a <= b
    ensures Flow(rate, a, b) >= 0.0
  {
    assert Seconds(b - a) >= 0.0;
  }

  lemma TakeKeepsSound(b: Bucket, rate: real, now: int)
    requires Sound(b, rate, now)
    ensures Sound(Take(b, now).0, rate, now) && Take(b, now).0.last == now
  {
    hide Flow;
    FlowPositive(rate, b.last, now);
  }

  /** Refilling in two instalments is refilling once: looking at a bucket costs nothing. */
  lemma RefillTwice(b: Bucket, mid: int, now: int)
    requires b.rate >= 0.0 && b.last <= mid <= now
    ensures Refill(Refill(b, mid), now) == Refill(b, now)
  {
    hide Flow;
    FlowAdd(b.rate, b.last, mid, now);
    FlowPositive(b.rate, mid, now);
  }

  ghost predicate Clocked(from: int, times: seq<int>) {
    && (forall i :: 0 <= i < |times| ==> from <= times[i])
    && (forall i, j :: 0 <= i < j < |times| ==> times[i] <= times[j])
  }

  /** Tokens spent at instants that fall in [start, end]. */
  function SpentWithin(b: Bucket, times: seq<int>, start: int, end: int): nat
    decreases |times|
  {
    if times == [] then 0
    else
      var (b', took) := Take(b, times[0]);
      (if took && start <= times[0] <= end then 1 else 0) + SpentWithin(b', times[1..], start, end)
  }

  lemma {:induction false} NoneAfter(b: Bucket, times: seq<int>, from: int, start: int, end: int)
    requires Clocked(from, times) && end < from
    ensures SpentWithin(b, times, start, end) == 0
    decreases |times|
  {
    if times != [] {
      NoneAfter(Take(b, times[0]).0, times[1..], from, start, end);
    }
  }

  lemma {:induction false} WithinBound(b: Bucket, times: seq<int>, start: int, end: int)
    requires Sound(b, b.rate, b.last) && Clocked(b.last, times) && b.last <= end
    ensures SpentWithin(b, times, start, end) as real <= b.tokens + Flow(b.rate, b.last, end)
    decreases |times|
  {
    hide Flow;
    FlowPositive(b.rate, b.last, end);
    if times != [] {
      var t := times[0];
      TakeKeepsSound(b, b.rate, t);
      FlowAdd(b.rate, b.last, t, end);
      if t <= end {
        WithinBound(Take(b, t).0, times[1..], start, end);
      } else {
        NoneAfter(Take(b, t).0, times[1..], t, start, end);
      }
    }
  }

  /** Every window of a bucket's life, wherever it starts, yields at most a burst plus its inflow. */
  lemma {:induction false} WindowSpent(b: Bucket, times: seq<int>, start: int, end: int)
    requires Sound(b, b.rate, b.last) && Clocked(b.last, times) && start <= end
    ensures SpentWithin(b, times, start, end) as real <= b.rate + Flow(b.rate, start, end)
    decreases |times|
  {
    hide Flow;
    FlowPositive(b.rate, start, end);
    if times != [] {
      var t := times[0];
      TakeKeepsSound(b, b.rate, t);
      if start <= t <= end {
        WithinBound(Take(b, t).0, times[1..], start, end);
        FlowAdd(b.rate, start, t, end);
        FlowPositive(b.rate, start, t);
      } else {
        WindowSpent(Take(b, t).0, times[1..], start, end);
      }
    }
  }

  // Refusals

  /** What a bucket holds is a burst and the inflow since some instant, less the tokens spent from then on. */
  ghost predicate Accounts(b: Bucket, since: int, used: nat) {
    since <= b.last && b.tokens == b.rate + Flow(b.rate, since, b.last) - used as real
  }

  /** One attempt keeps the account, from the same instant or, if the bucket was full, from now on; it is refused only
      if one more token would be more than a burst and the inflow since that instant. */
  lemma Accounted(b: Bucket, now: int, since: int, used: nat) returns (since': int, used': nat)
    requires b.rate >= 1.0 && Sound(b, b.rate, now) && Accounts(b, since, used)
    ensures var (b', took) := Take(b, now);
            && Accounts(b', since', used')
            && (if since' == since then used' == used + (if took then 1 else 0)
                else since < since' == now && used' == (if took then 1 else 0))
            && (!took ==> (used + 1) as real > b.rate + Flow(b.rate, since, now))
  {
    hide Flow;
    FlowAdd(b.rate, since, b.last, now);
    FlowAdd(b.rate, now, now, now);
    var took := Take(b, now).1;
    if b.tokens + Flow(b.rate, b.last, now) > b.rate {
      assert b.last < now by { if b.last == now { FlowAdd(b.rate, now, now, now); } }
      since', used' := now, 1;
    } else {
      since', used' := since, used + if took then 1 else 0;
    }
  }

  lemma FullAccounts(rate: real, now: int)
    ensures Accounts(Bucket(rate, rate, now), now, 0)
  {}
}
