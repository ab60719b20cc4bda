/** The per-source ingest limiter: one lazily created bucket per source. */
module RateLimit {
  import opened Buckets

  type Source = nat

  /** One request: the clock as read when a bucket may be created, then under the bucket's lock. */
  datatype Call = Call(source: Source, created: int, now: int)

  type Limiter = map<Source, Bucket>

  function BucketFor(rate: real, limiter: Limiter, c: Call): Bucket {
    if c.source in limiter then limiter[c.source] else Bucket(rate, rate, c.created)
  }

  function Step(rate: real, limiter: Limiter, c: Call): (Limiter, bool) {
    var (b, admitted) := Take(BucketFor(rate, limiter, c), c.now);
    (limiter[c.source := b], admitted)
  }

  /** The answer given to each call of a sequence. */
  function Answers(rate: real, limiter: Limiter, calls: seq<Call>): (answers: seq<bool>)
    ensures |answers| == |calls|
    decreases |calls|
  {
    if calls == [] then []
    else
      var (limiter', admitted) := Step(rate, limiter, calls[0]);
      [admitted] + Answers(rate, limiter', calls[1..])
  }

  /** No reading precedes `from` or an earlier reading. */
  ghost predicate Clocked(from: int, calls: seq<Call>)
    decreases |calls|
  {
    calls != [] ==> from <= calls[0].created <= calls[0].now && Clocked(calls[0].now, calls[1..])
  }

  ghost predicate Sane(rate: real, limiter: Limiter, now: int) {
    forall s :: s in limiter ==> Sound(limiter[s], rate, now)
  }

  /** How many calls of `source` made within [start, end] were admitted. */
  function Admitted(calls: seq<Call>, answers: seq<bool>, source: Source, start: int, end: int): nat
    requires |answers| == |calls|
    decreases |calls|
  {
    if calls == [] then 0
    else
      (if answers[0] && calls[0].source == source && start <= calls[0].now <= end then 1 else 0)
      + Admitted(calls[1..], answers[1..], source, start, end)
  }

  lemma AllowKeepsSane(rate: real, limiter: Limiter, c: Call)
    requires rate >= 0.0 && Sane(rate, limiter, c.created) && c.created <= c.now
    ensures Sane(rate, Step(rate, limiter, c).0, c.now)
    ensures Step(rate, limiter, c).0[c.source].last == c.now
    ensures BucketFor(rate, limiter, c).rate == rate && 0.0 <= BucketFor(rate, limiter, c).tokens <= rate
  {
    TakeKeepsSound(BucketFor(rate, limiter, c), rate, c.now);
  }

  /** From a bucket on: admissions are paid for by tokens held or flowing in. */
  lemma {:induction false} BoundFromBucket(rate: real, limiter: Limiter, calls: seq<Call>, source: Source,
                                           from: int, start: int, end: int)
    requires rate >= 0.0 && Sane(rate, limiter, from) && Clocked(from, calls)
    requires source in limiter && limiter[source].last <= end
    ensures Admitted(calls, Answers(rate, limiter, calls), source, start, end) as real
         <= limiter[source].tokens + Flow(rate, limiter[source].last, end)
    decreases |calls|
  {
    hide Flow;
    var b := limiter[source];
    FlowPositive(rate, b.last, end);
    if calls != [] {
      var c := calls[0];
      AllowKeepsSane(rate, limiter, c);
      var (limiter', admitted) := Step(rate, limiter, c);
      assert Answers(rate, limiter, calls)[1..] == Answers(rate, limiter', calls[1..]);
      if limiter'[source].last <= end {
        BoundFromBucket(rate, limiter', calls[1..], source, c.now, start, end);
        FlowAdd(rate, b.last, c.now, end);
      } else {
        NothingAfter(rate, limiter', calls[1..], source, c.now, start, end);
      }
    }
  }

  lemma {:induction false} NothingAfter(rate: real, limiter: Limiter, calls: seq<Call>, source: Source,
                                        from: int, start: int, end: int)
    requires Clocked(from, calls) && end < from
    ensures Admitted(calls, Answers(rate, limiter, calls), source, start, end) == 0
    decreases |calls|
  {
    if calls != [] {
      var limiter' := Step(rate, limiter, calls[0]).0;
      assert Answers(rate, limiter, calls)[1..] == Answers(rate, limiter', calls[1..]);
      NothingAfter(rate, limiter', calls[1..], source, calls[0].now, start, end);
    }
  }

  /** In every window one source is admitted at most `rate` times plus `rate` per second of window,
      whatever other sources do before, within and after it. */
  lemma {:induction false} WindowBound(rate: real, limiter: Limiter, calls: seq<Call>, source: Source,
                                       from: int, start: int, end: int)
    requires rate >= 0.0 && Sane(rate, limiter, from) && Clocked(from, calls) && start <= end
    ensures Admitted(calls, Answers(rate, limiter, calls), source, start, end) as real
         <= rate + rate * ((end - start) as real / 1_000_000_000.0)
    decreases |calls|
  {
    FlowIs(rate, start, end);
    hide Flow;
    FlowPositive(rate, start, end);
    if calls != [] {
      var c := calls[0];
      AllowKeepsSane(rate, limiter, c);
      var limiter' := Step(rate, limiter, c).0;
      assert Answers(rate, limiter, calls)[1..] == Answers(rate, limiter', calls[1..]);
      if c.source == source && start <= c.now <= end {
        BoundFromBucket(rate, limiter', calls[1..], source, c.now, start, end);
        FlowAdd(rate, start, c.now, end);
        FlowPositive(rate, start, c.now);
      } else {
        WindowBound(rate, limiter', calls[1..], source, c.now, start, end);
      }
    }
  }

  lemma AdmittedOneMore(calls: seq<Call>, answers: seq<bool>, i: nat, source: Source, start: int, end: int)
    requires 0 < i <= |calls| == |answers|
    ensures Admitted(calls[..i], answers[..i], source, start, end)
         == (if answers[0] && calls[0].source == source && start <= calls[0].now <= end then 1 else 0)
            + Admitted(calls[1..][..i - 1], answers[1..][..i - 1], source, start, end)
  {
    assert calls[..i][1..] == calls[1..][..i - 1] && answers[..i][1..] == answers[1..][..i - 1];
  }

  ghost predicate LimiterAccounts(limiter: Limiter, source: Source, since: int, used: nat) {
    source in limiter ==> Accounts(limiter[source], since, used)
  }

  /** Tokens spent before, as far as they count in a window that starts at `start`. */
  function Before(limiter: Limiter, source: Source, since: int, used: nat, start: int): nat {
    if source in limiter && start == since then used else 0
  }

  lemma {:induction false} RefusalFrom(rate: real, limiter: Limiter, calls: seq<Call>, source: Source,
                                       from: int, i: nat, since: int, used: nat)
    returns (start: int)
    requires rate >= 1.0 && Sane(rate, limiter, from) && Clocked(from, calls) && i < |calls|
    requires calls[i].source == source && !Answers(rate, limiter, calls)[i]
    requires LimiterAccounts(limiter, source, since, used)
    ensures start <= calls[i].now && (source in limiter ==> since <= start)
    ensures (Before(limiter, source, since, used, start)
             + Admitted(calls[..i], Answers(rate, limiter, calls)[..i], source, start, calls[i].now) + 1) as real
            > rate + Flow(rate, start, calls[i].now)
    decreases |calls|
  {
    hide Flow, Accounts;
    var c, answers := calls[0], Answers(rate, limiter, calls);
    AllowKeepsSane(rate, limiter, c);
    var (limiter', admitted) := Step(rate, limiter, c);
    var rest := Answers(rate, limiter', calls[1..]);
    assert answers == [admitted] + rest;
    if c.source == source {
      FullAccounts(rate, c.created);
      var s0, u0 := if source in limiter then since else c.created, if source in limiter then used else 0;
      var since', used' := Accounted(BucketFor(rate, limiter, c), c.now, s0, u0);
      if i == 0 {
        start := s0;
        StartsBefore(BucketFor(rate, limiter, c), s0, u0);
      } else {
        start := RefusalFrom(rate, limiter', calls[1..], source, c.now, i - 1, since', used');
        AdmittedOneMore(calls, answers, i, source, start, calls[i].now);
        assert answers[1..] == rest;
        InOrder(c.now, calls[1..], i - 1);
        StartsBefore(BucketFor(rate, limiter, c), s0, u0);
      }
    } else {
      start := RefusalFrom(rate, limiter', calls[1..], source, c.now, i - 1, since, used);
      AdmittedOneMore(calls, answers, i, source, start, calls[i].now);
      assert answers[1..] == rest;
    }
  }

  lemma StartsBefore(b: Bucket, since: int, used: nat)
    requires Accounts(b, since, used)
    ensures since <= b.last
  {}

  lemma {:induction false} InOrder(from: int, calls: seq<Call>, i: nat)
    requires Clocked(from, calls) && i < |calls|
    ensures from <= calls[i].now
    decreases |calls|
  {
    if i > 0 { InOrder(calls[0].now, calls[1..], i - 1); }
  }

  /** A refusal is always due: with a limit of at least one a second, a call is refused only if some window that ends
      with it would otherwise hold more than a burst plus the limit times its length. With the bound above, a call is
      admitted exactly when no window would be overfilled. */
  lemma RefusedOnlyIfDue(rate: real, calls: seq<Call>, source: Source, from: int, i: nat)
    requires rate >= 1.0 && Clocked(from, calls) && i < |calls| && calls[i].source == source
    requires !Answers(rate, map[], calls)[i]
    ensures exists start: int ::
      && start <= calls[i].now
      && (Admitted(calls[..i], Answers(rate, map[], calls)[..i], source, start, calls[i].now) + 1) as real
         > rate + rate * ((calls[i].now - start) as real / 1_000_000_000.0)
  {
    hide Flow, Admitted, Answers, Clocked, Accounts;
    var start := RefusalFrom(rate, map[], calls, source, from, i, from, 0);
    FlowIs(rate, start, calls[i].now);
    assert Before(map[], source, from, 0, start) == 0;
    hide Before;
    var n := Admitted(calls[..i], Answers(rate, map[], calls)[..i], source, start, calls[i].now);
    assert (n + 1) as real > rate + rate * ((calls[i].now - start) as real / 1_000_000_000.0);
  }

  /** A limit below one token a second admits nothing at all. */
  lemma {:induction false} BelowOneAdmitsNothing(rate: real, limiter: Limiter, calls: seq<Call>)
    requires rate < 1.0 && forall s :: s in limiter ==> limiter[s].rate == rate
    ensures forall i :: 0 <= i < |calls| ==> !Answers(rate, limiter, calls)[i]
    decreases |calls|
  {
    if calls != [] {
      BelowOneAdmitsNothing(rate, Step(rate, limiter, calls[0]).0, calls[1..]);
    }
  }

  /** The calls, or answers, whose flag is set, in order. */
  function Keep<T>(xs: seq<T>, flags: seq<bool>): seq<T>
    requires |xs| == |flags|
  {
    if xs == [] then []
    else (if flags[0] then [xs[0]] else []) + Keep(xs[1..], flags[1..])
  }

  /** What a source's bucket would hold at `now`; a bucket not yet created counts as full. */
  function Level(rate: real, limiter: Limiter, source: Source, now: int): real {
    if source in limiter then Refill(limiter[source], now).tokens else rate
  }

  ghost predicate SameLevels(rate: real, l1: Limiter, l2: Limiter, now: int) {
    forall s: Source :: Level(rate, l1, s, now) == Level(rate, l2, s, now)
  }

  lemma LevelsPersist(rate: real, l1: Limiter, l2: Limiter, from: int, now: int)
    requires rate >= 0.0 && Sane(rate, l1, from) && Sane(rate, l2, from) && from <= now
    requires SameLevels(rate, l1, l2, from)
    ensures SameLevels(rate, l1, l2, now)
  {
    forall s: Source ensures Level(rate, l1, s, now) == Level(rate, l2, s, now) {
      LevelLater(rate, l1, s, from, now);
      LevelLater(rate, l2, s, from, now);
      assert Level(rate, l1, s, from) == Level(rate, l2, s, from);
    }
  }

  /** The level at a later instant is a function of the level now. */
  lemma LevelLater(rate: real, limiter: Limiter, s: Source, from: int, now: int)
    requires rate >= 0.0 && Sane(rate, limiter, from) && from <= now
    ensures Level(rate, limiter, s, now) == Refill(Bucket(Level(rate, limiter, s, from), rate, from), now).tokens
  {
    FlowPositive(rate, from, now);
    if s in limiter {
      RefillTwice(limiter[s], from, now);
    }
  }

  lemma AllowByLevel(rate: real, limiter: Limiter, c: Call)
    requires rate >= 0.0 && Sane(rate, limiter, c.created) && c.created <= c.now
    ensures Step(rate, limiter, c).1 == (Level(rate, limiter, c.source, c.now) >= 1.0)
    ensures forall s: Source :: Level(rate, Step(rate, limiter, c).0, s, c.now) ==
              if s == c.source && Step(rate, limiter, c).1 then Level(rate, limiter, s, c.now) - 1.0
              else Level(rate, limiter, s, c.now)
  {
    AllowKeepsSane(rate, limiter, c);
    FlowPositive(rate, c.created, c.now);
    var b := Step(rate, limiter, c).0[c.source];
    assert Refill(b, c.now).tokens == b.tokens by { assert Flow(b.rate, c.now, c.now) == 0.0; }
  }

  lemma AnswersOneMore(rate: real, limiter: Limiter, c: Call, rest: seq<Call>)
    ensures Answers(rate, limiter, [c] + rest)
         == [Step(rate, limiter, c).1] + Answers(rate, Step(rate, limiter, c).0, rest)
  {
    hide Step;
    assert ([c] + rest)[1..] == rest;
  }

  lemma KeepOneMore<T>(x: T, xs: seq<T>, flags: seq<bool>)
    requires |flags| == |xs| + 1
    ensures Keep([x] + xs, flags) == if flags[0] then [x] + Keep(xs, flags[1..]) else Keep(xs, flags[1..])
  {
    assert ([x] + xs)[1..] == xs;
  }

  /** A call that both limiters get, or a refused one that only the first gets, leaves the levels alike. */
  lemma StepFollows(rate: real, l1: Limiter, l2: Limiter, c: Call, from: int)
    requires rate >= 0.0 && from <= c.created <= c.now
    requires Sane(rate, l1, from) && Sane(rate, l2, from) && SameLevels(rate, l1, l2, from)
    ensures var (l1', a1) := Step(rate, l1, c);
            var (l2', a2) := Step(rate, l2, c);
            && a1 == a2 && Sane(rate, l1', c.now) && Sane(rate, l2', c.now) && SameLevels(rate, l1', l2', c.now)
            && Sane(rate, l2, c.now) && (!a1 ==> SameLevels(rate, l1', l2, c.now))
  {
    LevelsPersist(rate, l1, l2, from, c.now);
    assert Sane(rate, l1, c.created) && Sane(rate, l2, c.created);
    AllowByLevel(rate, l1, c);
    AllowKeepsSane(rate, l1, c);
    AllowByLevel(rate, l2, c);
    AllowKeepsSane(rate, l2, c);
    hide Step, Level;
  }

  lemma {:induction false} KeepFollows(rate: real, l1: Limiter, l2: Limiter, calls: seq<Call>, flags: seq<bool>,
                                       from: int)
    requires rate >= 0.0 && |flags| == |calls| && Clocked(from, calls)
    requires Sane(rate, l1, from) && Sane(rate, l2, from) && SameLevels(rate, l1, l2, from)
    requires forall i :: 0 <= i < |calls| && !flags[i] ==> !Answers(rate, l1, calls)[i]
    ensures Answers(rate, l2, Keep(calls, flags)) == Keep(Answers(rate, l1, calls), flags)
    decreases |calls|
  {
    if calls != [] {
      var c, rest, kept := calls[0], calls[1..], flags[1..];
      assert calls == [c] + rest;
      StepFollows(rate, l1, l2, c, from);
      hide Step, Sane, SameLevels, Answers, Keep;
      var (l1', a) := Step(rate, l1, c);
      AnswersOneMore(rate, l1, c, rest);
      KeepOneMore(c, rest, flags);
      KeepOneMore(a, Answers(rate, l1', rest), flags);
      forall i | 0 <= i < |rest| && !kept[i] ensures !Answers(rate, l1', rest)[i] {
        assert !Answers(rate, l1, calls)[i + 1];
      }
      if flags[0] {
        KeepFollows(rate, l1', Step(rate, l2, c).0, rest, kept, c.now);
        AnswersOneMore(rate, l2, c, Keep(rest, kept));
      } else {
        assert !Answers(rate, l1, calls)[0];
        KeepFollows(rate, l1', l2, rest, kept, c.now);
      }
    }
  }

  lemma {:induction false} KeepFalse(xs: seq<bool>, flags: seq<bool>)
    requires |xs| == |flags| && forall i :: 0 <= i < |xs| ==> !xs[i]
    ensures forall i :: 0 <= i < |Keep(xs, flags)| ==> !Keep(xs, flags)[i]
  {
    if xs != [] { KeepFalse(xs[1..], flags[1..]); }
  }

  lemma {:induction false} KeepLength<A, B>(xs: seq<A>, ys: seq<B>, flags: seq<bool>)
    requires |xs| == |ys| == |flags|
    ensures |Keep(xs, flags)| == |Keep(ys, flags)|
  {
    if xs != [] { KeepLength(xs[1..], ys[1..], flags[1..]); }
  }

  /** Dropping any refused calls from a sequence changes no other call's answer. */
  lemma RefusedCallsInvisible(rate: real, calls: seq<Call>, flags: seq<bool>, from: int)
    requires |flags| == |calls| && Clocked(from, calls)
    requires forall i :: 0 <= i < |calls| && !flags[i] ==> !Answers(rate, map[], calls)[i]
    ensures Answers(rate, map[], Keep(calls, flags)) == Keep(Answers(rate, map[], calls), flags)
  {
    if rate < 1.0 {
      BelowOneAdmitsNothing(rate, map[], calls);
      BelowOneAdmitsNothing(rate, map[], Keep(calls, flags));
      KeepFalse(Answers(rate, map[], calls), flags);
      KeepLength(calls, Answers(rate, map[], calls), flags);
    } else {
      KeepFollows(rate, map[], map[], calls, flags, from);
    }
  }

  /** One source's bucket, updated in place. */
  class TokenBucket {
    var tokens: real
    var burst: real
    var ratePerSec: real
    var last: int

    constructor (rate: real, now: int)
      ensures Valid() && View() == Bucket(rate, rate, now)
    {
      tokens, burst, ratePerSec, last := rate, rate, rate, now;
    }

    ghost predicate Valid() reads this { burst == ratePerSec }

    ghost function View(): Bucket reads this { Bucket(tokens, ratePerSec, last) }

    method Allow(now: int) returns (admitted: bool)
      requires Valid()
      modifies this
      ensures Valid() && (View(), admitted) == Take(old(View()), now)
    {
      tokens := tokens + Seconds(now - last) * ratePerSec;
      if tokens > burst { tokens := burst; }
      last := now;
      if tokens < 1.0 { return false; }
      tokens := tokens - 1.0;
      return true;
    }
  }

  /** The limiter: a map from source to its bucket, created on first use. */
  class RateLimiter {
    var buckets: map<Source, TokenBucket>
    const ratePerSec: real

    constructor (perSecond: int)
      ensures Valid() && View() == map[] && ratePerSec == perSecond as real
    {
      buckets := map[];
      ratePerSec := perSecond as real;
    }

    ghost predicate Valid()
      reads this, buckets.Values
    {
      && (forall s :: s in buckets ==> buckets[s].Valid())
      && (forall s, s' :: s in buckets && s' in buckets && s != s' ==> buckets[s] != buckets[s'])
    }

    ghost function View(): Limiter
      reads this, buckets.Values
    {
      map s | s in buckets :: buckets[s].View()
    }

    method Allow(source: Source, created: int, now: int) returns (admitted: bool)
      requires Valid()
      modifies this, buckets.Values
      ensures Valid()
      ensures (View(), admitted) == Step(ratePerSec, old(View()), Call(source, created, now))
    {
      ghost var before := View();
      if source !in buckets {
        var b := new TokenBucket(ratePerSec, created);
        buckets := buckets[source := b];
      }
      label Chosen:
      admitted := buckets[source].Allow(now);
      assert forall s :: s in buckets && s != source ==> buckets[s].View() == old@Chosen(buckets[s].View());
      assert View() == before[source := buckets[source].View()];
    }
  }
}
