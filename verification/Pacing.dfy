/** Delivery pacing: a bucket per destination that answers with the wait until its next token. */
module Pacing {
  import opened Buckets

  type Dest = nat

  datatype Call = Call(dest: Dest, rps: int, created: int, now: int)

  type Pacer = map<Dest, Bucket>

  /** The wait in whole nanoseconds, truncated, until a bucket below one token reaches it. */
  function Wait(b: Bucket): int
    requires b.rate > 0.0
  {
    ((1.0 - b.tokens) / b.rate * NANOS as real).Floor
  }

  function Fresh(rps: int, created: int): Bucket {
    Bucket(rps as real, rps as real, created)
  }

  /** The bucket a call uses: the stored one unless it is missing or was built for another rate. */
  function BucketFor(p: Pacer, c: Call): Bucket {
    if c.dest in p && p[c.dest].rate == c.rps as real then p[c.dest] else Fresh(c.rps, c.created)
  }

  datatype Answer = Answer(wait: int, spent: bool)

  function Step(p: Pacer, c: Call): (Pacer, Answer) {
    if c.rps <= 0 then (p, Answer(0, false))
    else
      var (b, took) := Take(BucketFor(p, c), c.now);
      (p[c.dest := b], Answer(if took then 0 else Wait(b), took))
  }

  function Answers(p: Pacer, calls: seq<Call>): (answers: seq<Answer>)
    ensures |answers| == |calls|
    decreases |calls|
  {
    if calls == [] then []
    else
      var (p', a) := Step(p, calls[0]);
      [a] + Answers(p', calls[1..])
  }

  ghost predicate ClockedCalls(from: int, calls: seq<Call>)
    decreases |calls|
  {
    calls != [] ==> from <= calls[0].created <= calls[0].now && ClockedCalls(calls[0].now, calls[1..])
  }

  /** Every call for `dest` carries the same rate. */
  ghost predicate ConstantRate(calls: seq<Call>, dest: Dest, rps: int) {
    forall i :: 0 <= i < |calls| && calls[i].dest == dest ==> calls[i].rps == rps
  }

  function TokensSpent(calls: seq<Call>, answers: seq<Answer>, dest: Dest, start: int, end: int): nat
    requires |answers| == |calls|
    decreases |calls|
  {
    if calls == [] then 0
    else
      (if answers[0].spent && calls[0].dest == dest && start <= calls[0].now <= end then 1 else 0)
      + TokensSpent(calls[1..], answers[1..], dest, start, end)
  }

  function Times(calls: seq<Call>, dest: Dest): seq<int>
    decreases |calls|
  {
    if calls == [] then []
    else (if calls[0].dest == dest then [calls[0].now] else []) + Times(calls[1..], dest)
  }

  lemma {:induction false} TimesClocked(calls: seq<Call>, dest: Dest, from: int)
    requires ClockedCalls(from, calls)
    ensures Clocked(from, Times(calls, dest))
    decreases |calls|
  {
    if calls != [] {
      TimesClocked(calls[1..], dest, calls[0].now);
    }
  }

  lemma TakeKeepsRate(b: Bucket, now: int)
    ensures Take(b, now).0.rate == b.rate
  {}

  /** Seen from one destination, the pacer is one bucket that no other destination touches. */
  lemma {:induction false} Projects(p: Pacer, calls: seq<Call>, dest: Dest, rps: int, start: int, end: int)
    requires rps > 0 && ConstantRate(calls, dest, rps) && dest in p && p[dest].rate == rps as real
    ensures TokensSpent(calls, Answers(p, calls), dest, start, end)
         == SpentWithin(p[dest], Times(calls, dest), start, end)
    decreases |calls|
  {
    hide Take, Wait;
    if calls != [] {
      var c := calls[0];
      var p' := Step(p, c).0;
      TakeKeepsRate(BucketFor(p, c), c.now);
      assert Answers(p, calls)[1..] == Answers(p', calls[1..]);
      Projects(p', calls[1..], dest, rps, start, end);
      if c.dest == dest {
        assert Times(calls, dest)[1..] == Times(calls[1..], dest);
      } else {
        assert Times(calls, dest) == Times(calls[1..], dest);
      }
    }
  }

  lemma SpentOneMore(p: Pacer, calls: seq<Call>, dest: Dest, start: int, end: int)
    requires calls != []
    ensures var (p', a) := Step(p, calls[0]);
            TokensSpent(calls, Answers(p, calls), dest, start, end)
            == (if a.spent && calls[0].dest == dest && start <= calls[0].now <= end then 1 else 0)
               + TokensSpent(calls[1..], Answers(p', calls[1..]), dest, start, end)
  {
    hide Step;
    assert Answers(p, calls)[1..] == Answers(Step(p, calls[0]).0, calls[1..]);
  }

  lemma TimesOneMore(calls: seq<Call>, dest: Dest)
    requires calls != []
    ensures Times(calls, dest)
         == if calls[0].dest == dest then [calls[0].now] + Times(calls[1..], dest) else Times(calls[1..], dest)
  {}

  lemma WithinOneMore(b: Bucket, time: int, times: seq<int>, start: int, end: int)
    ensures var (b', took) := Take(b, time);
            SpentWithin(b, [time] + times, start, end)
            == (if took && start <= time <= end then 1 else 0) + SpentWithin(b', times, start, end)
  {
    hide Take;
    assert ([time] + times)[1..] == times;
  }

  /** A call for a destination without a bucket of its rate starts a full one. */
  lemma FirstStep(p: Pacer, c: Call)
    requires c.rps > 0 && c.dest !in p
    ensures var b := Fresh(c.rps, c.created);
            && Step(p, c).0 == p[c.dest := Take(b, c.now).0] && Step(p, c).1.spent == Take(b, c.now).1
            && Take(b, c.now).0.rate == c.rps as real
  {
    hide Wait;
  }

  lemma OtherStep(p: Pacer, c: Call, dest: Dest)
    requires c.dest != dest
    ensures (dest in Step(p, c).0 <==> dest in p) && (dest in p ==> Step(p, c).0[dest] == p[dest])
  {}

  /** The first call for a destination brings its own full bucket. */
  lemma {:induction false} ProjectsFresh(p: Pacer, calls: seq<Call>, dest: Dest, rps: int,
                                         from: int, start: int, end: int)
    returns (created: int)
    requires rps > 0 && ClockedCalls(from, calls) && ConstantRate(calls, dest, rps) && dest !in p
    ensures from <= created && Clocked(created, Times(calls, dest))
    ensures TokensSpent(calls, Answers(p, calls), dest, start, end)
         == SpentWithin(Fresh(rps, created), Times(calls, dest), start, end)
    decreases |calls|
  {
    created := from;
    if calls != [] {
      hide Take, Step, TokensSpent, Times, SpentWithin, Answers, Fresh, Clocked;
      var c := calls[0];
      var p' := Step(p, c).0;
      SpentOneMore(p, calls, dest, start, end);
      TimesOneMore(calls, dest);
      if c.dest == dest {
        created := c.created;
        FirstStep(p, c);
        Projects(p', calls[1..], dest, rps, start, end);
        TimesClocked(calls[1..], dest, c.now);
        WithinOneMore(Fresh(rps, created), c.now, Times(calls[1..], dest), start, end);
        ClockedCons(created, c.now, Times(calls[1..], dest));
      } else {
        OtherStep(p, c, dest);
        created := ProjectsFresh(p', calls[1..], dest, rps, c.now, start, end);
      }
    }
  }

  lemma ClockedCons(from: int, time: int, times: seq<int>)
    requires from <= time && Clocked(time, times)
    ensures Clocked(from, [time] + times)
  {}

  /** At a constant positive rate a destination spends at most a burst plus its rate times the window. */
  lemma PacedWindowBound(calls: seq<Call>, dest: Dest, rps: int, from: int, start: int, end: int)
    requires rps > 0 && ClockedCalls(from, calls) && ConstantRate(calls, dest, rps) && start <= end
    ensures TokensSpent(calls, Answers(map[], calls), dest, start, end) as real
         <= rps as real + rps as real * ((end - start) as real / 1_000_000_000.0)
  {
    FlowIs(rps as real, start, end);
    var created := ProjectsFresh(map[], calls, dest, rps, from, start, end);
    WindowSpent(Fresh(rps, created), Times(calls, dest), start, end);
  }

  // The wait is tight.

  /** Real arithmetic behind truncation: `Wait` nanoseconds bring less than the deficit, one more brings it all. */
  lemma FlowAgainstWait(rate: real, deficit: real, n: int)
    requires rate > 0.0 && deficit > 0.0
    ensures n < (deficit / rate * NANOS as real).Floor ==> Seconds(n) * rate < deficit
    ensures n > (deficit / rate * NANOS as real).Floor ==> Seconds(n) * rate >= deficit
  {
    var w := deficit / rate * NANOS as real;
    assert w / NANOS as real * rate == deficit by {
      assert w / NANOS as real == deficit / rate;
    }
    var s := w / NANOS as real;
    if n < w.Floor {
      assert n as real < w;
      assert Seconds(n) < s;
    }
    if n > w.Floor {
      assert n as real >= w;
      assert Seconds(n) >= s;
    }
  }

  /** A bucket that refused at `b.last` refuses until the wait is over and pays one nanosecond after it. */
  lemma RefusedUntil(b: Bucket, now: int)
    requires b.rate >= 1.0 && 0.0 <= b.tokens < 1.0 && b.last <= now
    ensures now < b.last + Wait(b) ==> !Take(b, now).1
    ensures now > b.last + Wait(b) ==> Take(b, now).1
  {
    FlowAgainstWait(b.rate, 1.0 - b.tokens, now - b.last);
  }

  /** After a refusal with wait w at t, in any continuation: no call for the destination before t + w
      spends a token, and the first one later than t + w does. */
  lemma {:induction false} WaitIsTight(p: Pacer, b: Bucket, calls: seq<Call>, dest: Dest, rps: int, from: int, i: nat)
    requires rps > 0 && ClockedCalls(from, calls) && ConstantRate(calls, dest, rps)
    requires b.rate == rps as real && 0.0 <= b.tokens < 1.0 && b.last <= from
    requires dest in p && p[dest].last <= from && p[dest] == Refill(b, p[dest].last) && b.last <= p[dest].last
    requires i < |calls| && calls[i].dest == dest
    requires forall j :: 0 <= j < i && calls[j].dest == dest ==> !Answers(p, calls)[j].spent
    ensures calls[i].now < b.last + Wait(b) ==> !Answers(p, calls)[i].spent
    ensures calls[i].now > b.last + Wait(b) ==> Answers(p, calls)[i].spent
    decreases |calls|
  {
    var c := calls[0];
    var (p', a) := Step(p, c);
    var answers := Answers(p, calls);
    assert answers[0] == a;
    if c.dest == dest {
      RefillTwice(b, p[dest].last, c.now);
      RefusedUntil(b, c.now);
      assert a.spent == Take(b, c.now).1;
    }
    if i > 0 {
      assert answers[1..] == Answers(p', calls[1..]);
      assert forall j :: 0 <= j < i - 1 ==>
        calls[1..][j] == calls[j + 1] && Answers(p', calls[1..])[j] == answers[j + 1];
      assert c.dest == dest ==> !answers[0].spent;
      WaitIsTight(p', b, calls[1..], dest, rps, c.now, i - 1);
    }
  }

  /** A destination's bucket, if it has one, is of its rate and between empty and full. */
  ghost predicate Fits(p: Pacer, dest: Dest, rps: int, now: int) {
    dest in p ==> Sound(p[dest], rps as real, now)
  }

  lemma StepFits(p: Pacer, c: Call, dest: Dest, rps: int, from: int)
    requires rps > 0 && Fits(p, dest, rps, from) && from <= c.created <= c.now && (c.dest == dest ==> c.rps == rps)
    ensures Fits(Step(p, c).0, dest, rps, c.now)
    ensures c.dest == dest && !Step(p, c).1.spent ==>
              && dest in Step(p, c).0
              && var b := Step(p, c).0[dest];
                 b.rate == rps as real && 0.0 <= b.tokens < 1.0 && b.last == c.now && Step(p, c).1.wait == Wait(b)
  {
    hide Wait;
    if c.dest == dest { TakeKeepsSound(BucketFor(p, c), rps as real, c.now); }
  }

  lemma RefillNow(b: Bucket)
    requires b.tokens <= b.rate
    ensures Refill(b, b.last) == b
  {
    assert Seconds(0) == 0.0;
  }

  lemma {:induction false} AnswerIsTightFrom(p: Pacer, calls: seq<Call>, dest: Dest, rps: int,
                                             from: int, k: nat, i: nat)
    requires rps > 0 && ClockedCalls(from, calls) && ConstantRate(calls, dest, rps) && Fits(p, dest, rps, from)
    requires k < i < |calls| && calls[k].dest == dest && calls[i].dest == dest
    requires forall j :: k <= j < i && calls[j].dest == dest ==> !Answers(p, calls)[j].spent
    ensures var until := calls[k].now + Answers(p, calls)[k].wait;
            && (calls[i].now < until ==> !Answers(p, calls)[i].spent)
            && (calls[i].now > until ==> Answers(p, calls)[i].spent)
    decreases |calls|
  {
    hide Step, Wait, Take, Refill;
    var c := calls[0];
    StepFits(p, c, dest, rps, from);
    var (p', a) := Step(p, c);
    var answers, rest := Answers(p, calls), Answers(p', calls[1..]);
    assert answers == [a] + rest;
    assert forall j :: 0 < j < |calls| ==> answers[j] == rest[j - 1] && calls[1..][j - 1] == calls[j];
    if k > 0 {
      AnswerIsTightFrom(p', calls[1..], dest, rps, c.now, k - 1, i - 1);
    } else {
      var b := p'[dest];
      RefillNow(b);
      assert forall j :: 0 <= j < i - 1 && calls[1..][j].dest == dest ==> !rest[j].spent by {
        forall j | 0 <= j < i - 1 && calls[1..][j].dest == dest ensures !rest[j].spent { assert !answers[j + 1].spent; }
      }
      WaitIsTight(p', b, calls[1..], dest, rps, c.now, i - 1);
    }
  }

  lemma {:induction false} InOrder(calls: seq<Call>, from: int, i: nat, j: nat)
    requires ClockedCalls(from, calls) && i <= j < |calls|
    ensures from <= calls[i].now <= calls[j].now
    decreases |calls|
  {
    if i > 0 {
      InOrder(calls[1..], calls[0].now, i - 1, j - 1);
    } else if j > 0 {
      InOrder(calls[1..], calls[0].now, 0, j - 1);
    }
  }

  /** For every sequence of calls on a new pacer: after an answer w at t that spent no token, no call for the
      destination before t + w spends one, and a call later than t + w with none spent between does. */
  lemma {:induction false} AnswerIsTight(calls: seq<Call>, dest: Dest, rps: int, from: int, k: nat, i: nat)
    requires rps > 0 && ClockedCalls(from, calls) && ConstantRate(calls, dest, rps)
    requires k < i < |calls| && calls[k].dest == dest && calls[i].dest == dest && !Answers(map[], calls)[k].spent
    ensures var until := calls[k].now + Answers(map[], calls)[k].wait;
            && (calls[i].now < until ==> !Answers(map[], calls)[i].spent)
            && (&& calls[i].now > until
                && (forall j :: k < j < i && calls[j].dest == dest ==> !Answers(map[], calls)[j].spent)
                ==> Answers(map[], calls)[i].spent)
    decreases i
  {
    var answers := Answers(map[], calls);
    if calls[i].now < calls[k].now + answers[k].wait {
      forall j | k < j < i && calls[j].dest == dest ensures !answers[j].spent {
        InOrder(calls, from, j, i);
        AnswerIsTight(calls, dest, rps, from, k, j);
      }
    }
    if forall j :: k < j < i && calls[j].dest == dest ==> !answers[j].spent {
      AnswerIsTightFrom(map[], calls, dest, rps, from, k, i);
    }
  }

  // Refusals are due

  lemma SpentPrefix(p: Pacer, calls: seq<Call>, i: nat, dest: Dest, start: int, end: int)
    requires 0 < i <= |calls|
    ensures var (p', a) := Step(p, calls[0]);
            TokensSpent(calls[..i], Answers(p, calls)[..i], dest, start, end)
            == (if a.spent && calls[0].dest == dest && start <= calls[0].now <= end then 1 else 0)
               + TokensSpent(calls[1..][..i - 1], Answers(p', calls[1..])[..i - 1], dest, start, end)
  {
    hide Step;
    var answers := Answers(p, calls);
    assert calls[..i][1..] == calls[1..][..i - 1];
    assert answers[1..] == Answers(Step(p, calls[0]).0, calls[1..]) && answers[..i][1..] == answers[1..][..i - 1];
  }

  ghost predicate PacerAccounts(p: Pacer, dest: Dest, since: int, used: nat) {
    dest in p ==> Accounts(p[dest], since, used)
  }

  /** Tokens spent before, as far as they count in a window that starts at `start`. */
  function Before(p: Pacer, dest: Dest, since: int, used: nat, start: int): nat {
    if dest in p && start == since then used else 0
  }

  /** A call of its destination's rate uses the bucket there is, or a full one. */
  lemma OwnStep(p: Pacer, c: Call, rps: int, from: int, since: int, used: nat) returns (since0: int, used0: nat)
    requires rps > 0 && c.rps == rps && Fits(p, c.dest, rps, from) && from <= c.created <= c.now
    requires PacerAccounts(p, c.dest, since, used)
    ensures var b := BucketFor(p, c);
            && b.rate == rps as real && Sound(b, b.rate, c.now) && Accounts(b, since0, used0)
            && Step(p, c).0 == p[c.dest := Take(b, c.now).0] && Step(p, c).1.spent == Take(b, c.now).1
    ensures if c.dest in p then since0 == since && used0 == used else since0 == c.created && used0 == 0
  {
    hide Wait, Take, Accounts;
    FullAccounts(rps as real, c.created);
    since0, used0 := if c.dest in p then since else c.created, if c.dest in p then used else 0;
  }

  lemma {:induction false} RefusalFrom(p: Pacer, calls: seq<Call>, dest: Dest, rps: int, from: int, i: nat,
                                       since: int, used: nat)
    returns (start: int)
    requires rps > 0 && ClockedCalls(from, calls) && ConstantRate(calls, dest, rps) && Fits(p, dest, rps, from)
    requires i < |calls| && calls[i].dest == dest && !Answers(p, calls)[i].spent && PacerAccounts(p, dest, since, used)
    ensures start <= calls[i].now && (dest in p ==> since <= start)
    ensures (Before(p, dest, since, used, start)
             + TokensSpent(calls[..i], Answers(p, calls)[..i], dest, start, calls[i].now) + 1) as real
            > rps as real + Flow(rps as real, start, calls[i].now)
    decreases |calls|
  {
    hide Flow, Accounts, Step, Take;
    var c := calls[0];
    StepFits(p, c, dest, rps, from);
    var (p', a) := Step(p, c);
    assert Answers(p, calls) == [a] + Answers(p', calls[1..]);
    InOrder(calls, from, 0, i);
    if c.dest == dest {
      var s0, u0 := OwnStep(p, c, rps, from, since, used);
      var since', used' := Accounted(BucketFor(p, c), c.now, s0, u0);
      AccountsStart(BucketFor(p, c), s0, u0);
      if i == 0 {
        start := s0;
      } else {
        start := RefusalFrom(p', calls[1..], dest, rps, c.now, i - 1, since', used');
        SpentPrefix(p, calls, i, dest, start, calls[i].now);
      }
    } else {
      OtherStep(p, c, dest);
      start := RefusalFrom(p', calls[1..], dest, rps, c.now, i - 1, since, used);
      SpentPrefix(p, calls, i, dest, start, calls[i].now);
    }
  }

  lemma AccountsStart(b: Bucket, since: int, used: nat)
    requires Accounts(b, since, used)
    ensures since <= b.last
  {}

  /** A delivery is held back only when it is due: one more token would overfill some window that ends with the call. */
  lemma HeldOnlyIfDue(calls: seq<Call>, dest: Dest, rps: int, from: int, i: nat)
    requires rps > 0 && ClockedCalls(from, calls) && ConstantRate(calls, dest, rps)
    requires i < |calls| && calls[i].dest == dest && !Answers(map[], calls)[i].spent
    ensures exists start: int ::
      && start <= calls[i].now
      && (TokensSpent(calls[..i], Answers(map[], calls)[..i], dest, start, calls[i].now) + 1) as real
         > rps as real + rps as real * ((calls[i].now - start) as real / 1_000_000_000.0)
  {
    hide Flow, TokensSpent, Answers, ClockedCalls, ConstantRate, Accounts;
    var start := RefusalFrom(map[], calls, dest, rps, from, i, from, 0);
    FlowIs(rps as real, start, calls[i].now);
    assert Before(map[], dest, from, 0, start) == 0;
    hide Before;
    var n := TokensSpent(calls[..i], Answers(map[], calls)[..i], dest, start, calls[i].now);
    assert (n + 1) as real > rps as real + rps as real * ((calls[i].now - start) as real / 1_000_000_000.0);
  }

  /** A destination without a limit is never held back and costs nothing; one whose limit changed starts with a full
      bucket of the new one. */
  lemma LimitChanges(p: Pacer, c: Call)
    ensures c.rps <= 0 ==> Step(p, c) == (p, Answer(0, false))
    ensures c.rps > 0 && c.dest in p && p[c.dest].rate != c.rps as real && c.created == c.now ==>
      Step(p, c).1 == Answer(0, true) && Step(p, c).0 == p[c.dest := Bucket((c.rps - 1) as real, c.rps as real, c.now)]
  {
    hide Wait;
    assert Seconds(0) == 0.0;
  }

  // "0 means a token was consumed": exactly for the rates that divide a second of nanoseconds.

  /** Every attempt that would answer a zero wait has spent a token. */
  ghost predicate ZeroMeansSpent(b: Bucket, times: seq<int>)
    requires b.rate > 0.0
    decreases |times|
  {
    times != [] ==>
      var (b', took) := Take(b, times[0]);
      (took || Wait(b') != 0) && ZeroMeansSpent(b', times[1..])
  }

  /** Token counts that are whole multiples of the inflow of one nanosecond. */
  ghost predicate OnGrid(b: Bucket, q: int, k: int)
    requires q > 0
  {
    b.tokens * q as real == k as real
  }

  lemma GridRefill(b: Bucket, rps: int, q: int, k: int, now: int) returns (k': int)
    requires rps > 0 && q > 0 && rps * q == NANOS && b.rate == rps as real && OnGrid(b, q, k)
    ensures OnGrid(Refill(b, now), q, k')
  {
    var inflow := Flow(b.rate, b.last, now);
    assert inflow * q as real == (now - b.last) as real by { InflowOnGrid(rps, q, now - b.last); }
    hide Flow;
    if b.tokens + inflow > b.rate {
      k' := rps * q;
      assert (rps * q) as real == rps as real * q as real;
    } else {
      k' := k + (now - b.last);
      assert (b.tokens + inflow) * q as real == b.tokens * q as real + inflow * q as real;
    }
  }

  lemma GridSpend(b: Bucket, q: int, k: int)
    requires q > 0 && OnGrid(b, q, k)
    ensures OnGrid(b.(tokens := b.tokens - 1.0), q, k - q)
    ensures b.tokens < 1.0 ==> k < q
  {
    assert (b.tokens - 1.0) * q as real == b.tokens * q as real - q as real;
    if b.tokens < 1.0 { assert b.tokens * q as real < 1.0 * q as real; }
  }

  lemma WaitIs(b: Bucket, n: int)
    requires b.rate > 0.0 && (1.0 - b.tokens) / b.rate * NANOS as real == n as real
    ensures Wait(b) == n
  {}

  lemma GridStep(b: Bucket, rps: int, q: int, k: int, now: int) returns (k': int)
    requires rps > 0 && q > 0 && rps * q == NANOS && b.rate == rps as real && OnGrid(b, q, k)
    ensures OnGrid(Take(b, now).0, q, k')
    ensures !Take(b, now).1 ==> Wait(Take(b, now).0) >= 1
  {
    k' := GridRefill(b, rps, q, k, now);
    var full := Refill(b, now);
    assert full.rate == rps as real;
    GridSpend(full, q, k');
    if full.tokens >= 1.0 {
      hide Refill, OnGrid, Wait;
      k' := k' - q;
    } else {
      WaitOnGrid(full.tokens, rps, q, k');
      WaitIs(full, q - k');
      hide Refill, OnGrid, Wait;
    }
  }

  lemma InflowOnGrid(rps: int, q: int, n: int)
    requires rps > 0 && q > 0 && rps * q == NANOS
    ensures Seconds(n) * rps as real * q as real == n as real
  {
    assert Seconds(n) * (rps * q) as real == n as real;
    assert (rps * q) as real == rps as real * q as real;
  }

  lemma WaitOnGrid(tokens: real, rps: int, q: int, k: int)
    requires rps > 0 && q > 0 && rps * q == NANOS && tokens * q as real == k as real
    ensures (1.0 - tokens) / rps as real * NANOS as real == (q - k) as real
  {
    var d := 1.0 - tokens;
    assert NANOS as real == rps as real * q as real by { assert (rps * q) as real == rps as real * q as real; }
    assert d / rps as real * (rps as real * q as real) == (d / rps as real * rps as real) * q as real;
    assert d / rps as real * rps as real == d;
  }

  lemma {:induction false} DividingRateIsHonest(b: Bucket, rps: int, q: int, k: int, times: seq<int>)
    requires rps > 0 && q > 0 && rps * q == NANOS && b.rate == rps as real && OnGrid(b, q, k)
    ensures ZeroMeansSpent(b, times)
    decreases |times|
  {
    if times != [] {
      var k' := GridStep(b, rps, q, k, times[0]);
      DividingRateIsHonest(Take(b, times[0]).0, rps, q, k', times[1..]);
    }
  }

  /** `n` attempts at one instant, then one at `later`. */
  function Burst(n: nat, at: int, later: int): seq<int> {
    seq(n, _ => at) + [later]
  }

  lemma {:induction false} BurstThenZero(b: Bucket, n: nat, rps: int, later: int)
    requires 0 <= n <= rps && rps > 0 && b == Bucket(n as real, rps as real, 0)
    requires 0 <= later && later * rps < NANOS < (later + 1) * rps
    ensures !ZeroMeansSpent(b, Burst(n, 0, later))
    decreases n
  {
    var times := Burst(n, 0, later);
    assert Flow(b.rate, 0, 0) == 0.0;
    if n > 0 {
      assert times[0] == 0 && times[1..] == Burst(n - 1, 0, later);
      assert Take(b, 0) == (Bucket((n - 1) as real, rps as real, 0), true);
      BurstThenZero(Bucket((n - 1) as real, rps as real, 0), n - 1, rps, later);
    } else {
      assert times == [later];
      var full := Refill(b, later);
      assert full.tokens == (later * rps) as real / NANOS as real by {
        assert Seconds(later) * rps as real == (later * rps) as real / NANOS as real;
      }
      assert full.tokens < 1.0;
      ShortDeficit(full.tokens, rps, later);
    }
  }

  lemma ShortDeficit(tokens: real, rps: int, later: int)
    requires rps > 0 && tokens == (later * rps) as real / NANOS as real
    requires later * rps < NANOS < (later + 1) * rps
    ensures ((1.0 - tokens) / rps as real * NANOS as real).Floor == 0
  {
    var d := (1.0 - tokens) * NANOS as real;
    assert d == (NANOS - later * rps) as real;
    assert (1.0 - tokens) / rps as real * NANOS as real == d / rps as real;
    assert 0.0 < d < rps as real;
    assert d / rps as real < 1.0;
  }

  lemma NonDividing(rps: int)
    requires rps > 0 && NANOS % rps != 0
    ensures NANOS / rps * rps < NANOS < (NANOS / rps + 1) * rps
  {
    assert NANOS == NANOS / rps * rps + NANOS % rps;
  }

  /** A zero answer always means that a token was consumed if and only if the rate divides 10^9:
      otherwise the truncated wait lets some delivery through unpaid. */
  lemma ZeroMeansSpentIff(rps: int)
    requires rps > 0
    ensures (forall times: seq<int> :: Clocked(0, times) ==> ZeroMeansSpent(Fresh(rps, 0), times))
       <==> NANOS % rps == 0
  {
    var b := Fresh(rps, 0);
    if NANOS % rps == 0 {
      var q := NANOS / rps;
      assert rps * q == NANOS;
      assert q > 0;
      forall times: seq<int> ensures ZeroMeansSpent(b, times) {
        DividingRateIsHonest(b, rps, q, rps * q, times);
      }
    } else {
      NonDividing(rps);
      BurstThenZero(b, rps, rps, NANOS / rps);
      assert Clocked(0, Burst(rps, 0, NANOS / rps));
    }
  }

  /** A destination's bucket, updated in place. */
  class PaceBucket {
    var tokens: real
    var burst: real
    var ratePerSec: real
    var last: int

    constructor (rps: int, now: int)
      ensures Valid() && View() == Fresh(rps, now)
    {
      tokens, burst, ratePerSec, last := rps as real, rps as real, rps as real, now;
    }

    ghost predicate Valid() reads this { burst == ratePerSec }

    ghost function View(): Bucket reads this { Bucket(tokens, ratePerSec, last) }

    method Reserve(now: int) returns (wait: int)
      requires Valid() && ratePerSec > 0.0
      modifies this
      ensures Valid() && View() == Take(old(View()), now).0
      ensures wait == if Take(old(View()), now).1 then 0 else Wait(View())
    {
      tokens := tokens + Seconds(now - last) * ratePerSec;
      if tokens > burst { tokens := burst; }
      last := now;
      if tokens >= 1.0 {
        tokens := tokens - 1.0;
        return 0;
      }
      return ((1.0 - tokens) / ratePerSec * NANOS as real).Floor;
    }
  }

  class PacerTable {
    var buckets: map<Dest, PaceBucket>

    constructor ()
      ensures Valid() && View() == map[]
    {
      buckets := map[];
    }

    ghost predicate Valid()
      reads this, buckets.Values
    {
      && (forall d :: d in buckets ==> buckets[d].Valid())
      && (forall d, d' :: d in buckets && d' in buckets && d != d' ==> buckets[d] != buckets[d'])
    }

    ghost function View(): Pacer
      reads this, buckets.Values
    {
      map d | d in buckets :: buckets[d].View()
    }

    /** Put a bucket under a destination. */
    method Replace(dest: Dest, b: PaceBucket)
      requires Valid() && b.Valid() && b !in buckets.Values
      modifies this
      ensures Valid() && buckets == old(buckets)[dest := b] && View() == old(View())[dest := b.View()]
    {
      buckets := buckets[dest := b];
    }

    /** Use the bucket of a destination. */
    method Use(dest: Dest, now: int) returns (wait: int)
      requires Valid() && dest in buckets && buckets[dest].ratePerSec > 0.0
      modifies buckets.Values
      ensures Valid()
      ensures var (b, took) := Take(old(View())[dest], now);
              View() == old(View())[dest := b] && wait == if took then 0 else Wait(b)
    {
      hide Take, Wait;
      assert buckets[dest] in buckets.Values;
      wait := buckets[dest].Reserve(now);
      assert forall d :: d in buckets && d != dest ==> buckets[d].View() == old(buckets[d].View());
    }

    method Reserve(c: Call) returns (wait: int)
      requires Valid()
      modifies this, buckets.Values
      ensures Valid()
      ensures View() == Step(old(View()), c).0 && wait == Step(old(View()), c).1.wait
    {
      hide Take, Wait;
      if c.rps <= 0 { return 0; }
      if c.dest !in buckets || buckets[c.dest].ratePerSec != c.rps as real {
        var b := new PaceBucket(c.rps, c.created);
        Replace(c.dest, b);
      }
      assert View()[c.dest] == BucketFor(old(View()), c);
      wait := Use(c.dest, c.now);
    }
  }
}
