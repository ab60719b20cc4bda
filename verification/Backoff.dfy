/** Exponential backoff with jitter. Durations are whole nanoseconds. The product base * 2^(attempt-1)
    is exact in the source: a base of int32 seconds fits the 53-bit significand, scaling by a power of
    two is exact and an overflow to infinity lands on the cap. */
module Backoff {
  import opened Options

  const SECOND: int := 1_000_000_000

  function Pow2(n: nat): (p: nat)
    ensures p >= 1
  {
    if n == 0 then 1 else 2 * Pow2(n - 1)
  }

  /** The delay before jitter, branch for branch as computed. */
  function Scaled(attempt: int, base: int, max: int): int
    requires base > 0
  {
    var delay :=
      if attempt > 1 then
        var scaled := base * Pow2(attempt - 1);
        if max > 0 && scaled >= max then max else scaled
      else base;
    if max > 0 && delay > max then max else delay
  }

  /** The largest jitter that may be drawn. */
  function JitterRange(attempt: int, base: int, max: int): int
    requires base > 0
  {
    Scaled(attempt, base, max) / 2
  }

  /** The wait before a retry, for a draw uniform in 0..JitterRange. */
  function Delay(attempt: int, base: int, max: int, draw: nat): int {
    if base <= 0 then 0
    else
      var delay := Scaled(attempt, base, max);
      var half := delay / 2;
      if half <= 0 then delay else half + draw
  }

  function Min(a: int, b: int): int { if a <= b then a else b }

  /** The documented ceiling: base doubled for every earlier attempt, capped. */
  function Ceiling(attempt: nat, base: int, max: int): int
    requires attempt >= 1
  {
    Min(base * Pow2(attempt - 1), max)
  }

  ghost predicate Drawn(attempt: int, base: int, max: int, draw: nat)
    requires base > 0
  {
    draw <= JitterRange(attempt, base, max)
  }

  lemma DelayRange(attempt: nat, base: int, max: int, draw: nat)
    requires attempt >= 1 && base > 0 && max > 0 && Drawn(attempt, base, max, draw)
    ensures Scaled(attempt, base, max) == Ceiling(attempt, base, max)
    ensures Ceiling(attempt, base, max) / 2 <= Delay(attempt, base, max, draw) <= Ceiling(attempt, base, max)
    ensures Delay(attempt, base, max, draw) > 0
  {
    assert base * Pow2(0) == base;
    assert base * Pow2(attempt - 1) >= base by { Doubling(base, attempt - 1); }
  }

  /** Every whole nanosecond from half the ceiling to twice that half is drawn by exactly one draw. */
  lemma JitterCovers(attempt: nat, base: int, max: int, delay: int)
    requires attempt >= 1 && base > 0 && max > 0
    requires var half := Ceiling(attempt, base, max) / 2; half <= delay <= 2 * half && half > 0
    ensures exists draw: nat :: Drawn(attempt, base, max, draw) && Delay(attempt, base, max, draw) == delay
    ensures forall draw: nat, draw': nat :: Delay(attempt, base, max, draw) == Delay(attempt, base, max, draw') ==>
        draw == draw'
  {
    DelayRange(attempt, base, max, 0);
    var draw: nat := delay - Ceiling(attempt, base, max) / 2;
    assert Drawn(attempt, base, max, draw) && Delay(attempt, base, max, draw) == delay;
  }

  /** When the queue is told to retry: after the drawn delay, or never told, which leaves the queue's own schedule. */
  function NextRetry(attempt: int, baseSeconds: int, maxSeconds: int, draw: nat, now: int): Option<int> {
    var delay := Delay(attempt, baseSeconds * SECOND, maxSeconds * SECOND, draw);
    if delay <= 0 then None else Some(now + delay)
  }

  /** A job without a policy is left to the queue; any other waits between half and all of its ceiling in seconds. */
  lemma NextRetryRange(attempt: nat, baseSeconds: int, maxSeconds: int, draw: nat, now: int)
    requires attempt >= 1 && maxSeconds > 0
    requires baseSeconds > 0 ==> Drawn(attempt, baseSeconds * SECOND, maxSeconds * SECOND, draw)
    ensures NextRetry(attempt, baseSeconds, maxSeconds, draw, now).None? <==> baseSeconds <= 0
    ensures baseSeconds > 0 ==>
      var ceiling := Min(baseSeconds * 1_000_000_000 * Pow2(attempt - 1), maxSeconds * 1_000_000_000);
      ceiling / 2 <= NextRetry(attempt, baseSeconds, maxSeconds, draw, now).value - now <= ceiling
  {
    if baseSeconds > 0 { DelayRange(attempt, baseSeconds * SECOND, maxSeconds * SECOND, draw); }
  }

  /** Minimum and powers of two, outright. */
  lemma Arithmetic(a: int, b: int, n: nat)
    ensures Min(a, b) <= a && Min(a, b) <= b && (Min(a, b) == a || Min(a, b) == b)
    ensures Pow2(0) == 1 && Pow2(n + 1) == Pow2(n) + Pow2(n)
  {}

  lemma {:induction false} Doubling(base: int, n: nat)
    requires base > 0
    ensures base * Pow2(n) >= base
    ensures base * Pow2(n + 1) == 2 * (base * Pow2(n))
  {
    assert Pow2(n + 1) == 2 * Pow2(n);
    if n > 0 { Doubling(base, n - 1); }
  }

  /** While the cap is not reached, the shortest next wait is no shorter than the longest current one. */
  lemma NoShorterNext(attempt: nat, base: int, max: int, draw: nat, next: nat)
    requires attempt >= 1 && base > 0 && max > 0 && base * Pow2(attempt) <= max
    requires Drawn(attempt, base, max, draw) && Drawn(attempt + 1, base, max, next)
    ensures Delay(attempt, base, max, draw) <= Delay(attempt + 1, base, max, next)
  {
    DelayRange(attempt, base, max, draw);
    DelayRange(attempt + 1, base, max, next);
    Doubling(base, attempt - 1);
  }

  /** At the cap that ordering is lost: a later wait can be shorter than an earlier one. */
  lemma ShorterAtTheCap()
    ensures Drawn(1, 10, 10, 5) && Drawn(2, 10, 10, 0)
    ensures Delay(2, 10, 10, 0) < Delay(1, 10, 10, 5)
  {}

  /** The whole wait over the retries that follow attempts 1..n. */
  function Total(n: nat, base: int, max: int, draws: seq<nat>): int
    requires |draws| == n
  {
    if n == 0 then 0 else Total(n - 1, base, max, draws[..n - 1]) + Delay(n, base, max, draws[n - 1])
  }

  function HalfCeilings(n: nat, base: int, max: int): int {
    if n == 0 then 0 else HalfCeilings(n - 1, base, max) + Ceiling(n, base, max) / 2
  }

  /** How many of the first n attempts wait below the cap. */
  function Uncapped(n: nat, base: int, max: int): (m: nat)
    ensures m <= n
  {
    if n == 0 then 0
    else Uncapped(n - 1, base, max) + (if base * Pow2(n - 1) < max then 1 else 0)
  }

  ghost predicate AllDrawn(n: nat, base: int, max: int, draws: seq<nat>)
    requires base > 0 && |draws| == n
  {
    forall i :: 0 <= i < n ==> Drawn(i + 1, base, max, draws[i])
  }

  /** The uncapped attempts are the first ones. */
  lemma {:induction false} UncappedIsPrefix(n: nat, base: int, max: int)
    requires base > 0
    ensures Uncapped(n, base, max) < n ==> base * Pow2(n) >= max
    ensures n > 0 && base * Pow2(n - 1) < max ==> Uncapped(n, base, max) == n
  {
    if n > 0 {
      UncappedIsPrefix(n - 1, base, max);
      Doubling(base, n - 1);
      if n > 1 { Doubling(base, n - 2); }
    }
  }

  /** The geometric sum of the uncapped steps plus the cap for each other step. */
  function Upper(n: nat, base: int, max: int): int {
    base * (Pow2(Uncapped(n, base, max)) - 1) + (n - Uncapped(n, base, max)) * max
  }

  lemma UpperUncapped(n: nat, base: int, max: int)
    requires Uncapped(n, base, max) == n
    ensures Upper(n, base, max) == base * Pow2(n) - base
  {
    var p := Pow2(n);
    assert base * (p - 1) == base * p - base;
    assert (n - n) * max == 0;
  }

  lemma UpperCapped(n: nat, base: int, max: int)
    requires n > 0 && Uncapped(n, base, max) == Uncapped(n - 1, base, max)
    ensures Upper(n, base, max) == Upper(n - 1, base, max) + max
  {
    var m := Uncapped(n, base, max);
    hide Pow2, Uncapped;
    assert (n - m) * max == (n - 1 - m) * max + max;
  }

  /** The bound on the total grows by one ceiling a step. */
  lemma UpperStep(n: nat, base: int, max: int)
    requires base > 0 && max > 0 && n > 0
    ensures Upper(n, base, max) == Upper(n - 1, base, max) + Ceiling(n, base, max)
  {
    hide Upper, Pow2;
    UncappedIsPrefix(n, base, max);
    if base * Pow2(n - 1) < max {
      Doubling(base, n - 1);
      UpperUncapped(n, base, max);
      UpperUncapped(n - 1, base, max);
    } else {
      UpperCapped(n, base, max);
    }
  }

  /** Total wait: at least half of every ceiling, at most the geometric sum of the uncapped steps
      plus the cap for each other step. */
  lemma {:induction false} TotalBounds(n: nat, base: int, max: int, draws: seq<nat>)
    requires base > 0 && max > 0 && |draws| == n && AllDrawn(n, base, max, draws)
    ensures HalfCeilings(n, base, max) <= Total(n, base, max, draws) <= Upper(n, base, max)
  {
    hide Upper, Ceiling, Delay;
    if n == 0 {
      assert Upper(0, base, max) == 0 by { EmptyUpper(base, max); }
    } else {
      TotalBounds(n - 1, base, max, draws[..n - 1]);
      assert Drawn(n - 1 + 1, base, max, draws[n - 1]);
      DelayRange(n, base, max, draws[n - 1]);
      UpperStep(n, base, max);
    }
  }

  lemma EmptyUpper(base: int, max: int)
    ensures Upper(0, base, max) == 0
  {
    assert Pow2(0) == 1;
  }

  /** The default policy (base 30s, cap 12h, 16 attempts hence 15 waits) spreads its retries over
      at least 32 and at most 66 hours. */
  lemma DefaultSpread(draws: seq<nat>)
    requires |draws| == 15 && AllDrawn(15, 30 * SECOND, 43200 * SECOND, draws)
    ensures 32 * 3600 * SECOND <= Total(15, 30 * SECOND, 43200 * SECOND, draws) <= 66 * 3600 * SECOND
  {
    hide Total, AllDrawn, Delay, Upper, HalfCeilings;
    TotalBounds(15, 30 * SECOND, 43200 * SECOND, draws);
    DefaultSums();
  }

  lemma DefaultSums()
    ensures HalfCeilings(15, 30 * SECOND, 43200 * SECOND) == 117_105 * SECOND
    ensures Upper(15, 30 * SECOND, 43200 * SECOND) == 234_210 * SECOND
  {
    hide HalfCeilings, Uncapped;
    DefaultHalves();
    DefaultUncapped();
    assert Pow2(11) == 2048;
  }

  lemma DefaultHalves()
    ensures HalfCeilings(15, 30_000_000_000, 43_200_000_000_000) == 117_105_000_000_000
  {
    assert Pow2(5) == 32;
    assert Pow2(10) == 1024;
    assert Pow2(0) == 1 && Pow2(1) == 2 && Pow2(2) == 4 && Pow2(3) == 8 && Pow2(4) == 16;
    assert Pow2(6) == 64 && Pow2(7) == 128 && Pow2(8) == 256 && Pow2(9) == 512;
    assert Pow2(11) == 2048 && Pow2(12) == 4096 && Pow2(13) == 8192 && Pow2(14) == 16384;
    hide Pow2;
    assert HalfCeilings(1, 30_000_000_000, 43_200_000_000_000) == 15_000_000_000;
    assert HalfCeilings(2, 30_000_000_000, 43_200_000_000_000) == 45_000_000_000;
    assert HalfCeilings(3, 30_000_000_000, 43_200_000_000_000) == 105_000_000_000;
    assert HalfCeilings(4, 30_000_000_000, 43_200_000_000_000) == 225_000_000_000;
    assert HalfCeilings(5, 30_000_000_000, 43_200_000_000_000) == 465_000_000_000;
    assert HalfCeilings(6, 30_000_000_000, 43_200_000_000_000) == 945_000_000_000;
    assert HalfCeilings(7, 30_000_000_000, 43_200_000_000_000) == 1_905_000_000_000;
    assert HalfCeilings(8, 30_000_000_000, 43_200_000_000_000) == 3_825_000_000_000;
    assert HalfCeilings(9, 30_000_000_000, 43_200_000_000_000) == 7_665_000_000_000;
    assert HalfCeilings(10, 30_000_000_000, 43_200_000_000_000) == 15_345_000_000_000;
    assert HalfCeilings(11, 30_000_000_000, 43_200_000_000_000) == 30_705_000_000_000;
    assert HalfCeilings(12, 30_000_000_000, 43_200_000_000_000) == 52_305_000_000_000;
    assert HalfCeilings(13, 30_000_000_000, 43_200_000_000_000) == 73_905_000_000_000;
    assert HalfCeilings(14, 30_000_000_000, 43_200_000_000_000) == 95_505_000_000_000;
  }

  lemma DefaultUncapped()
    ensures Uncapped(15, 30_000_000_000, 43_200_000_000_000) == 11
  {
    assert Pow2(10) == 1024 && Pow2(11) == 2048 && Pow2(12) == 4096 && Pow2(13) == 8192 && Pow2(14) == 16384;
    hide Pow2;
    UncappedIsPrefix(11, 30_000_000_000, 43_200_000_000_000);
    assert Uncapped(12, 30_000_000_000, 43_200_000_000_000) == 11;
    assert Uncapped(13, 30_000_000_000, 43_200_000_000_000) == 11;
    assert Uncapped(14, 30_000_000_000, 43_200_000_000_000) == 11;
  }
}
