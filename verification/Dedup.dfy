/** The dedupe index: one row per (source, key) with an expiry, standing in for a scan of event history. */
module Dedup {
  type SourceId = nat
  type EventId = nat
  type DedupeKey = nat

  const MICROS: int := 1_000_000
  const DEFAULT_WINDOW_SECONDS: int := 300

  datatype Key = Key(source: SourceId, value: DedupeKey)
  datatype Row = Row(event: EventId, expiresAt: int)
  type Index = map<Key, Row>

  /** A source's window in microseconds; a non-positive setting means the default. */
  function Window(seconds: int): (w: int)
    ensures w > 0
    ensures seconds > 0 ==> w == seconds * 1_000_000
    ensures seconds <= 0 ==> w == 300_000_000
  {
    (if seconds <= 0 then DEFAULT_WINDOW_SECONDS else seconds) * MICROS
  }

  /** The upsert: insert, or take over a row that has expired; otherwise no row comes back. */
  function Claim(index: Index, key: Key, event: EventId, window: int, now: int): (Index, bool) {
    if key in index && index[key].expiresAt > now then (index, false)
    else (index[key := Row(event, now + window)], true)
  }

  function DeleteExpired(index: Index, now: int): Index {
    map k | k in index && index[k].expiresAt > now :: index[k]
  }

  /** What can happen to the index, each with its own clock reading. */
  datatype Op =
    | Ingest(key: Key, event: EventId, windowSeconds: int, now: int)
    | Cleanup(now: int)

  /** No reading is earlier than a reading before it. */
  ghost predicate Clocked(ops: seq<Op>) {
    forall i, j :: 0 <= i < j < |ops| ==> ops[i].now <= ops[j].now
  }

  function After(ops: seq<Op>): Index {
    if ops == [] then map[]
    else
      var index, op := After(ops[..|ops| - 1]), ops[|ops| - 1];
      match op
      case Ingest(key, event, w, now) => Claim(index, key, event, Window(w), now).0
      case Cleanup(now) => DeleteExpired(index, now)
  }

  /** Whether operation i is an ingest that won its key, by the index. */
  predicate Won(ops: seq<Op>, i: nat)
    requires i < |ops|
  {
    ops[i].Ingest? &&
    Claim(After(ops[..i]), ops[i].key, ops[i].event, Window(ops[i].windowSeconds), ops[i].now).1
  }

  /** How long after an ingest its key is taken, by its source's setting: 300 seconds unless a positive number of
      seconds is configured. */
  ghost predicate StillOpen(op: Op, now: int)
    requires op.Ingest?
  {
    now < op.now + (if op.windowSeconds > 0 then op.windowSeconds * 1_000_000 else 300_000_000)
  }

  /** Operation j claimed this key and its window reaches beyond `now`. */
  ghost predicate Covers(ops: seq<Op>, j: nat, key: Key, now: int)
    requires j < |ops|
  {
    Won(ops, j) && ops[j].key == key && StillOpen(ops[j], now)
  }

  /** The history scan: some earlier winner of the same source and key still covers `now`. */
  ghost predicate ScanFinds(ops: seq<Op>, i: nat, key: Key, now: int)
    requires i <= |ops|
  {
    exists j :: 0 <= j < i && Covers(ops, j, key, now)
  }

  lemma WonPrefix(ops: seq<Op>, k: nat, j: nat)
    requires j < k <= |ops|
    ensures Won(ops[..k], j) == Won(ops, j)
  {
    assert ops[..k][..j] == ops[..j];
  }

  lemma {:induction false} ScanPrefix(ops: seq<Op>, k: nat, key: Key, now: int)
    requires k <= |ops|
    ensures ScanFinds(ops[..k], k, key, now) == ScanFinds(ops, k, key, now)
  {
    forall j | 0 <= j < k ensures Covers(ops[..k], j, key, now) == Covers(ops, j, key, now) {
      WonPrefix(ops, k, j);
    }
  }

  /** The live row of a key, as the index answers at a given time. */
  predicate Held(index: Index, key: Key, now: int) {
    key in index && index[key].expiresAt > now
  }

  /** At every instant not before the last reading, the index holds a key exactly when the scan finds a winner. */
  lemma {:induction false} IndexIsScan(ops: seq<Op>, key: Key, now: int)
    requires Clocked(ops) && (ops != [] ==> ops[|ops| - 1].now <= now)
    ensures Held(After(ops), key, now) <==> ScanFinds(ops, |ops|, key, now)
  {
    if ops != [] {
      var n := |ops| - 1;
      var init, op := ops[..n], ops[n];
      assert Clocked(init) && (n > 0 ==> init[n - 1].now <= now);
      IndexIsScan(init, key, now);
      ScanPrefix(ops, n, key, now);
      assert ScanFinds(ops, |ops|, key, now) <==> ScanFinds(ops, n, key, now) || Covers(ops, n, key, now);
      if op.Ingest? && op.key == key && Won(ops, n) {
        // the winner found the key free at op.now, so no earlier winner reaches beyond it
        assert n > 0 ==> init[n - 1].now <= op.now;
        IndexIsScan(init, key, op.now);
        ScanPrefix(ops, n, key, op.now);
        assert !ScanFinds(ops, n, key, now) by { ScanShrinks(ops, n, key, op.now, now); }
      }
    }
  }

  lemma ScanShrinks(ops: seq<Op>, i: nat, key: Key, from: int, now: int)
    requires i <= |ops| && from <= now && !ScanFinds(ops, i, key, from)
    ensures !ScanFinds(ops, i, key, now)
  {
    forall j | 0 <= j < i ensures !Covers(ops, j, key, now) {
      assert !Covers(ops, j, key, from);
    }
  }

  /** Refinement: an event is a duplicate if and only if some earlier winning event of the same source and key
      has win time plus window later than now. */
  lemma DuplicateIff(ops: seq<Op>, i: nat)
    requires Clocked(ops) && i < |ops| && ops[i].Ingest?
    ensures !Won(ops, i) <==> ScanFinds(ops, i, ops[i].key, ops[i].now)
  {
    var init := ops[..i];
    assert Clocked(init) && (i > 0 ==> init[i - 1].now <= ops[i].now);
    IndexIsScan(init, ops[i].key, ops[i].now);
    ScanPrefix(ops, i, ops[i].key, ops[i].now);
  }

  /** Any two winners of one key are at least one, always positive, window apart. */
  lemma WinnersApart(ops: seq<Op>, i: nat, j: nat)
    requires Clocked(ops) && i < j < |ops| && Won(ops, i) && Won(ops, j) && ops[i].key == ops[j].key
    ensures ops[i].windowSeconds > 0 ==> ops[j].now >= ops[i].now + ops[i].windowSeconds * 1_000_000
    ensures ops[i].windowSeconds <= 0 ==> ops[j].now >= ops[i].now + 300_000_000
  {
    DuplicateIff(ops, j);
    assert !Covers(ops, i, ops[j].key, ops[j].now);
  }

  // Cleanup is invisible

  function Ingests(ops: seq<Op>): seq<Op> {
    if ops == [] then []
    else Ingests(ops[..|ops| - 1]) + (if ops[|ops| - 1].Ingest? then [ops[|ops| - 1]] else [])
  }

  /** The outcome of every ingest, in order. */
  function Outcomes(ops: seq<Op>): seq<bool> {
    if ops == [] then []
    else
      Outcomes(ops[..|ops| - 1]) + (if ops[|ops| - 1].Ingest? then [Won(ops, |ops| - 1)] else [])
  }

  /** Two indexes that differ at most in expired rows. */
  ghost predicate SameLive(a: Index, b: Index, now: int) {
    && (forall k :: k in a && a[k].expiresAt > now ==> k in b && b[k] == a[k])
    && (forall k :: k in b && b[k].expiresAt > now ==> k in a && a[k] == b[k])
  }

  lemma SimulateClaim(a: Index, b: Index, from: int, key: Key, event: EventId, window: int, now: int)
    requires SameLive(a, b, from) && from <= now
    ensures Claim(a, key, event, window, now).1 == Claim(b, key, event, window, now).1
    ensures SameLive(Claim(a, key, event, window, now).0, Claim(b, key, event, window, now).0, now)
  {}

  lemma SimulateCleanup(a: Index, b: Index, from: int, now: int)
    requires SameLive(a, b, from) && from <= now
    ensures SameLive(DeleteExpired(a, now), b, now)
  {}

  function LastReading(ops: seq<Op>): int {
    if ops == [] then 0 else ops[|ops| - 1].now
  }

  lemma IngestsClocked(ops: seq<Op>)
    requires Clocked(ops)
    ensures Clocked(Ingests(ops))
    ensures forall i :: 0 <= i < |Ingests(ops)| ==> Ingests(ops)[i].Ingest? && Ingests(ops)[i].now <= LastReading(ops)
  {
    if ops != [] {
      var init := ops[..|ops| - 1];
      IngestsClocked(init);
      assert init != [] ==> LastReading(init) <= LastReading(ops);
    }
  }

  /** Deleting every cleanup from a run leaves all outcomes and, up to expired rows, the index. */
  lemma {:induction false} CleanupInvisible(ops: seq<Op>)
    requires Clocked(ops)
    ensures Outcomes(Ingests(ops)) == Outcomes(ops)
    ensures SameLive(After(ops), After(Ingests(ops)), LastReading(ops))
  {
    if ops != [] {
      var init, op := ops[..|ops| - 1], ops[|ops| - 1];
      CleanupInvisible(init);
      IngestsClocked(ops);
      var kept := Ingests(init);
      if init == [] {
        assert After(init) == map[] && After(kept) == map[];
        assert SameLive(After(init), After(kept), op.now);
      } else {
        assert LastReading(init) <= op.now;
        assert SameLive(After(init), After(kept), op.now);
      }
      match op
      case Ingest(key, event, w, now) =>
        SimulateClaim(After(init), After(kept), now, key, event, Window(w), now);
        assert Ingests(ops)[..|Ingests(ops)| - 1] == kept;
      case Cleanup(now) =>
        SimulateCleanup(After(init), After(kept), now, now);
        assert Ingests(ops) == kept;
    }
  }

  /** Two runs with the same ingests, whatever cleanups each has and wherever, decide every event alike. */
  lemma SameIngestsSameOutcomes(ops1: seq<Op>, ops2: seq<Op>)
    requires Clocked(ops1) && Clocked(ops2) && Ingests(ops1) == Ingests(ops2)
    ensures Outcomes(ops1) == Outcomes(ops2)
  {
    CleanupInvisible(ops1);
    CleanupInvisible(ops2);
  }

  /** With a reading that goes backward, as overlapping transactions can produce, cleanup does show: the
      same ingests, one cleanup stamped later than the second of them, and its duplicate is not caught. */
  lemma BackwardReadingShows()
    ensures var first := Ingest(Key(1, 1), 10, 1, 0);
            var again := Ingest(Key(1, 1), 11, 1, MICROS - 1);
            && Outcomes([first, again]) == [true, false]
            && Outcomes([first, Cleanup(MICROS), again]) == [true, true]
  {
    var first := Ingest(Key(1, 1), 10, 1, 0);
    var again := Ingest(Key(1, 1), 11, 1, MICROS - 1);
    var plain, cleaned := [first, again], [first, Cleanup(MICROS), again];
    assert [first][..0] == [] && plain[..1] == [first];
    assert cleaned[..2] == [first, Cleanup(MICROS)] && [first, Cleanup(MICROS)][..1] == [first];
    assert After([]) == map[];
    assert After([first]) == map[Key(1, 1) := Row(10, MICROS)];
    assert After([first, Cleanup(MICROS)]) == map[];
    assert Outcomes([]) == [];
    assert Outcomes([first]) == [true];
    assert Outcomes([first, Cleanup(MICROS)]) == [true];
  }

  /** The table itself, updated by statement. */
  class DedupIndex {
    var rows: Index

    constructor ()
      ensures rows == map[]
    {
      rows := map[];
    }

    method ClaimDedupeKey(key: Key, event: EventId, window: int, now: int) returns (claimed: bool)
      modifies this
      ensures (rows, claimed) == Claim(old(rows), key, event, window, now)
      ensures claimed <==> key !in old(rows) || old(rows)[key].expiresAt <= now
      ensures rows == if claimed then old(rows)[key := Row(event, now + window)] else old(rows)
    {
      if key !in rows {
        rows := rows[key := Row(event, now + window)];
        return true;
      }
      if rows[key].expiresAt <= now {
        rows := rows[key := Row(event, now + window)];
        return true;
      }
      return false;
    }

    method DeleteExpiredEntries(now: int) returns (deleted: nat)
      modifies this
      ensures rows == DeleteExpired(old(rows), now)
      ensures forall k :: k in rows <==> k in old(rows) && old(rows)[k].expiresAt > now
      ensures forall k :: k in rows ==> rows[k] == old(rows)[k]
      ensures deleted == |old(rows)| - |rows|
    {
      var kept := map k | k in rows && rows[k].expiresAt > now :: rows[k];
      assert kept.Keys <= rows.Keys;
      ghost var gone := rows.Keys - kept.Keys;
      assert rows.Keys == kept.Keys + gone && kept.Keys !! gone;
      deleted := |rows| - |kept|;
      rows := kept;
    }
  }
}
