/** Cursor pagination over the event log. Event ids are time-ordered, so they are modelled as numbers;
    a filter is a fixed set of matching ids. */
module Paging {
  import opened Options

  type EventId = nat

  const DEFAULT_PAGE_SIZE: int := 50
  const MAX_PAGE_SIZE: int := 200

  /** The page size of a request: 50 unless a positive limit is given, and never above 200. */
  function PageSize(limit: Option<int>): (size: Option<int>)
    ensures size.None? <==> limit.Some? && limit.value <= 0
    ensures size.Some? ==> 1 <= size.value <= 200
    ensures size.Some? && limit.Some? ==> size.value <= limit.value && (size.value < limit.value ==> size.value == 200)
    ensures limit.None? ==> size == Some(50)
  {
    match limit
    case None => Some(DEFAULT_PAGE_SIZE)
    case Some(n) => if n <= 0 then None else Some(if n < MAX_PAGE_SIZE then n else MAX_PAGE_SIZE)
  }

  ghost predicate Descending(ids: seq<EventId>) {
    forall i, j :: 0 <= i < j < |ids| ==> ids[i] > ids[j]
  }

  lemma {:induction false} MaxExists(s: set<EventId>)
    requires s != {}
    ensures exists m :: m in s && forall x :: x in s ==> x <= m
  {
    var y :| y in s;
    if s != {y} {
      assert forall x :: x in s ==> x == y || x in s - {y};
      assert s - {y} != {} by { assert s == (s - {y}) + {y}; }
      MaxExists(s - {y});
      var m :| m in s - {y} && forall x :: x in s - {y} ==> x <= m;
      assert (if y > m then y else m) in s;
    }
  }

  function Max(s: set<EventId>): (m: EventId)
    requires s != {}
    ensures m in s && forall x :: x in s ==> x <= m
  {
    MaxExists(s);
    var m :| m in s && forall x :: x in s ==> x <= m;
    m
  }

  ghost predicate Lists(ids: seq<EventId>, s: set<EventId>) {
    Descending(ids) && |ids| == |s| && forall x :: x in ids <==> x in s
  }

  /** ORDER BY id DESC: the one strictly descending listing of a set. */
  function Sorted(s: set<EventId>): (ids: seq<EventId>)
    ensures Lists(ids, s)
  {
    if s == {} then []
    else
      var m := Max(s);
      var rest := Sorted(s - {m});
      ListsCons(m, rest, s);
      [m] + rest
  }

  lemma ListsCons(m: EventId, rest: seq<EventId>, s: set<EventId>)
    requires m in s && (forall x :: x in s ==> x <= m) && Lists(rest, s - {m})
    ensures Lists([m] + rest, s)
  {
    var ids := [m] + rest;
    forall x ensures x in ids <==> x in s {
      assert x in ids <==> x == m || x in rest;
      assert x in rest <==> x in s - {m};
    }
    forall i, j | 0 <= i < j < |ids| ensures ids[i] > ids[j] {
      assert ids[j] == rest[j - 1] && ids[j] in rest;
    }
  }

  lemma {:induction false} SortedUnique(a: seq<EventId>, b: seq<EventId>)
    requires Descending(a) && Descending(b) && forall x :: x in a <==> x in b
    ensures a == b
  {
    if b != [] { assert b[0] in b; }
    if a != [] {
      assert a[0] in b && b != [];
      assert b[0] in a;
      assert a[0] == b[0];
      forall x ensures x in a[1..] <==> x in b[1..] {
        assert x in a[1..] <==> x in a && x != a[0];
        assert x in b[1..] <==> x in b && x != b[0];
      }
      SortedUnique(a[1..], b[1..]);
    }
  }

  /** The rows a query sees: stored, matching, and below the cursor when there is one. */
  function Visible(store: set<EventId>, matching: set<EventId>, cursor: Option<EventId>): set<EventId> {
    set x | x in store && x in matching && (cursor.None? || x < cursor.value)
  }

  /** ListEvents: filter, sort descending, limit. */
  function ListEvents(store: set<EventId>, matching: set<EventId>, cursor: Option<EventId>, limit: nat): seq<EventId> {
    var rows := Sorted(Visible(store, matching, cursor));
    if |rows| <= limit then rows else rows[..limit]
  }

  datatype Page = Page(events: seq<EventId>, next: Option<EventId>)

  /** One page: fetch one row too many, trim it, and hand out its predecessor as the cursor. */
  function PageOf(store: set<EventId>, matching: set<EventId>, cursor: Option<EventId>, size: nat): Page
    requires size >= 1
  {
    var rows := ListEvents(store, matching, cursor, size + 1);
    if |rows| > size then Page(rows[..size], Some(rows[size - 1])) else Page(rows, None)
  }

  /** The handler: trim the extra row, then copy the rows into the response one by one. */
  method List(store: set<EventId>, matching: set<EventId>, cursor: Option<EventId>, size: nat)
    returns (page: Page)
    requires size >= 1
    ensures page == PageOf(store, matching, cursor, size)
  {
    hide ListEvents, Sorted, Lists, Visible;
    var rows := ListEvents(store, matching, cursor, size + 1);
    var next: Option<EventId> := None;
    if |rows| > size {
      rows := rows[..size];
      next := Some(rows[|rows| - 1]);
    }
    var out: seq<EventId> := [];
    for i := 0 to |rows|
      invariant out == rows[..i]
    {
      out := out + [rows[i]];
    }
    assert out == rows;
    page := Page(out, next);
  }

  lemma RowIsVisible(rows: set<EventId>, i: nat)
    requires i < |Sorted(rows)|
    ensures Sorted(rows)[i] in rows
  {
    assert Lists(Sorted(rows), rows);
    assert Sorted(rows)[i] in Sorted(rows);
  }

  lemma RowCount(rows: set<EventId>)
    ensures |Sorted(rows)| == |rows|
  {
    assert Lists(Sorted(rows), rows);
  }

  /** The rows below the n-th row of a listing are its tail. */
  lemma TailBelow(rows: set<EventId>, n: nat)
    requires 1 <= n <= |Sorted(rows)|
    ensures Sorted(set x | x in rows && x < Sorted(rows)[n - 1]) == Sorted(rows)[n..]
  {
    hide Sorted;
    var ids := Sorted(rows);
    assert Lists(ids, rows);
    var below := set x | x in rows && x < ids[n - 1];
    forall x ensures x in below <==> x in ids[n..] {
      if x in below {
        assert x in ids;
        var k :| 0 <= k < |ids| && ids[k] == x;
        assert k >= n;
      }
      if x in ids[n..] {
        var k :| n <= k < |ids| && ids[k] == x;
        assert x in ids;
      }
    }
    assert Lists(Sorted(below), below);
    SortedUnique(Sorted(below), ids[n..]);
  }

  /** A page is the head of what remains; its cursor, if any, leaves exactly the tail. */
  lemma PageSplits(store: set<EventId>, matching: set<EventId>, cursor: Option<EventId>, size: nat)
    requires size >= 1
    ensures var rows := Sorted(Visible(store, matching, cursor));
            var page := PageOf(store, matching, cursor, size);
            if |rows| <= size then page == Page(rows, None)
            else
              && page == Page(rows[..size], Some(rows[size - 1]))
              && Sorted(Visible(store, matching, page.next)) == rows[size..]
              && rows[size - 1] in store
  {
    hide Sorted, Lists, Descending;
    var visible := Visible(store, matching, cursor);
    var rows := Sorted(visible);
    if |rows| > size {
      assert rows[..size + 1][..size] == rows[..size];
      var c := rows[size - 1];
      TailBelow(visible, size);
      RowIsVisible(visible, size - 1);
      assert Visible(store, matching, Some(c)) == set x | x in visible && x < c;
    }
  }

  /** Events that arrive later get ids above every stored one. */
  ghost predicate Above(arrivals: set<EventId>, store: set<EventId>) {
    forall a, x :: a in arrivals && x in store ==> a > x
  }

  /** The store when page k is requested. */
  function StoreAt(store: set<EventId>, arrivals: nat -> set<EventId>, k: nat): set<EventId> {
    if k == 0 then store else StoreAt(store, arrivals, k - 1) + arrivals(k - 1)
  }

  ghost predicate GrowsUpward(store: set<EventId>, arrivals: nat -> set<EventId>) {
    forall k: nat {:trigger Above(arrivals(k), StoreAt(store, arrivals, k))} ::
      Above(arrivals(k), StoreAt(store, arrivals, k))
  }

  lemma {:induction false} StoreGrows(store: set<EventId>, arrivals: nat -> set<EventId>, k: nat)
    ensures store <= StoreAt(store, arrivals, k)
  {
    if k > 0 { StoreGrows(store, arrivals, k - 1); }
  }

  /** Below an id that was already stored nothing ever appears. */
  lemma {:induction false} NothingBelow(store: set<EventId>, arrivals: nat -> set<EventId>, k: nat,
                                        cursor: EventId, x: EventId)
    requires GrowsUpward(store, arrivals) && cursor in store && x < cursor && x in StoreAt(store, arrivals, k)
    ensures x in store
  {
    if k > 0 {
      StoreGrows(store, arrivals, k - 1);
      assert Above(arrivals(k - 1), StoreAt(store, arrivals, k - 1));
      NothingBelow(store, arrivals, k - 1, cursor, x);
    }
  }

  lemma VisibleUnchanged(store: set<EventId>, arrivals: nat -> set<EventId>, matching: set<EventId>, k: nat,
                         cursor: EventId)
    requires GrowsUpward(store, arrivals) && cursor in store
    ensures Visible(StoreAt(store, arrivals, k), matching, Some(cursor)) == Visible(store, matching, Some(cursor))
  {
    StoreGrows(store, arrivals, k);
    forall x | x in Visible(StoreAt(store, arrivals, k), matching, Some(cursor))
      ensures x in store
    {
      NothingBelow(store, arrivals, k, cursor, x);
    }
  }

  function Remaining(store: set<EventId>, matching: set<EventId>, cursor: Option<EventId>): nat {
    |Visible(store, matching, cursor)|
  }

  /** Following next_cursor from page k on, with arrivals between the requests: all rows, page after page. */
  function Follow(store: set<EventId>, arrivals: nat -> set<EventId>, matching: set<EventId>,
                  cursor: EventId, size: nat, k: nat): seq<EventId>
    requires size >= 1 && GrowsUpward(store, arrivals) && cursor in store
    decreases Remaining(store, matching, Some(cursor))
  {
    var page := PageOf(StoreAt(store, arrivals, k), matching, Some(cursor), size);
    if page.next.None? then page.events
    else
      NextStays(store, arrivals, matching, Some(cursor), size, k);
      page.events + Follow(store, arrivals, matching, page.next.value, size, k + 1)
  }

  /** A page asked for later is the page the initial store would have given. */
  lemma SamePage(store: set<EventId>, arrivals: nat -> set<EventId>, matching: set<EventId>,
                 cursor: Option<EventId>, size: nat, k: nat)
    requires size >= 1 && GrowsUpward(store, arrivals)
    requires if cursor.Some? then cursor.value in store else k == 0
    ensures PageOf(StoreAt(store, arrivals, k), matching, cursor, size) == PageOf(store, matching, cursor, size)
  {
    if cursor.Some? { VisibleUnchanged(store, arrivals, matching, k, cursor.value); }
  }

  /** The next cursor is a row of the initial store and leaves strictly fewer rows. */
  lemma NextStays(store: set<EventId>, arrivals: nat -> set<EventId>, matching: set<EventId>,
                  cursor: Option<EventId>, size: nat, k: nat)
    requires size >= 1 && GrowsUpward(store, arrivals)
    requires if cursor.Some? then cursor.value in store else k == 0
    ensures var page := PageOf(StoreAt(store, arrivals, k), matching, cursor, size);
            page.next.Some? ==>
              && page.next.value in store
              && Remaining(store, matching, page.next) < Remaining(store, matching, cursor)
              && Sorted(Visible(store, matching, cursor))
                 == page.events + Sorted(Visible(store, matching, page.next))
  {
    hide PageOf, Sorted, Visible, StoreAt, GrowsUpward, Descending, Lists;
    RowCount(Visible(store, matching, cursor));
    SamePage(store, arrivals, matching, cursor, size, k);
    PageSplits(store, matching, cursor, size);
    var rows := Sorted(Visible(store, matching, cursor));
    if |rows| > size {
      assert rows == rows[..size] + rows[size..];
      RowCount(Visible(store, matching, Some(rows[size - 1])));
    }
  }

  lemma {:induction false} FollowYieldsRest(store: set<EventId>, arrivals: nat -> set<EventId>, matching: set<EventId>,
                                            cursor: EventId, size: nat, k: nat)
    requires size >= 1 && GrowsUpward(store, arrivals) && cursor in store
    ensures Follow(store, arrivals, matching, cursor, size, k) == Sorted(Visible(store, matching, Some(cursor)))
    decreases Remaining(store, matching, Some(cursor))
  {
    hide PageOf, Sorted, Visible, StoreAt, GrowsUpward;
    SamePage(store, arrivals, matching, Some(cursor), size, k);
    PageSplits(store, matching, Some(cursor), size);
    NextStays(store, arrivals, matching, Some(cursor), size, k);
    var page := PageOf(StoreAt(store, arrivals, k), matching, Some(cursor), size);
    if page.next.Some? {
      FollowYieldsRest(store, arrivals, matching, page.next.value, size, k + 1);
    }
  }

  /** A client's whole walk, from the first page without a cursor. */
  function Walk(store: set<EventId>, arrivals: nat -> set<EventId>, matching: set<EventId>, size: nat): seq<EventId>
    requires size >= 1 && GrowsUpward(store, arrivals)
  {
    var page := PageOf(store, matching, None, size);
    if page.next.None? then page.events
    else
      NextStays(store, arrivals, matching, None, size, 0);
      page.events + Follow(store, arrivals, matching, page.next.value, size, 1)
  }

  /** Whatever arrives between the pages, the walk ends and yields exactly the matching events present
      at its start, each once, newest first. */
  lemma WalkIsComplete(store: set<EventId>, arrivals: nat -> set<EventId>, matching: set<EventId>, size: nat)
    requires size >= 1 && GrowsUpward(store, arrivals)
    ensures Walk(store, arrivals, matching, size) == Sorted(store * matching)
  {
    assert Visible(store, matching, None) == store * matching;
    PageSplits(store, matching, None, size);
    NextStays(store, arrivals, matching, None, size, 0);
    var page := PageOf(store, matching, None, size);
    if page.next.Some? {
      FollowYieldsRest(store, arrivals, matching, page.next.value, size, 1);
    }
  }
}
