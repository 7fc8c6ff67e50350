/**
 Cursor pagination: one page, and what a caller sees who walks every page while other
 requests insert, edit and delete rows in between.
 */
module Pagination {
  import opened Wrappers

  /** The sort position of a row: creation time then id, or the id alone. */
  datatype Key = Composite(createdAt: int, id: int) | IdOnly(id: int)

  datatype Row = Row(key: Key, value: string)

  /** The order of `tuple_(created_at, id)`, and of bare ids. */
  predicate Less(a: Key, b: Key) {
    if a.Composite? && b.Composite?
    then a.createdAt < b.createdAt || (a.createdAt == b.createdAt && a.id < b.id)
    else if a.IdOnly? && b.IdOnly? then a.id < b.id
    else a.Composite? && b.IdOnly?
  }

  predicate AtMost(a: Key, b: Key) {
    a == b || Less(a, b)
  }

  /** Strictly after the cursor; no cursor is before everything. */
  predicate Past(cursor: Option<Key>, key: Key) {
    cursor.Some? ==> Less(cursor.value, key)
  }

  ghost predicate Increasing(rows: seq<Row>) {
    forall i, j :: 0 <= i < j < |rows| ==> Less(rows[i].key, rows[j].key)
  }

  /** A table, in whatever order the database returns it: no two rows share a key. */
  ghost predicate Table(rows: seq<Row>) {
    forall i, j :: 0 <= i < j < |rows| ==> rows[i].key != rows[j].key
  }

  // ---------------------------------------------------------------- ORDER BY

  function Insert(r: Row, sorted: seq<Row>): seq<Row> {
    if sorted == [] || Less(r.key, sorted[0].key) then [r] + sorted
    else [sorted[0]] + Insert(r, sorted[1..])
  }

  function OrderBy(rows: seq<Row>): seq<Row> {
    if rows == [] then [] else Insert(rows[0], OrderBy(rows[1..]))
  }

  lemma IncreasingCons(head: Row, tail: seq<Row>)
    requires Increasing(tail) && forall x :: x in tail ==> Less(head.key, x.key)
    ensures Increasing([head] + tail)
  {
  }

  lemma {:induction false} InsertSorts(r: Row, sorted: seq<Row>)
    requires Increasing(sorted) && forall x :: x in sorted ==> x.key != r.key
    ensures Increasing(Insert(r, sorted)) && |Insert(r, sorted)| == |sorted| + 1
    ensures forall x :: x in Insert(r, sorted) <==> x == r || x in sorted
  {
    if sorted == [] || Less(r.key, sorted[0].key) {
      forall x | x in sorted ensures Less(r.key, x.key) {
        var i :| 0 <= i < |sorted| && sorted[i] == x;
        if i > 0 { assert Less(sorted[0].key, sorted[i].key); }
      }
      IncreasingCons(r, sorted);
    } else {
      var head, tail := sorted[0], sorted[1..];
      assert sorted == [head] + tail;
      InsertSorts(r, tail);
      assert Less(head.key, r.key) by { assert head in sorted; }
      IncreasingCons(head, Insert(r, tail));
    }
  }

  lemma {:induction false} OrderBySorts(rows: seq<Row>)
    requires Table(rows)
    ensures Increasing(OrderBy(rows)) && |OrderBy(rows)| == |rows|
    ensures forall x :: x in OrderBy(rows) <==> x in rows
  {
    if rows != [] {
      OrderBySorts(rows[1..]);
      InsertSorts(rows[0], OrderBy(rows[1..]));
    }
  }

  // ---------------------------------------------------------------- one page

  /**
   What a page promises, for any table, cursor and limit: the first rows past the cursor,
   in order; a next cursor exactly when rows remain, and then it names the last row given.
   */
  ghost predicate IsPage(table: seq<Row>, cursor: Option<Key>, limit: nat, page: seq<Row>, next: Option<Key>) {
    && Increasing(page)
    && |page| <= limit
    && (forall r :: r in page ==> r in table && Past(cursor, r.key))
    && (next.None? ==> forall r :: r in table && Past(cursor, r.key) ==> r in page)
    && (next.Some? ==>
          && |page| == limit > 0
          && next.value == page[limit - 1].key
          && (forall r :: r in table && Past(cursor, r.key) && AtMost(r.key, next.value) ==> r in page)
          && exists r :: r in table && Less(next.value, r.key))
  }

  function Filter(rows: seq<Row>, cursor: Option<Key>): seq<Row> {
    if rows == [] then []
    else (if Past(cursor, rows[0].key) then [rows[0]] else []) + Filter(rows[1..], cursor)
  }

  lemma {:induction false} FilterKeeps(rows: seq<Row>, cursor: Option<Key>)
    ensures forall x :: x in Filter(rows, cursor) <==> x in rows && Past(cursor, x.key)
  {
    if rows != [] {
      FilterKeeps(rows[1..], cursor);
      assert rows == [rows[0]] + rows[1..];
    }
  }

  lemma {:induction false} FilterKeepsTable(rows: seq<Row>, cursor: Option<Key>)
    requires Table(rows)
    ensures Table(Filter(rows, cursor))
  {
    if rows != [] {
      FilterKeepsTable(rows[1..], cursor);
      FilterKeeps(rows[1..], cursor);
      var rest := Filter(rows[1..], cursor);
      forall i | 0 <= i < |rest| ensures rest[i].key != rows[0].key {
        assert rest[i] in rest;
      }
    }
  }

  lemma {:induction false} FilterKeepsOrder(rows: seq<Row>, cursor: Option<Key>)
    requires Increasing(rows)
    ensures Increasing(Filter(rows, cursor))
  {
    if rows != [] {
      FilterKeepsOrder(rows[1..], cursor);
      FilterKeeps(rows[1..], cursor);
      IncreasingCons(rows[0], Filter(rows[1..], cursor));
    }
  }

  /** `LIMIT n`, or a slice. */
  function Take(rows: seq<Row>, n: nat): seq<Row> {
    if |rows| > n then rows[..n] else rows
  }

  /** The rows past the cursor, in order. */
  ghost predicate Selects(sorted: seq<Row>, table: seq<Row>, cursor: Option<Key>) {
    Increasing(sorted) && forall x :: x in sorted <==> x in table && Past(cursor, x.key)
  }

  /** Fetching one extra row to learn whether there is a next page, and trimming it. */
  lemma TrimmedIsPage(table: seq<Row>, cursor: Option<Key>, limit: nat, sorted: seq<Row>)
    requires limit >= 1 && Selects(sorted, table, cursor)
    ensures var rows := Take(sorted, limit + 1);
            if |rows| > limit
            then IsPage(table, cursor, limit, rows[..limit], Some(rows[..limit][limit - 1].key))
            else IsPage(table, cursor, limit, rows, None)
  {
    if |sorted| > limit {
      assert sorted[limit] in sorted;
      assert Take(sorted, limit + 1)[..limit] == sorted[..limit];
      forall r | r in table && Past(cursor, r.key) && AtMost(r.key, sorted[limit - 1].key)
        ensures r in sorted[..limit]
      {
        var i :| 0 <= i < |sorted| && sorted[i] == r;
        assert i < limit;
      }
    }
  }

  /** The common tail of the page routines: trim, and name the last row given out. */
  method Trim(ghost table: seq<Row>, ghost cursor: Option<Key>, limit: nat, sorted: seq<Row>)
    returns (rows: seq<Row>, next: Option<Key>)
    requires limit >= 1 && Selects(sorted, table, cursor)
    ensures IsPage(table, cursor, limit, rows, next)
  {
    TrimmedIsPage(table, cursor, limit, sorted);
    rows := Take(sorted, limit + 1);
    next := None;
    if |rows| > limit {
      rows := rows[..limit];
      next := Some(rows[|rows| - 1].key);
    }
  }

  /** Filtering before sorting, or after, selects the same rows. */
  lemma Selected(table: seq<Row>, cursor: Option<Key>)
    requires Table(table)
    ensures Selects(OrderBy(Filter(table, cursor)), table, cursor)
    ensures Selects(Filter(OrderBy(table), cursor), table, cursor)
  {
    FilterKeeps(table, cursor);
    FilterKeepsTable(table, cursor);
    OrderBySorts(Filter(table, cursor));
    OrderBySorts(table);
    FilterKeeps(OrderBy(table), cursor);
    FilterKeepsOrder(OrderBy(table), cursor);
  }

  lemma {:induction false} NoCursorKeepsAll(rows: seq<Row>)
    ensures Filter(rows, None) == rows
  {
    if rows != [] {
      NoCursorKeepsAll(rows[1..]);
      assert rows == [rows[0]] + rows[1..];
    }
  }

  /** `paginate`: filter, order and limit in the database, then trim. */
  method Paginate(table: seq<Row>, cursor: Option<Key>, limit: nat)
    returns (rows: seq<Row>, next: Option<Key>)
    requires Table(table) && limit >= 1
    ensures IsPage(table, cursor, limit, rows, next)
  {
    var query := table;
    if cursor.Some? {
      query := Filter(query, cursor);
    }
    NoCursorKeepsAll(table);
    Selected(table, cursor);
    rows, next := Trim(table, cursor, limit, OrderBy(query));
  }

  /** `_paginate_resolved_items`: the whole list is sorted in memory, then filtered. */
  method PaginateResolved(items: seq<Row>, cursor: Option<Key>, limit: nat)
    returns (page: seq<Row>, next: Option<Key>)
    requires Table(items) && limit >= 1
    ensures IsPage(items, cursor, limit, page, next)
  {
    var ordered := OrderBy(items);
    if cursor.Some? {
      ordered := Filter(ordered, cursor);
    }
    NoCursorKeepsAll(OrderBy(items));
    Selected(items, cursor);
    page, next := Trim(items, cursor, limit, ordered);
  }

  /** Creation times do not go back down a list, and rows of one time have ascending ids. */
  ghost predicate Chronological(rows: seq<Row>) {
    forall i, j :: 0 <= i < j < |rows| && rows[i].key.Composite? && rows[j].key.Composite? ==>
      || rows[i].key.createdAt < rows[j].key.createdAt
      || (rows[i].key.createdAt == rows[j].key.createdAt && rows[i].key.id < rows[j].key.id)
  }

  ghost predicate ByAscendingId(rows: seq<Row>) {
    forall i, j :: 0 <= i < j < |rows| && rows[i].key.IdOnly? && rows[j].key.IdOnly? ==>
      rows[i].key.id < rows[j].key.id
  }

  /** A page is in order, behind the cursor, and ahead of every row left for a later page. */
  lemma PageIsChronological(table: seq<Row>, cursor: Option<Key>, limit: nat, page: seq<Row>, next: Option<Key>)
    requires IsPage(table, cursor, limit, page, next)
    ensures Chronological(page) && ByAscendingId(page)
    ensures cursor.Some? ==> forall r :: r in page ==>
              Chronological([Row(cursor.value, ""), r]) && ByAscendingId([Row(cursor.value, ""), r])
    ensures forall r, later :: r in page && later in table && later !in page && Past(cursor, later.key) ==>
              Chronological([r, later]) && ByAscendingId([r, later])
  {
    forall r, later | r in page && later in table && later !in page && Past(cursor, later.key)
      ensures Less(r.key, later.key)
    {
      var i :| 0 <= i < |page| && page[i] == r;
      assert i < limit - 1 ==> Less(page[i].key, page[limit - 1].key);
    }
  }

  lemma {:induction false} IncreasingUnique(a: seq<Row>, b: seq<Row>)
    requires Increasing(a) && Increasing(b) && forall x :: x in a <==> x in b
    ensures a == b
  {
    assert b != [] ==> b[0] in b;
    if a != [] {
      assert a[0] in b && b != [] && b[0] in a;
      assert a[0] == b[0];
      forall x ensures x in a[1..] <==> x in b[1..] {
        assert x in a[1..] <==> x in a && x != a[0];
        assert x in b[1..] <==> x in b && x != b[0];
      }
      IncreasingUnique(a[1..], b[1..]);
    }
  }

  // ---------------------------------------------------------------- a walk

  /** One request of a walk, with the table as it stood when the request ran. */
  datatype Fetch = Fetch(table: seq<Row>, cursor: Option<Key>, page: seq<Row>, next: Option<Key>)

  predicate Finished(fs: seq<Fetch>) {
    fs != [] && fs[|fs| - 1].next == None
  }

  function Init(fs: seq<Fetch>): seq<Fetch>
    requires fs != []
  {
    fs[..|fs| - 1]
  }

  function Last(fs: seq<Fetch>): Fetch
    requires fs != []
  {
    fs[|fs| - 1]
  }

  /** The cursor in hand after the last request. */
  function InHand(fs: seq<Fetch>): Option<Key> {
    if fs == [] then None else Last(fs).next
  }

  /** A caller starts without a cursor and passes back the one it was given, while given one. */
  ghost predicate IsWalk(fs: seq<Fetch>, limit: nat) {
    fs != [] ==>
      && IsWalk(Init(fs), limit)
      && !Finished(Init(fs))
      && Last(fs).cursor == InHand(Init(fs))
      && Table(Last(fs).table)
      && IsPage(Last(fs).table, Last(fs).cursor, limit, Last(fs).page, Last(fs).next)
  }

  function Emitted(fs: seq<Fetch>): seq<Row> {
    if fs == [] then [] else Emitted(Init(fs)) + Last(fs).page
  }

  /** What one more request adds. */
  lemma Extended(fs: seq<Fetch>, f: Fetch)
    ensures Emitted(fs + [f]) == Emitted(fs) + f.page && InHand(fs + [f]) == f.next
    ensures Finished(fs + [f]) <==> f.next.None?
  {
    assert Init(fs + [f]) == fs && Last(fs + [f]) == f;
  }

  lemma WalkExtends(fs: seq<Fetch>, f: Fetch, limit: nat)
    requires IsWalk(fs, limit) && !Finished(fs) && f.cursor == InHand(fs)
    requires Table(f.table) && IsPage(f.table, f.cursor, limit, f.page, f.next)
    ensures IsWalk(fs + [f], limit)
  {
    assert Init(fs + [f]) == fs && Last(fs + [f]) == f;
  }

  lemma IncreasingConcat(a: seq<Row>, b: seq<Row>, mid: Option<Key>)
    requires Increasing(a) && Increasing(b)
    requires a != [] ==> mid.Some?
    requires mid.Some? ==> forall x :: x in a ==> AtMost(x.key, mid.value)
    requires forall x :: x in b ==> Past(mid, x.key)
    ensures Increasing(a + b)
  {
    forall i, j | 0 <= i < |a| && 0 <= j < |b| ensures Less(a[i].key, b[j].key) {
      assert a[i] in a && b[j] in b;
    }
  }

  /** A walk never goes back: keys come strictly increasing, up to the cursor in hand. */
  lemma {:induction false} WalkIncreases(fs: seq<Fetch>, limit: nat)
    requires IsWalk(fs, limit)
    ensures Increasing(Emitted(fs))
    ensures InHand(fs).Some? ==> forall r :: r in Emitted(fs) ==> AtMost(r.key, InHand(fs).value)
  {
    if fs != [] {
      var last := Last(fs);
      WalkIncreases(Init(fs), limit);
      IncreasingConcat(Emitted(Init(fs)), last.page, last.cursor);
      if last.next.Some? {
        CursorAdvances(last, limit);
        forall r | r in last.page ensures AtMost(r.key, last.next.value) {
          var i :| 0 <= i < |last.page| && last.page[i] == r;
        }
      }
    }
  }

  /** So a whole walk is in order of creation, or of ids, whatever is written between its requests. */
  lemma WalkIsChronological(fs: seq<Fetch>, limit: nat)
    requires IsWalk(fs, limit)
    ensures Chronological(Emitted(fs)) && ByAscendingId(Emitted(fs))
  {
    WalkIncreases(fs, limit);
  }

  lemma CursorAdvances(f: Fetch, limit: nat)
    requires IsPage(f.table, f.cursor, limit, f.page, f.next) && f.next.Some?
    ensures Past(f.cursor, f.next.value)
  {
    assert f.page[limit - 1] in f.page;
  }

  /** The keys one request of a walk answers for. */
  predicate Covers(f: Fetch, key: Key) {
    Past(f.cursor, key) && (f.next.Some? ==> AtMost(key, f.next.value))
  }

  /** What an earlier request answers for lies at or below the cursor in hand. */
  lemma {:induction false} CoveredBelow(fs: seq<Fetch>, limit: nat, i: nat, key: Key)
    requires IsWalk(fs, limit) && i < |fs| && Covers(fs[i], key) && InHand(fs).Some?
    ensures AtMost(key, InHand(fs).value)
  {
    if i < |fs| - 1 {
      CoveredBelow(Init(fs), limit, i, key);
      CursorAdvances(Last(fs), limit);
    }
  }

  /** Requests answer for disjoint keys. */
  lemma {:induction false} CoveredOnce(fs: seq<Fetch>, limit: nat, i: nat, j: nat, key: Key)
    requires IsWalk(fs, limit) && i < j < |fs| && Covers(fs[i], key)
    ensures !Covers(fs[j], key)
  {
    if j == |fs| - 1 {
      CoveredBelow(Init(fs), limit, i, key);
    } else {
      CoveredOnce(Init(fs), limit, i, j, key);
    }
  }

  /** Together they answer for every key up to the cursor in hand. */
  lemma {:induction false} Covered(fs: seq<Fetch>, limit: nat, key: Key) returns (i: nat)
    requires IsWalk(fs, limit) && fs != [] && (InHand(fs).Some? ==> AtMost(key, InHand(fs).value))
    ensures i < |fs| && Covers(fs[i], key)
  {
    if Past(Last(fs).cursor, key) {
      i := |fs| - 1;
    } else {
      i := Covered(Init(fs), limit, key);
    }
  }

  /** One page, for the keys it answers for and for all others. */
  lemma PageGives(f: Fetch, limit: nat, r: Row)
    requires IsPage(f.table, f.cursor, limit, f.page, f.next)
    ensures r in f.page <==> Covers(f, r.key) && r in f.table
  {
    if r in f.page && f.next.Some? {
      var i :| 0 <= i < |f.page| && f.page[i] == r;
      assert AtMost(r.key, f.page[limit - 1].key);
    }
  }

  /** A request that answers for a row's key gives the row out exactly if its table held it. */
  lemma {:induction false} EmittedAt(fs: seq<Fetch>, limit: nat, i: nat, r: Row)
    requires IsWalk(fs, limit) && i < |fs| && Covers(fs[i], r.key)
    ensures r in Emitted(fs) <==> r in fs[i].table
  {
    PageGives(Last(fs), limit, r);
    if i == |fs| - 1 {
      NotEmittedBefore(fs, limit, r);
    } else {
      EmittedAt(Init(fs), limit, i, r);
      CoveredOnce(fs, limit, i, |fs| - 1, r.key);
    }
  }

  lemma NotEmittedBefore(fs: seq<Fetch>, limit: nat, r: Row)
    requires IsWalk(fs, limit) && fs != [] && Covers(Last(fs), r.key)
    ensures r !in Emitted(Init(fs))
  {
    WalkIncreases(Init(fs), limit);
  }

  /** Whatever was given out was in the table of a request that answered for it. */
  lemma {:induction false} EmittedFrom(fs: seq<Fetch>, limit: nat, r: Row) returns (i: nat)
    requires IsWalk(fs, limit) && r in Emitted(fs)
    ensures i < |fs| && Covers(fs[i], r.key) && r in fs[i].table
  {
    WalkIncreases(fs, limit);
    i := Covered(fs, limit, r.key);
    EmittedAt(fs, limit, i, r);
  }

  /** The one request of a finished walk that answers for a key. */
  ghost predicate Decides(fs: seq<Fetch>, i: nat, key: Key) {
    i < |fs| && Covers(fs[i], key) && forall j :: 0 <= j < |fs| && Covers(fs[j], key) ==> j == i
  }

  /**
   A finished walk, under arbitrary writes between its requests. Keys come strictly
   increasing, so no row comes twice; every key is answered for by exactly one request, and
   a row is given out exactly when THAT request's table held it.
   */
  lemma WalkIsExact(fs: seq<Fetch>, limit: nat, r: Row)
    requires IsWalk(fs, limit) && Finished(fs)
    ensures Increasing(Emitted(fs))
    ensures exists i: nat :: Decides(fs, i, r.key) && (r in Emitted(fs) <==> r in fs[i].table)
  {
    WalkIncreases(fs, limit);
    var i := Covered(fs, limit, r.key);
    EmittedAt(fs, limit, i, r);
    forall j | 0 <= j < |fs| && j != i ensures !Covers(fs[j], r.key) {
      if j < i {
        if Covers(fs[j], r.key) { CoveredOnce(fs, limit, j, i, r.key); }
      } else {
        CoveredOnce(fs, limit, i, j, r.key);
      }
    }
    assert Decides(fs, i, r.key);
  }

  /** The key sits in the table under some value. */
  ghost predicate Has(table: seq<Row>, key: Key) {
    exists r :: r in table && r.key == key
  }

  /** The key is given out at index `i` and nowhere else. */
  ghost predicate OnlyAt(rows: seq<Row>, i: nat, key: Key) {
    i < |rows| && rows[i].key == key && forall j :: 0 <= j < |rows| && rows[j].key == key ==> j == i
  }

  /** A row whose key is there at every request, edited or not, is given out exactly once. */
  lemma PresentThroughoutOnce(fs: seq<Fetch>, limit: nat, key: Key)
    requires IsWalk(fs, limit) && Finished(fs)
    requires forall i :: 0 <= i < |fs| ==> Has(fs[i].table, key)
    ensures exists i: nat :: OnlyAt(Emitted(fs), i, key)
  {
    WalkIncreases(fs, limit);
    var f := Covered(fs, limit, key);
    var r :| r in fs[f].table && r.key == key;
    EmittedAt(fs, limit, f, r);
    var i :| 0 <= i < |Emitted(fs)| && Emitted(fs)[i] == r;
    assert OnlyAt(Emitted(fs), i, key);
  }

  // ---------------------------------------------------------------- a table nobody writes to

  ghost predicate StillTable(fs: seq<Fetch>, table: seq<Row>) {
    forall i :: 0 <= i < |fs| ==> fs[i].table == table
  }

  lemma {:induction false} EmittedCount(fs: seq<Fetch>, limit: nat)
    requires IsWalk(fs, limit)
    ensures InHand(fs).Some? ==> |Emitted(fs)| == |fs| * limit
    ensures Finished(fs) ==> |Emitted(fs)| == (|fs| - 1) * limit + |Last(fs).page|
  {
    if fs != [] {
      EmittedCount(Init(fs), limit);
    }
  }

  lemma StillEmitted(fs: seq<Fetch>, limit: nat, table: seq<Row>)
    requires IsWalk(fs, limit) && fs != [] && StillTable(fs, table)
    ensures forall r :: r in Emitted(fs) ==> r in table
    ensures Finished(fs) ==> forall r :: r in table ==> r in Emitted(fs)
  {
    forall r | r in Emitted(fs) ensures r in table {
      var i := EmittedFrom(fs, limit, r);
    }
    if Finished(fs) {
      forall r | r in table ensures r in Emitted(fs) {
        var i := Covered(fs, limit, r.key);
        EmittedAt(fs, limit, i, r);
      }
    }
  }

  /**
   On a table nobody writes to, a finished walk is the sorted table, for every limit, in no
   more requests than full pages need.
   */
  lemma StillWalkIsSortedTable(fs: seq<Fetch>, limit: nat, table: seq<Row>)
    requires limit >= 1 && IsWalk(fs, limit) && Finished(fs) && Table(table) && StillTable(fs, table)
    ensures Emitted(fs) == OrderBy(table)
    ensures (|fs| - 1) * limit <= |table| <= |fs| * limit
  {
    WalkIncreases(fs, limit);
    StillEmitted(fs, limit, table);
    OrderBySorts(table);
    IncreasingUnique(Emitted(fs), OrderBy(table));
    FinishedCount(fs, limit);
  }

  /** And every walk on it finishes: an unfinished one has given out fewer rows than there are. */
  lemma StillWalkFinishes(fs: seq<Fetch>, limit: nat, table: seq<Row>)
    requires limit >= 1 && IsWalk(fs, limit) && fs != [] && !Finished(fs)
    requires Table(table) && StillTable(fs, table)
    ensures |fs| <= |fs| * limit < |table|
  {
    WalkIncreases(fs, limit);
    StillEmitted(fs, limit, table);
    UnfinishedCount(fs, limit);
    assert Last(fs).table == table;
    var extra :| extra in table && Less(InHand(fs).value, extra.key);
    CountBelow(Emitted(fs), table, extra);
  }

  lemma AtLeast(n: nat, limit: nat)
    requires limit >= 1
    ensures n <= n * limit
  {
    assert n * limit == n + n * (limit - 1);
  }

  lemma UnfinishedCount(fs: seq<Fetch>, limit: nat)
    requires limit >= 1 && IsWalk(fs, limit) && fs != [] && !Finished(fs)
    ensures |fs| <= |fs| * limit == |Emitted(fs)|
  {
    EmittedCount(fs, limit);
    AtLeast(|fs|, limit);
  }

  lemma FinishedCount(fs: seq<Fetch>, limit: nat)
    requires IsWalk(fs, limit) && Finished(fs)
    ensures (|fs| - 1) * limit <= |Emitted(fs)| <= |fs| * limit
  {
    EmittedCount(fs, limit);
    var last := |Last(fs).page|;
    assert last <= limit;
    assert (|fs| - 1) * limit + limit == |fs| * limit;
  }

  /** Distinct rows of a table, one of its rows missing, are fewer than the table. */
  lemma CountBelow(some: seq<Row>, table: seq<Row>, missing: Row)
    requires Increasing(some) && Table(table) && missing in table
    requires forall r :: r in some ==> r in table && r.key != missing.key
    ensures |some| < |table|
  {
    var a, b := set r | r in some, set r | r in table;
    CountDistinct(some);
    CountDistinct(table);
    assert a <= b - {missing};
    SubsetCount(a, b - {missing});
  }

  lemma {:induction false} CountDistinct(rows: seq<Row>)
    requires Table(rows)
    ensures |set r | r in rows| == |rows|
  {
    if rows != [] {
      CountDistinct(rows[1..]);
      assert (set r | r in rows) == (set r | r in rows[1..]) + {rows[0]};
    }
  }

  lemma {:induction false} SubsetCount(a: set<Row>, b: set<Row>)
    requires a <= b
    ensures |a| <= |b|
  {
    if a != {} {
      var x :| x in a;
      SubsetCount(a - {x}, b - {x});
    }
  }

  // ---------------------------------------------------------------- keys must not move

  /** Every id keeps one sort key for as long as the walk lasts. */
  ghost predicate KeysFixed(fs: seq<Fetch>) {
    forall i, j, r, q :: 0 <= i < |fs| && 0 <= j < |fs| && r in fs[i].table && q in fs[j].table ==>
      (r.key.id == q.key.id ==> r.key == q.key)
  }

  /** Then no id is given out twice. */
  lemma IdsComeOnce(fs: seq<Fetch>, limit: nat, i: nat, j: nat)
    requires IsWalk(fs, limit) && KeysFixed(fs)
    requires i < j < |Emitted(fs)|
    ensures Emitted(fs)[i].key.id != Emitted(fs)[j].key.id
  {
    WalkIncreases(fs, limit);
    var r, q := Emitted(fs)[i], Emitted(fs)[j];
    var f := EmittedFrom(fs, limit, r);
    var g := EmittedFrom(fs, limit, q);
  }

  /** Row `r`, found by a request that answered for its key. */
  ghost predicate FoundAt(fs: seq<Fetch>, i: nat, r: Row) {
    i < |fs| && Covers(fs[i], r.key) && r in fs[i].table
  }

  /**
   And with any writes: an id is given out under two keys exactly when it was found under
   each by the request that answered for that key, its key having been moved in between.
   */
  lemma IdComesTwiceIff(fs: seq<Fetch>, limit: nat, id: int)
    requires IsWalk(fs, limit)
    ensures (exists r, q :: r in Emitted(fs) && q in Emitted(fs) && r.key.id == q.key.id == id && r.key != q.key)
       <==> (exists i: nat, j: nat, r, q :: FoundAt(fs, i, r) && FoundAt(fs, j, q)
                                            && r.key.id == q.key.id == id && r.key != q.key)
  {
    if r, q :| r in Emitted(fs) && q in Emitted(fs) && r.key.id == q.key.id == id && r.key != q.key {
      var i := EmittedFrom(fs, limit, r);
      var j := EmittedFrom(fs, limit, q);
      assert FoundAt(fs, i, r) && FoundAt(fs, j, q);
    }
    if i: nat, j: nat, r, q :| FoundAt(fs, i, r) && FoundAt(fs, j, q) && r.key.id == q.key.id == id && r.key != q.key {
      EmittedAt(fs, limit, i, r);
      EmittedAt(fs, limit, j, q);
    }
  }

  lemma TwoRequests(first: Fetch, second: Fetch, limit: nat)
    requires first.cursor == None && second.cursor == first.next && first.next.Some?
    requires Table(first.table) && Table(second.table)
    requires IsPage(first.table, first.cursor, limit, first.page, first.next)
    requires IsPage(second.table, second.cursor, limit, second.page, second.next)
    ensures IsWalk([first, second], limit) && Emitted([first, second]) == first.page + second.page
  {
    WalkExtends([], first, limit);
    Extended([], first);
    assert [] + [first] == [first] && [first] + [second] == [first, second];
    WalkExtends([first], second, limit);
    Extended([first], second);
    assert [] + first.page == first.page;
  }

  /**
   With a key an edit can move, such as `updated_at`, an id does come twice: row 1, given
   out on the first page, is edited and sorts past the cursor.
   */
  lemma MovedKeyComesTwice()
    ensures exists fs :: IsWalk(fs, 1) && |Emitted(fs)| == 2 && Emitted(fs)[0].key.id == Emitted(fs)[1].key.id
  {
    var a, b, c := Row(Composite(1, 1), "a"), Row(Composite(2, 2), "b"), Row(Composite(3, 1), "a");
    var first := Fetch([a, b], None, [a], Some(a.key));
    var second := Fetch([c], Some(a.key), [c], None);
    assert IsPage(first.table, None, 1, [a], first.next) by { assert b in first.table; }
    TwoRequests(first, second, 1);
    assert Emitted([first, second]) == [a, c];
  }

  /** Some row with this id. */
  ghost predicate Holds(rows: seq<Row>, id: int) {
    exists r :: r in rows && r.key.id == id
  }

  /**
   An id is given out at all exactly when some request found it under a key it answered for;
   so one that is there at every request is missed exactly when, at each, its key was one
   that another request answers for.
   */
  lemma IdMissedIff(fs: seq<Fetch>, limit: nat, id: int)
    requires IsWalk(fs, limit)
    ensures !Holds(Emitted(fs), id) <==> forall i: nat, r :: FoundAt(fs, i, r) ==> r.key.id != id
  {
    if r :| r in Emitted(fs) && r.key.id == id {
      var i := EmittedFrom(fs, limit, r);
      assert FoundAt(fs, i, r);
    }
    if i: nat, r :| FoundAt(fs, i, r) && r.key.id == id {
      EmittedAt(fs, limit, i, r);
    }
  }

  /** The id is there at every request, and is never given out. */
  ghost predicate Misses(fs: seq<Fetch>, id: int) {
    !Holds(Emitted(fs), id) && forall i :: 0 <= i < |fs| ==> Holds(fs[i].table, id)
  }

  /**
   It happens to any row `b` behind another, `a`, on a page of one: moved before `a` between
   the requests, as `c`, it is there at both and never comes.
   */
  lemma MovedKeyIsMissed(a: Row, b: Row, c: Row)
    requires Less(a.key, b.key) && Less(c.key, a.key) && b.key.id == c.key.id != a.key.id
    ensures var fs := [Fetch([a, b], None, [a], Some(a.key)), Fetch([c, a], Some(a.key), [], None)];
            IsWalk(fs, 1) && Finished(fs) && Misses(fs, b.key.id)
  {
    var first, second := Fetch([a, b], None, [a], Some(a.key)), Fetch([c, a], Some(a.key), [], None);
    assert IsPage(first.table, None, 1, [a], first.next) by { assert b in first.table; }
    assert IsPage(second.table, second.cursor, 1, [], None);
    TwoRequests(first, second, 1);
    var fs := [first, second];
    assert Emitted(fs) == [a];
    assert Holds(first.table, b.key.id) by { assert b in first.table; }
    assert Holds(second.table, b.key.id) by { assert c in second.table; }
  }
}
