/**
 Deleting the rows of some companies, table by table, under NO ACTION foreign keys: what
 cannot be deleted yet is tried again on the next pass.
 */
module Prune {
  import opened Wrappers

  type Table = nat
  type CompanyId = nat

  /** A row, and the ids of the rows its foreign keys point at. */
  datatype Row = Row(id: nat, table: Table, company: Option<CompanyId>, refs: set<nat>)

  predicate OwnedBy(r: Row, ids: set<CompanyId>) {
    r.company.Some? && r.company.value in ids
  }

  /** The rows `DELETE FROM t WHERE company_id = ANY(ids)` names. */
  function Doomed(rows: set<Row>, t: Table, ids: set<CompanyId>): set<Row> {
    set r | r in rows && r.table == t && OwnedBy(r, ids)
  }

  /** Some row that would stay points at a row that would go. */
  predicate Violates(rows: set<Row>, doomed: set<Row>) {
    exists r, d :: r in rows - doomed && d in doomed && d.id in r.refs
  }

  /** Every foreign key points at a row that is there. */
  ghost predicate Integrity(rows: set<Row>) {
    forall r, x :: r in rows && x in r.refs ==> exists d :: d in rows && d.id == x
  }

  /** Where ids are unique, a DELETE is refused exactly when it would leave a foreign key dangling. */
  lemma RefusedIffDangling(rows: set<Row>, doomed: set<Row>)
    requires Integrity(rows) && doomed <= rows
    requires forall r, d :: r in rows && d in rows && r.id == d.id ==> r == d
    ensures Violates(rows, doomed) <==> !Integrity(rows - doomed)
  {
    if Violates(rows, doomed) {
      var r, d :| r in rows - doomed && d in doomed && d.id in r.refs;
      assert forall other :: other in rows - doomed ==> other.id != d.id;
    } else {
      forall r, x | r in rows - doomed && x in r.refs ensures exists d :: d in rows - doomed && d.id == x {
        var d :| d in rows && d.id == x;
        assert d in rows - doomed;
      }
    }
  }

  // ---------------------------------------------------------------- what decides the outcome

  /** The rows the whole prune is to remove. */
  predicate Target(r: Row, tables: set<Table>, ids: set<CompanyId>) {
    r.table in tables && OwnedBy(r, ids)
  }

  function Targets(rows: set<Row>, tables: set<Table>, ids: set<CompanyId>): set<Row> {
    set r | r in rows && Target(r, tables, ids)
  }

  /** Of the rows to go, each is one of these companies', in one of these tables; and every such row goes. */
  lemma TargetsAreTheirs(rows: set<Row>, tables: set<Table>, ids: set<CompanyId>, r: Row)
    ensures r in Targets(rows, tables, ids) <==>
              r in rows && r.table in tables && match r.company case None => false case Some(c) => c in ids
  {
  }

  /** A row that is to stay points into table `t`'s share of the rows to go. */
  ghost predicate HeldFromOutside(rows: set<Row>, tables: set<Table>, ids: set<CompanyId>, t: Table) {
    exists r, d :: r in rows && !Target(r, tables, ids) && d in Doomed(rows, t, ids) && d.id in r.refs
  }

  /** A row to go in `u` points at one in another table `t`: `u` has to be emptied first. */
  ghost predicate Edge(rows: set<Row>, ids: set<CompanyId>, u: Table, t: Table) {
    u != t && exists r, d :: r in Doomed(rows, u, ids) && d in Doomed(rows, t, ids) && d.id in r.refs
  }

  ghost predicate Outside(rows: set<Row>, tables: set<Table>, ids: set<CompanyId>) {
    exists t :: t in tables && HeldFromOutside(rows, tables, ids, t)
  }

  type Graph = set<(Table, Table)>

  /** The edges between the given tables. */
  ghost function Edges(rows: set<Row>, tables: set<Table>, ids: set<CompanyId>): Graph {
    set u, t | u in tables && t in tables && Edge(rows, ids, u, t) :: (u, t)
  }

  /** A closed path of edges. */
  ghost predicate Cycle(g: Graph, p: seq<Table>) {
    && p != []
    && (forall i, j :: 0 <= i && j == i + 1 < |p| ==> (p[i], p[j]) in g)
    && (p[|p| - 1], p[0]) in g
  }

  ghost predicate Cyclic(g: Graph) {
    exists p :: Cycle(g, p)
  }

  /** An order in which every table comes after the tables that point into it. */
  ghost predicate Ranks(g: Graph, rank: map<Table, nat>) {
    forall u, t :: (u, t) in g ==> u in rank && t in rank && rank[u] < rank[t]
  }

  lemma {:induction false} RankClimbs(g: Graph, rank: map<Table, nat>, p: seq<Table>, i: nat)
    requires Ranks(g, rank) && Cycle(g, p) && i < |p|
    ensures p[0] in rank && p[i] in rank && rank[p[0]] <= rank[p[i]]
  {
    if i > 0 {
      RankClimbs(g, rank, p, i - 1);
      assert (p[i - 1], p[i]) in g;
    } else {
      assert (p[|p| - 1], p[0]) in g;
    }
  }

  lemma RankedIsAcyclic(g: Graph, rank: map<Table, nat>)
    requires Ranks(g, rank)
    ensures !Cyclic(g)
  {
    if Cyclic(g) {
      var p :| Cycle(g, p);
      RankClimbs(g, rank, p, |p| - 1);
      assert false;
    }
  }

  /** A path of edges through distinct tables. */
  ghost predicate Trail(g: Graph, p: seq<Table>) {
    && (forall i, j :: 0 <= i && j == i + 1 < |p| ==> (p[i], p[j]) in g)
    && (forall i, j :: 0 <= i < j < |p| ==> p[i] != p[j])
  }

  lemma {:induction false} TrailFits(tables: set<Table>, p: seq<Table>)
    requires forall t :: t in p ==> t in tables
    requires forall i, j :: 0 <= i < j < |p| ==> p[i] != p[j]
    ensures |p| <= |tables|
  {
    if p != [] {
      TrailFits(tables - {p[0]}, p[1..]);
    }
  }

  lemma PrefixCloses(g: Graph, p: seq<Table>, k: nat)
    requires Trail(g, p) && k < |p| && (p[k], p[0]) in g
    ensures Cyclic(g)
  {
    var q := p[..k + 1];
    assert forall i :: 0 <= i < |q| ==> q[i] == p[i];
    assert Cycle(g, q);
  }

  ghost predicate HasPredecessor(g: Graph, tables: set<Table>, t: Table) {
    exists u :: u in tables && (u, t) in g
  }

  /** Where every table has one pointing into it, walking backwards must close a cycle. */
  lemma {:induction false} BackwardsCloses(g: Graph, tables: set<Table>, p: seq<Table>)
    requires forall t {:trigger HasPredecessor(g, tables, t)} :: t in tables ==> HasPredecessor(g, tables, t)
    requires p != [] && Trail(g, p) && forall t :: t in p ==> t in tables
    ensures Cyclic(g)
    decreases |tables| - |p|
  {
    assert HasPredecessor(g, tables, p[0]);
    var u :| u in tables && (u, p[0]) in g;
    if u in p {
      var k :| 0 <= k < |p| && p[k] == u;
      PrefixCloses(g, p, k);
    } else {
      var longer := [u] + p;
      assert forall i :: 0 < i < |longer| ==> longer[i] == p[i - 1];
      assert Trail(g, longer);
      TrailFits(tables, longer);
      BackwardsCloses(g, tables, longer);
    }
  }

  // ---------------------------------------------------------------- half-way through

  /** The rows left when only `pending` tables still have theirs. */
  function Left(rows: set<Row>, tables: set<Table>, pending: set<Table>, ids: set<CompanyId>): set<Row> {
    rows - Targets(rows, tables - pending, ids)
  }

  lemma LeftDoomed(rows: set<Row>, tables: set<Table>, pending: set<Table>, ids: set<CompanyId>, t: Table)
    requires pending <= tables && t in pending
    ensures Doomed(Left(rows, tables, pending, ids), t, ids) == Doomed(rows, t, ids)
    ensures Left(rows, tables, pending, ids) - Doomed(rows, t, ids) == Left(rows, tables, pending - {t}, ids)
  {
  }

  /** What blocks a table half-way: a row that is to stay, or another table still pending. */
  lemma BlockedBy(rows: set<Row>, tables: set<Table>, pending: set<Table>, ids: set<CompanyId>, t: Table)
    requires pending <= tables && t in pending
    ensures Violates(Left(rows, tables, pending, ids), Doomed(rows, t, ids))
       <==> HeldFromOutside(rows, tables, ids, t) || exists u :: u in pending && Edge(rows, ids, u, t)
  {
    var left, doomed := Left(rows, tables, pending, ids), Doomed(rows, t, ids);
    if Violates(left, doomed) {
      var r, d :| r in left - doomed && d in doomed && d.id in r.refs;
      if Target(r, tables, ids) {
        assert r in Doomed(rows, r.table, ids);
        assert Edge(rows, ids, r.table, t);
      }
    }
    if HeldFromOutside(rows, tables, ids, t) {
      var r, d :| r in rows && !Target(r, tables, ids) && d in doomed && d.id in r.refs;
      assert r in left - doomed;
    }
    if u :| u in pending && Edge(rows, ids, u, t) {
      var r, d :| r in Doomed(rows, u, ids) && d in doomed && d.id in r.refs;
      assert r in left - doomed;
    }
  }

  /** Half-way, the foreign keys still refuse to let table `t` go. */
  ghost predicate StillBlocked(rows: set<Row>, tables: set<Table>, pending: set<Table>, ids: set<CompanyId>, t: Table) {
    Violates(Left(rows, tables, pending, ids), Doomed(rows, t, ids))
  }

  lemma BlockedHasPredecessor(rows: set<Row>, tables: set<Table>, pending: set<Table>, ids: set<CompanyId>, t: Table)
    requires pending <= tables && t in pending && StillBlocked(rows, tables, pending, ids, t)
    requires !HeldFromOutside(rows, tables, ids, t)
    ensures HasPredecessor(Edges(rows, tables, ids), pending, t)
  {
    BlockedBy(rows, tables, pending, ids, t);
    var u :| u in pending && Edge(rows, ids, u, t);
    assert (u, t) in Edges(rows, tables, ids);
  }

  ghost predicate AllBlocked(rows: set<Row>, tables: set<Table>, pending: set<Table>, ids: set<CompanyId>,
                             some: set<Table>) {
    forall t {:trigger StillBlocked(rows, tables, pending, ids, t)} ::
      t in some ==> StillBlocked(rows, tables, pending, ids, t)
  }

  lemma BlockedToo(rows: set<Row>, tables: set<Table>, pending: set<Table>, ids: set<CompanyId>, todo: set<Table>,
                   t: Table)
    requires AllBlocked(rows, tables, pending, ids, pending - todo) && StillBlocked(rows, tables, pending, ids, t)
    ensures AllBlocked(rows, tables, pending, ids, pending - (todo - {t}))
  {
  }

  /** A pass that clears nothing proves the prune impossible. */
  lemma StuckMeans(rows: set<Row>, tables: set<Table>, pending: set<Table>, ids: set<CompanyId>)
    requires pending <= tables && pending != {}
    requires AllBlocked(rows, tables, pending, ids, pending)
    ensures Outside(rows, tables, ids) || Cyclic(Edges(rows, tables, ids))
  {
    if !Outside(rows, tables, ids) {
      forall t {:trigger HasPredecessor(Edges(rows, tables, ids), pending, t)} | t in pending
        ensures HasPredecessor(Edges(rows, tables, ids), pending, t)
      {
        assert StillBlocked(rows, tables, pending, ids, t);
        BlockedHasPredecessor(rows, tables, pending, ids, t);
      }
      var t :| t in pending;
      BackwardsCloses(Edges(rows, tables, ids), pending, [t]);
    }
  }

  /** What clearing the tables outside `pending`, in the order `rank` gives, has established. */
  ghost predicate Progress(rows: set<Row>, tables: set<Table>, pending: set<Table>, ids: set<CompanyId>,
                           rank: map<Table, nat>) {
    && pending <= tables
    && rank.Keys == tables - pending
    && (forall t :: t in rank ==> rank[t] < |rank|)
    && (forall t {:trigger HeldFromOutside(rows, tables, ids, t)} :: t in rank ==>
          !HeldFromOutside(rows, tables, ids, t))
    && (forall u, t {:trigger Edge(rows, ids, u, t)} ::
          u in tables && t in rank && Edge(rows, ids, u, t) ==> u in rank && rank[u] < rank[t])
  }

  lemma ClearOne(rows: set<Row>, tables: set<Table>, pending: set<Table>, ids: set<CompanyId>,
                 rank: map<Table, nat>, t: Table)
    requires Progress(rows, tables, pending, ids, rank) && t in pending
    requires !Violates(Left(rows, tables, pending, ids), Doomed(rows, t, ids))
    ensures Progress(rows, tables, pending - {t}, ids, rank[t := |rank|])
  {
    BlockedBy(rows, tables, pending, ids, t);
  }

  lemma AllCleared(rows: set<Row>, tables: set<Table>, ids: set<CompanyId>, rank: map<Table, nat>)
    requires Progress(rows, tables, {}, ids, rank)
    ensures !Outside(rows, tables, ids) && !Cyclic(Edges(rows, tables, ids))
    ensures Left(rows, tables, {}, ids) == rows - Targets(rows, tables, ids)
  {
    RankedIsAcyclic(Edges(rows, tables, ids), rank);
    assert tables - {} == tables;
  }

  /** `counts` has the number of rows deleted, for each of these tables that had any. */
  ghost predicate Counts(rows: set<Row>, tables: set<Table>, ids: set<CompanyId>, counts: map<Table, nat>) {
    && (forall t :: t in counts <==> t in tables && Doomed(rows, t, ids) != {})
    && (forall t :: t in counts ==> counts[t] == |Doomed(rows, t, ids)|)
  }

  /** The state of the prune with `pending` tables to go. */
  ghost predicate Midway(start: set<Row>, now: set<Row>, tables: set<Table>, pending: set<Table>,
                         ids: set<CompanyId>, rank: map<Table, nat>, deleted: map<Table, nat>) {
    && now == Left(start, tables, pending, ids)
    && Progress(start, tables, pending, ids, rank)
    && Counts(start, tables - pending, ids, deleted)
  }

  lemma CountOne(rows: set<Row>, tables: set<Table>, ids: set<CompanyId>, counts: map<Table, nat>, t: Table)
    requires Counts(rows, tables, ids, counts) && t !in tables
    ensures var n := |Doomed(rows, t, ids)|;
            Counts(rows, tables + {t}, ids, if n != 0 then counts[t := n] else counts)
  {
  }

  /** Attempting one pending table: it still has all its rows. */
  lemma Untouched(start: set<Row>, now: set<Row>, tables: set<Table>, pending: set<Table>, ids: set<CompanyId>,
                  rank: map<Table, nat>, deleted: map<Table, nat>, t: Table)
    requires Midway(start, now, tables, pending, ids, rank, deleted) && t in pending
    ensures Doomed(now, t, ids) == Doomed(start, t, ids)
    ensures Violates(now, Doomed(now, t, ids)) <==> StillBlocked(start, tables, pending, ids, t)
  {
    LeftDoomed(start, tables, pending, ids, t);
  }

  /** Clearing it is progress. */
  lemma StepMidway(start: set<Row>, now: set<Row>, tables: set<Table>, pending: set<Table>, ids: set<CompanyId>,
                   rank: map<Table, nat>, deleted: map<Table, nat>, t: Table)
    requires Midway(start, now, tables, pending, ids, rank, deleted) && t in pending
    requires !StillBlocked(start, tables, pending, ids, t)
    ensures var n := |Doomed(start, t, ids)|;
            Midway(start, now - Doomed(start, t, ids), tables, pending - {t}, ids, rank[t := |rank|],
                   if n != 0 then deleted[t := n] else deleted)
  {
    LeftDoomed(start, tables, pending, ids, t);
    ClearOne(start, tables, pending, ids, rank, t);
    CountOne(start, tables - pending, ids, deleted, t);
    assert tables - (pending - {t}) == (tables - pending) + {t};
  }

  /** In the middle of a pass that began with `pending`, with the tables `todo` not tried yet. */
  ghost predicate InPass(start: set<Row>, now: set<Row>, tables: set<Table>, pending: set<Table>, ids: set<CompanyId>,
                         rank: map<Table, nat>, deleted: map<Table, nat>, cleared: set<Table>, todo: set<Table>) {
    && cleared <= pending && todo <= pending - cleared
    && Midway(start, now, tables, pending - cleared, ids, rank, deleted)
    && (cleared == {} ==> AllBlocked(start, tables, pending, ids, pending - todo))
  }

  lemma PassStarts(start: set<Row>, now: set<Row>, tables: set<Table>, pending: set<Table>, ids: set<CompanyId>,
                   rank: map<Table, nat>, deleted: map<Table, nat>)
    requires Midway(start, now, tables, pending, ids, rank, deleted)
    ensures InPass(start, now, tables, pending, ids, rank, deleted, {}, pending)
  {
    assert pending - {} == pending;
  }

  lemma PassEnds(start: set<Row>, now: set<Row>, tables: set<Table>, pending: set<Table>, ids: set<CompanyId>,
                 rank: map<Table, nat>, deleted: map<Table, nat>, cleared: set<Table>, todo: set<Table>)
    requires InPass(start, now, tables, pending, ids, rank, deleted, cleared, todo) && |todo| == 0
    ensures cleared == {} ==> AllBlocked(start, tables, pending, ids, pending)
  {
    assert pending - todo == pending;
  }

  // ---------------------------------------------------------------- the script

  /** `sorted(pending)`. */
  method Sorted(tables: set<Table>) returns (order: seq<Table>)
    ensures forall i :: 0 <= i < |order| ==> order[i] in tables
    ensures forall i, j :: 0 <= i < j < |order| ==> order[i] < order[j]
    ensures |order| == |tables|
  {
    order := [];
    var todo := tables;
    while todo != {}
      invariant todo <= tables
      invariant forall i :: 0 <= i < |order| ==> order[i] in tables
      invariant |order| + |todo| == |tables|
      invariant forall i, t :: 0 <= i < |order| && t in todo ==> order[i] < t
      invariant forall i, j :: 0 <= i < j < |order| ==> order[i] < order[j]
    {
      var least :| least in todo;
      var rest := todo - {least};
      while rest != {}
        invariant rest < todo && least in todo
        invariant forall t :: t in todo ==> t in rest || least <= t
        decreases rest
      {
        var t :| t in rest;
        if t < least { least := t; }
        rest := rest - {t};
      }
      order := order + [least];
      todo := todo - {least};
    }
  }

  class Database {
    var rows: set<Row>

    constructor (rows: set<Row>)
      ensures this.rows == rows
    {
      this.rows := rows;
    }

    /**
     One DELETE in its own savepoint: the number of rows deleted, or None if the statement
     broke a foreign key and was rolled back.
     */
    method DeleteFrom(t: Table, ids: set<CompanyId>) returns (count: Option<nat>)
      modifies this
      ensures count.None? <==> Violates(old(rows), Doomed(old(rows), t, ids))
      ensures count.None? ==> rows == old(rows)
      ensures count.Some? ==>
                rows == old(rows) - Doomed(old(rows), t, ids) && count.value == |Doomed(old(rows), t, ids)|
      ensures rows <= old(rows)
      ensures forall r :: r in old(rows) && (r.table != t || r.company.None? || r.company.value !in ids) ==> r in rows
      ensures count.Some? ==> forall r :: r in rows && r.table == t && r.company.Some? ==> r.company.value !in ids
      ensures Integrity(old(rows)) ==> Integrity(rows)
    {
      var doomed := Doomed(rows, t, ids);
      if Violates(rows, doomed) {
        return None;
      }
      ghost var before := rows;
      rows := rows - doomed;
      if Integrity(before) {
        forall r, x | r in rows && x in r.refs ensures exists d :: d in rows && d.id == x {
          var d :| d in before && d.id == x;
          assert d in rows;
        }
      }
      return Some(|doomed|);
    }

    /** The body of the inner loop: try one table, and count what went. */
    method Attempt(ghost start: set<Row>, ghost tables: set<Table>, ghost pending: set<Table>, ids: set<CompanyId>,
                   ghost rank: map<Table, nat>, deleted: map<Table, nat>, cleared: set<Table>, ghost todo: set<Table>,
                   table: Table)
      returns (cleared': set<Table>, deleted': map<Table, nat>, ghost rank': map<Table, nat>)
      requires InPass(start, rows, tables, pending, ids, rank, deleted, cleared, todo) && table in todo
      modifies this
      ensures InPass(start, rows, tables, pending, ids, rank', deleted', cleared', todo - {table})
      ensures Integrity(old(rows)) ==> Integrity(rows)
    {
      ghost var left, before := pending - cleared, rows;
      Untouched(start, rows, tables, left, ids, rank, deleted, table);
      var result := DeleteFrom(table, ids);
      if result.None? {
        if cleared == {} {
          assert left == pending;
          BlockedToo(start, tables, pending, ids, todo, table);
        }
        return cleared, deleted, rank;
      }
      StepMidway(start, before, tables, left, ids, rank, deleted, table);
      assert left - {table} == pending - (cleared + {table});
      var counts := if result.value != 0 then deleted[table := result.value] else deleted;
      return cleared + {table}, counts, rank[table := |rank|];
    }

    /** One pass over the tables still pending, in name order. */
    method Pass(ghost start: set<Row>, ghost tables: set<Table>, pending: set<Table>, ids: set<CompanyId>,
                ghost rank: map<Table, nat>, deleted: map<Table, nat>)
      returns (cleared: set<Table>, deleted': map<Table, nat>, ghost rank': map<Table, nat>)
      requires Midway(start, rows, tables, pending, ids, rank, deleted)
      modifies this
      ensures cleared <= pending
      ensures Midway(start, rows, tables, pending - cleared, ids, rank', deleted')
      ensures Integrity(old(rows)) ==> Integrity(rows)
      ensures cleared == {} ==> AllBlocked(start, tables, pending, ids, pending)
    {
      cleared, deleted', rank' := {}, deleted, rank;
      var order := Sorted(pending);
      ghost var todo := pending;
      PassStarts(start, rows, tables, pending, ids, rank, deleted);
      for i := 0 to |order|
        invariant |todo| == |order| - i && forall k :: i <= k < |order| ==> order[k] in todo
        invariant InPass(start, rows, tables, pending, ids, rank', deleted', cleared, todo)
        invariant Integrity(old(rows)) ==> Integrity(rows)
      {
        cleared, deleted', rank' := Attempt(start, tables, pending, ids, rank', deleted', cleared, todo, order[i]);
        todo := todo - {order[i]};
      }
      PassEnds(start, rows, tables, pending, ids, rank', deleted', cleared, todo);
    }

    /**
     The retry loop. It always ends. It succeeds, having removed exactly the target rows,
     exactly when no row that stays points at one and the tables' target rows do not point
     at each other in a circle; otherwise it names the tables it could not clear.
     */
    method DeleteTenantRows(tables: set<Table>, ids: set<CompanyId>)
      returns (out: Result<map<Table, nat>, set<Table>>)
      modifies this
      ensures out.Ok? <==> !Outside(old(rows), tables, ids) && !Cyclic(Edges(old(rows), tables, ids))
      ensures out.Ok? ==> rows == old(rows) - Targets(old(rows), tables, ids)
      ensures out.Ok? ==> Counts(old(rows), tables, ids, out.value)
      ensures out.Err? ==> {} < out.error <= tables && rows == Left(old(rows), tables, out.error, ids)
      ensures out.Err? ==> AllBlocked(old(rows), tables, out.error, ids, out.error)
      ensures rows <= old(rows)
      ensures forall r ::
        r in old(rows) && (r.table !in tables || r.company.None? || r.company.value !in ids) ==> r in rows
      ensures out.Ok? ==>
                forall r :: r in rows && r.table in tables && r.company.Some? ==> r.company.value !in ids
      ensures Integrity(old(rows)) ==> Integrity(rows)
    {
      ghost var start := rows;
      ghost var rank: map<Table, nat> := map[];
      var deleted: map<Table, nat> := map[];
      var pending := tables;
      assert Left(start, tables, pending, ids) == rows;
      while pending != {}
        invariant Midway(start, rows, tables, pending, ids, rank, deleted)
        invariant Integrity(old(rows)) ==> Integrity(rows)
        decreases pending
      {
        var cleared, deleted', rank' := Pass(start, tables, pending, ids, rank, deleted);
        if cleared == {} {
          assert pending - cleared == pending;
          StuckMeans(start, tables, pending, ids);
          return Err(pending);
        }
        pending, deleted, rank := pending - cleared, deleted', rank';
      }
      AllCleared(start, tables, ids, rank);
      return Ok(deleted);
    }
  }

  // ---------------------------------------------------------------- which companies

  /** Parent links; a root has none. */
  type Companies = map<CompanyId, Option<CompanyId>>

  predicate ChildOf(companies: Companies, c: CompanyId, some: set<CompanyId>) {
    c in companies && companies[c].Some? && companies[c].value in some
  }

  predicate ClosedUnderChildren(companies: Companies, ids: set<CompanyId>) {
    forall c :: c in companies && ChildOf(companies, c, ids) ==> c in ids
  }

  /**
   The recursive query: the matching companies and every descendant, and nothing else. What
   stays never has a parent that goes.
   */
  method TargetCompanies(companies: Companies, matching: set<CompanyId>) returns (ids: set<CompanyId>)
    requires matching <= companies.Keys
    ensures matching <= ids <= companies.Keys && ClosedUnderChildren(companies, ids)
    ensures forall closed :: matching <= closed && ClosedUnderChildren(companies, closed) ==> ids <= closed
    ensures forall c :: c in companies && companies[c].Some? && companies[c].value in ids ==> c in ids
    ensures forall c :: c in ids - matching ==> companies[c].Some? && companies[c].value in ids
  {
    ids := matching;
    var newest := matching;
    while newest != {}
      invariant matching <= ids <= companies.Keys && newest <= ids
      invariant forall c :: c in companies && ChildOf(companies, c, ids) ==> c in ids || ChildOf(companies, c, newest)
      invariant forall c :: c in ids - matching ==> ChildOf(companies, c, ids)
      invariant forall closed :: matching <= closed && ClosedUnderChildren(companies, closed) ==> ids <= closed
      decreases companies.Keys - ids, |newest|
    {
      var next := set c | c in companies && ChildOf(companies, c, newest) && c !in ids;
      assert forall c :: c in ids - matching ==> ChildOf(companies, c, ids + next);
      ids := ids + next;
      newest := next;
    }
  }
}
