/**
 Daily logs sent from an offline queue: a client-made key turns any number of deliveries
 into one row. Rows are never updated or deleted.
 */
module DailyLogs {
  import opened Wrappers

  type ProjectId = nat
  type CompanyId = nat

  /** Author, date, weather and notes; `key` is the client reference. */
  datatype Delivery = Delivery(project: ProjectId, content: string, key: Option<nat>)

  datatype Row = Row(id: nat, project: ProjectId, company: CompanyId, content: string, key: Option<nat>)

  /** The projects the caller can see, with their companies. */
  type Projects = map<ProjectId, CompanyId>

  datatype Error = NotFound

  predicate Matches(r: Row, company: CompanyId, key: nat) {
    r.company == company && r.key == Some(key)
  }

  /** The index of the row holding the key, if there is one. */
  function Lookup(rows: seq<Row>, company: CompanyId, key: nat): Option<nat> {
    if rows == [] then None
    else
      var earlier := Lookup(rows[..|rows| - 1], company, key);
      if earlier.Some? then earlier
      else if Matches(rows[|rows| - 1], company, key) then Some(|rows| - 1) else None
  }

  function NewRow(rows: seq<Row>, d: Delivery, company: CompanyId): Row {
    Row(|rows|, d.project, company, d.content, d.key)
  }

  /** One delivery: the rows afterwards, and the answer. */
  function Deliver(rows: seq<Row>, projects: Projects, d: Delivery): (seq<Row>, Result<Row, Error>) {
    if d.project !in projects then (rows, Err(NotFound))
    else
      var company := projects[d.project];
      var existing := if d.key.Some? then Lookup(rows, company, d.key.value) else None;
      if existing.Some? && existing.value < |rows| then (rows, Ok(rows[existing.value]))
      else (rows + [NewRow(rows, d, company)], Ok(NewRow(rows, d, company)))
  }

  function Run(rows: seq<Row>, projects: Projects, ds: seq<Delivery>): seq<Row> {
    if ds == [] then rows else Deliver(Run(rows, projects, ds[..|ds| - 1]), projects, ds[|ds| - 1]).0
  }

  lemma {:induction false} LookupMeans(rows: seq<Row>, company: CompanyId, key: nat)
    ensures var found := Lookup(rows, company, key);
            && (found.Some? ==> found.value < |rows| && Matches(rows[found.value], company, key))
            && (found.Some? ==> forall i :: 0 <= i < found.value ==> !Matches(rows[i], company, key))
            && (found.None? ==> forall i :: 0 <= i < |rows| ==> !Matches(rows[i], company, key))
  {
    if rows != [] {
      var init := rows[..|rows| - 1];
      LookupMeans(init, company, key);
      assert forall i :: 0 <= i < |init| ==> init[i] == rows[i];
    }
  }

  class DailyLogTable {
    var rows: seq<Row>

    constructor ()
      ensures rows == []
    {
      rows := [];
    }

    /** `SELECT ... WHERE company_id = ... AND client_reference = ...`. */
    method FindExisting(company: CompanyId, key: nat) returns (found: Option<nat>)
      ensures found == Lookup(rows, company, key)
    {
      for i := 0 to |rows|
        invariant Lookup(rows[..i], company, key) == None
      {
        assert rows[..i + 1][..i] == rows[..i];
        if rows[i].company == company && rows[i].key == Some(key) {
          LookupStays(rows, company, key, i + 1);
          return Some(i);
        }
      }
      assert rows[..|rows|] == rows;
      return None;
    }

    method CreateDailyLog(projects: Projects, d: Delivery) returns (answer: Result<Row, Error>)
      modifies this
      ensures (rows, answer) == Deliver(old(rows), projects, d)
    {
      if d.project !in projects {
        return Err(NotFound);
      }
      var company := projects[d.project];
      if d.key.Some? {
        var existing := FindExisting(company, d.key.value);
        LookupMeans(rows, company, d.key.value);
        if existing.Some? {
          return Ok(rows[existing.value]);
        }
      }
      var row := Row(|rows|, d.project, company, d.content, d.key);
      rows := rows + [row];
      return Ok(row);
    }
  }

  lemma {:induction false} LookupStays(rows: seq<Row>, company: CompanyId, key: nat, n: nat)
    requires n <= |rows| && Lookup(rows[..n], company, key).Some?
    ensures Lookup(rows, company, key) == Lookup(rows[..n], company, key)
  {
    if n < |rows| {
      var init := rows[..|rows| - 1];
      assert init[..n] == rows[..n];
      LookupStays(init, company, key, n);
    } else {
      assert rows[..n] == rows;
    }
  }

  // ---------------------------------------------------------------- replays

  ghost predicate OnePerKey(rows: seq<Row>) {
    forall i, j :: 0 <= i < j < |rows| && rows[i].key.Some? ==>
      rows[i].company != rows[j].company || rows[i].key != rows[j].key
  }

  lemma {:induction false} RunGrows(rows: seq<Row>, projects: Projects, ds: seq<Delivery>)
    ensures rows <= Run(rows, projects, ds)
  {
    if ds != [] {
      RunGrows(rows, projects, ds[..|ds| - 1]);
    }
  }

  lemma DeliverKeepsOnePerKey(rows: seq<Row>, projects: Projects, d: Delivery)
    requires OnePerKey(rows)
    ensures OnePerKey(Deliver(rows, projects, d).0)
  {
    if d.project in projects && d.key.Some? {
      LookupMeans(rows, projects[d.project], d.key.value);
    }
  }

  lemma {:induction false} RunKeepsOnePerKey(rows: seq<Row>, projects: Projects, ds: seq<Delivery>)
    requires OnePerKey(rows)
    ensures OnePerKey(Run(rows, projects, ds))
  {
    if ds != [] {
      RunKeepsOnePerKey(rows, projects, ds[..|ds| - 1]);
      DeliverKeepsOnePerKey(Run(rows, projects, ds[..|ds| - 1]), projects, ds[|ds| - 1]);
    }
  }

  /** Two deliveries of one log: the same key for the same company. */
  predicate SameLog(projects: Projects, a: Delivery, b: Delivery) {
    a.key.Some? && a.key == b.key && a.project in projects && b.project in projects
      && projects[a.project] == projects[b.project]
  }

  predicate Replays(projects: Projects, earlier: seq<Delivery>, d: Delivery) {
    exists i :: 0 <= i < |earlier| && SameLog(projects, earlier[i], d)
  }

  /** Only the first delivery of each log. */
  function Deduplicated(projects: Projects, ds: seq<Delivery>): seq<Delivery> {
    if ds == [] then []
    else
      var init, last := ds[..|ds| - 1], ds[|ds| - 1];
      Deduplicated(projects, init) + if Replays(projects, init, last) then [] else [last]
  }

  lemma StoredRowStays(rows: seq<Row>, projects: Projects, first: Delivery, between: seq<Delivery>)
    requires first.key.Some? && first.project in projects
    requires Lookup(rows, projects[first.project], first.key.value).None?
    ensures var later := Run(Deliver(rows, projects, first).0, projects, between);
            Lookup(later, projects[first.project], first.key.value) == Some(|rows|)
            && |rows| < |later| && later[|rows|] == NewRow(rows, first, projects[first.project])
  {
    var company, key := projects[first.project], first.key.value;
    var after := Deliver(rows, projects, first).0;
    assert after == rows + [NewRow(rows, first, company)] && after[..|rows|] == rows;
    var later := Run(after, projects, between);
    RunGrows(after, projects, between);
    assert later[..|after|] == after;
    LookupStays(later, company, key, |after|);
  }

  /**
   What is written: nothing for a project the caller cannot see; a row with what was sent, and
   that row for answer, for a delivery without a key, however often it is repeated, and for
   the first of a key in its company.
   */
  lemma WritesWhatWasSent(rows: seq<Row>, projects: Projects, d: Delivery)
    ensures d.project !in projects ==> Deliver(rows, projects, d) == (rows, Err(NotFound))
    ensures d.project in projects ==>
              var company := projects[d.project];
              var row := Row(|rows|, d.project, company, d.content, d.key);
              var known := d.key.Some?
                             && exists i :: 0 <= i < |rows| && rows[i].company == company && rows[i].key == d.key;
              && (!known ==> Deliver(rows, projects, d) == (rows + [row], Ok(row)))
              && (known ==> Deliver(rows, projects, d).0 == rows)
  {
    if d.project in projects && d.key.Some? {
      LookupMeans(rows, projects[d.project], d.key.value);
    }
  }

  /**
   A replay, however much later and whatever came between, gets the answer the first delivery
   got, with that delivery's project and content, and writes nothing.
   */
  lemma ReplayReturnsFirst(rows: seq<Row>, projects: Projects, first: Delivery, between: seq<Delivery>, again: Delivery)
    requires SameLog(projects, first, again)
    requires Lookup(rows, projects[first.project], first.key.value).None?
    ensures var (after, answer) := Deliver(rows, projects, first);
            var later := Run(after, projects, between);
            && Deliver(later, projects, again) == (later, answer)
            && answer.Ok? && answer.value in later
            && answer.value.project == first.project && answer.value.content == first.content
            && Matches(answer.value, projects[first.project], first.key.value)
  {
    StoredRowStays(rows, projects, first, between);
  }

  lemma {:induction false} RunHolds(rows: seq<Row>, projects: Projects, ds: seq<Delivery>, i: nat)
    requires i < |ds| && ds[i].key.Some? && ds[i].project in projects
    ensures Lookup(Run(rows, projects, ds), projects[ds[i].project], ds[i].key.value).Some?
  {
    var init, last := ds[..|ds| - 1], ds[|ds| - 1];
    var before := Run(rows, projects, init);
    var n := Deliver(before, projects, last).0;
    var company, key := projects[ds[i].project], ds[i].key.value;
    assert n[..|before|] == before;
    if i == |ds| - 1 {
      LookupMeans(before, company, key);
      LookupMeans(n, company, key);
      assert Lookup(before, company, key).None? ==> Matches(n[|before|], company, key);
    } else {
      RunHolds(rows, projects, init, i);
      LookupStays(n, company, key, |before|);
    }
  }

  lemma ReplayWritesNothing(rows: seq<Row>, projects: Projects, ds: seq<Delivery>, d: Delivery)
    requires Replays(projects, ds, d)
    ensures Deliver(Run(rows, projects, ds), projects, d).0 == Run(rows, projects, ds)
  {
    var i :| 0 <= i < |ds| && SameLog(projects, ds[i], d);
    RunHolds(rows, projects, ds, i);
    LookupMeans(Run(rows, projects, ds), projects[d.project], d.key.value);
  }

  lemma RunSnoc(rows: seq<Row>, projects: Projects, ds: seq<Delivery>, d: Delivery)
    ensures Run(rows, projects, ds + [d]) == Deliver(Run(rows, projects, ds), projects, d).0
  {
    assert (ds + [d])[..|ds|] == ds;
  }

  /**
   For every sequence of deliveries, with any duplicates: the table ends as if each log had
   been delivered once, with at most one row a (company, key).
   */
  lemma {:induction false} ReplayingIsDeduplicating(rows: seq<Row>, projects: Projects, ds: seq<Delivery>)
    requires OnePerKey(rows)
    ensures Run(rows, projects, ds) == Run(rows, projects, Deduplicated(projects, ds))
    ensures OnePerKey(Run(rows, projects, ds))
  {
    RunKeepsOnePerKey(rows, projects, ds);
    if ds != [] {
      var init, last := ds[..|ds| - 1], ds[|ds| - 1];
      ReplayingIsDeduplicating(rows, projects, init);
      if Replays(projects, init, last) {
        ReplayWritesNothing(rows, projects, init, last);
        assert Deduplicated(projects, ds) == Deduplicated(projects, init);
      } else {
        RunSnoc(rows, projects, Deduplicated(projects, init), last);
      }
    }
  }

  // ---------------------------------------------------------------- deliveries that overlap

  /**
   Looked, when the table had `seen` rows, and found nothing; inserted and not committed;
   answered with a row; failed on the unique index, or rolled back for any other reason.
   */
  datatype Phase = Looked(seen: nat) | Inserted(row: Row) | Answered(row: Row) | Failed | RolledBack

  datatype Tx = Tx(delivery: Delivery, company: CompanyId, phase: Phase)

  datatype Shared = Shared(rows: seq<Row>, txs: map<nat, Tx>)

  datatype Step =
    | Look(tx: nat, delivery: Delivery, company: CompanyId)
    | Insert(tx: nat)
    | Commit(tx: nat)
    | RollBack(tx: nat)

  /** Another delivery has the key in an uncommitted insert; the unique index makes this one wait. */
  predicate InFlight(s: Shared, tx: nat, company: CompanyId, key: Option<nat>) {
    exists u :: u in s.txs && u != tx && s.txs[u].phase.Inserted? && key.Some?
      && s.txs[u].phase.row.company == company && s.txs[u].phase.row.key == key
  }

  function Become(s: Shared, tx: nat, phase: Phase): Shared
    requires tx in s.txs
  {
    s.(txs := s.txs[tx := s.txs[tx].(phase := phase)])
  }

  /** Its turn to insert has come: it looked, found nothing, and nobody holds the key. */
  predicate CanInsert(s: Shared, tx: nat) {
    tx in s.txs && s.txs[tx].phase.Looked? && !InFlight(s, tx, s.txs[tx].company, s.txs[tx].delivery.key)
  }

  function StepOnce(s: Shared, step: Step): Shared {
    match step
    case Look(tx, d, company) =>
      if tx in s.txs then s
      else
        var found := if d.key.Some? then Lookup(s.rows, company, d.key.value) else None;
        s.(txs := s.txs[tx := Tx(d, company,
             if found.Some? && found.value < |s.rows| then Answered(s.rows[found.value]) else Looked(|s.rows|))])
    case Insert(tx) =>
      if !CanInsert(s, tx) then s
      else
        var t := s.txs[tx];
        if t.delivery.key.Some? && Lookup(s.rows, t.company, t.delivery.key.value).Some?
        then Become(s, tx, Failed)   // the unique index; nothing catches it here, the queue retries
        else Become(s, tx, Inserted(Row(tx, t.delivery.project, t.company, t.delivery.content, t.delivery.key)))
    case Commit(tx) =>
      if tx !in s.txs || !s.txs[tx].phase.Inserted? then s
      else Become(s, tx, Answered(s.txs[tx].phase.row)).(rows := s.rows + [s.txs[tx].phase.row])
    case RollBack(tx) =>
      if tx !in s.txs || !(s.txs[tx].phase.Looked? || s.txs[tx].phase.Inserted?) then s
      else Become(s, tx, RolledBack)
  }

  function Steps(s: Shared, steps: seq<Step>): Shared {
    if steps == [] then s else StepOnce(Steps(s, steps[..|steps| - 1]), steps[|steps| - 1])
  }

  predicate ForIts(t: Tx, r: Row) {
    r.company == t.company && r.key == t.delivery.key
  }

  ghost predicate Clash(a: Row, b: Row) {
    a.key.Some? && a.company == b.company && a.key == b.key
  }

  /** A row of the delivery's own key. */
  predicate Rival(t: Tx, r: Row) {
    t.delivery.key.Some? && Matches(r, t.company, t.delivery.key.value)
  }

  ghost predicate Inv(s: Shared) {
    && OnePerKey(s.rows)
    && (forall t :: t in s.txs ==> TxInv(s, s.txs[t]))
    && (forall t, u :: t in s.txs && u in s.txs && t != u && s.txs[t].phase.Inserted? && s.txs[u].phase.Inserted? ==>
          !Clash(s.txs[t].phase.row, s.txs[u].phase.row))
  }

  ghost predicate TxInv(s: Shared, t: Tx) {
    && (t.phase.Looked? ==> t.phase.seen <= |s.rows| && forall i :: 0 <= i < t.phase.seen ==> !Rival(t, s.rows[i]))
    && (t.phase.Inserted? ==>
          ForIts(t, t.phase.row) && forall i :: 0 <= i < |s.rows| ==> !Clash(s.rows[i], t.phase.row))
    && (t.phase.Answered? ==> ForIts(t, t.phase.row) && t.phase.row in s.rows)
  }

  lemma LookKeeps(s: Shared, step: Step)
    requires Inv(s) && step.Look?
    ensures Inv(StepOnce(s, step))
  {
    var n := StepOnce(s, step);
    if step.tx !in s.txs && step.delivery.key.Some? {
      LookupMeans(s.rows, step.company, step.delivery.key.value);
    }
    forall t | t in n.txs ensures TxInv(n, n.txs[t]) {
      assert t in s.txs ==> TxInv(s, s.txs[t]);
    }
  }

  lemma InsertKeeps(s: Shared, tx: nat)
    requires Inv(s)
    ensures Inv(StepOnce(s, Insert(tx)))
  {
    var n := StepOnce(s, Insert(tx));
    if tx in s.txs && s.txs[tx].delivery.key.Some? {
      LookupMeans(s.rows, s.txs[tx].company, s.txs[tx].delivery.key.value);
    }
    forall t | t in n.txs ensures TxInv(n, n.txs[t]) {
      assert TxInv(s, s.txs[t]);
    }
  }

  lemma CommitKeeps(s: Shared, tx: nat)
    requires Inv(s)
    ensures Inv(StepOnce(s, Commit(tx)))
  {
    var n := StepOnce(s, Commit(tx));
    if tx in s.txs && s.txs[tx].phase.Inserted? {
      var row := s.txs[tx].phase.row;
      assert TxInv(s, s.txs[tx]);
      forall t | t in n.txs ensures TxInv(n, n.txs[t]) {
        assert TxInv(s, s.txs[t]);
      }
    }
  }

  lemma RollBackKeeps(s: Shared, tx: nat)
    requires Inv(s)
    ensures Inv(StepOnce(s, RollBack(tx)))
  {
    var n := StepOnce(s, RollBack(tx));
    forall t | t in n.txs ensures TxInv(n, n.txs[t]) {
      assert TxInv(s, s.txs[t]);
    }
  }

  lemma {:induction false} StepsKeep(s: Shared, steps: seq<Step>)
    requires Inv(s)
    ensures Inv(Steps(s, steps))
  {
    if steps != [] {
      var before, last := Steps(s, steps[..|steps| - 1]), steps[|steps| - 1];
      StepsKeep(s, steps[..|steps| - 1]);
      match last
      case Look(_, _, _) => LookKeeps(before, last);
      case Insert(tx) => InsertKeeps(before, tx);
      case Commit(tx) => CommitKeeps(before, tx);
      case RollBack(tx) => RollBackKeeps(before, tx);
    }
  }

  /**
   Deliveries that overlap, any of them rolled back at any point: whatever the interleaving,
   at most one row per (company, key), and every delivery that was answered was answered with
   a stored row of its own key.
   */
  lemma OverlappingDeliveriesWriteOnce(steps: seq<Step>, tx: nat)
    ensures var s := Steps(Shared([], map[]), steps);
            && OnePerKey(s.rows)
            && (tx in s.txs && s.txs[tx].phase.Answered? ==>
                  s.txs[tx].phase.row in s.rows && ForIts(s.txs[tx], s.txs[tx].phase.row))
  {
    StepsKeep(Shared([], map[]), steps);
    var s := Steps(Shared([], map[]), steps);
    assert tx in s.txs ==> TxInv(s, s.txs[tx]);
  }

  /**
   A delivery that may insert fails on the index exactly when another of its key committed
   after it looked; and then a retry is answered with that row.
   */
  lemma FailsExactlyWhenOvertaken(steps: seq<Step>, tx: nat)
    requires CanInsert(Steps(Shared([], map[]), steps), tx)
    ensures var s := Steps(Shared([], map[]), steps); var t := s.txs[tx];
            && t.phase.seen <= |s.rows|
            && (StepOnce(s, Insert(tx)).txs[tx].phase.Failed? <==>
                  exists i :: t.phase.seen <= i < |s.rows| && Rival(t, s.rows[i]))
            && (StepOnce(s, Insert(tx)).txs[tx].phase.Failed? ==>
                  forall again :: again !in s.txs ==>
                    StepOnce(s, Look(again, t.delivery, t.company)).txs[again].phase.Answered?)
  {
    StepsKeep(Shared([], map[]), steps);
    var s := Steps(Shared([], map[]), steps);
    var t := s.txs[tx];
    assert TxInv(s, t);
    if t.delivery.key.Some? {
      LookupMeans(s.rows, t.company, t.delivery.key.value);
      var found := Lookup(s.rows, t.company, t.delivery.key.value);
      if found.Some? {
        assert Rival(t, s.rows[found.value]);
      }
    }
  }

  /** A delivery that was answered, failed or rolled back is over, whatever comes after. */
  lemma {:induction false} OverIsOver(s: Shared, steps: seq<Step>, tx: nat)
    requires tx in s.txs && (s.txs[tx].phase.Answered? || s.txs[tx].phase.Failed? || s.txs[tx].phase.RolledBack?)
    ensures tx in Steps(s, steps).txs && Steps(s, steps).txs[tx] == s.txs[tx]
  {
    if steps != [] {
      OverIsOver(s, steps[..|steps| - 1], tx);
    }
  }

  /** The row stored for this key, if there is one. */
  ghost predicate StoredFor(rows: seq<Row>, company: CompanyId, key: Option<nat>, r: Row) {
    key.Some? && r in rows && r.company == company && r.key == key
  }

  /**
   A delivery no uncommitted insert of its key stands in the way of, whatever else is under way:
   it writes what was sent and is answered with it, or is answered with the row there is. Rolled
   back instead of committed, it leaves no row.
   */
  lemma UnhinderedDelivery(s: Shared, tx: nat, d: Delivery, company: CompanyId)
    requires tx !in s.txs
    requires forall u :: u in s.txs && s.txs[u].phase.Inserted? ==>
               d.key.None? || s.txs[u].phase.row.company != company || s.txs[u].phase.row.key != d.key
    ensures var looked := StepOnce(s, Look(tx, d, company));
            var inserted := StepOnce(looked, Insert(tx));
            var row := Row(tx, d.project, company, d.content, d.key);
            if exists r :: StoredFor(s.rows, company, d.key, r) then
              && looked.rows == s.rows && looked.txs[tx].phase.Answered?
              && StoredFor(s.rows, company, d.key, looked.txs[tx].phase.row)
            else
              && StepOnce(inserted, Commit(tx)) == Shared(s.rows + [row], s.txs[tx := Tx(d, company, Answered(row))])
              && StepOnce(inserted, RollBack(tx)) == Shared(s.rows, s.txs[tx := Tx(d, company, RolledBack)])
              && StepOnce(looked, RollBack(tx)) == Shared(s.rows, s.txs[tx := Tx(d, company, RolledBack)])
  {
    var looked := StepOnce(s, Look(tx, d, company));
    if d.key.Some? {
      LookupMeans(s.rows, company, d.key.value);
      var found := Lookup(s.rows, company, d.key.value);
      assert found.Some? ==> StoredFor(s.rows, company, d.key, s.rows[found.value]);
    }
    if forall r :: !StoredFor(s.rows, company, d.key, r) {
      assert looked == Shared(s.rows, s.txs[tx := Tx(d, company, Looked(|s.rows|))]);
      assert CanInsert(looked, tx);
    }
  }
}
