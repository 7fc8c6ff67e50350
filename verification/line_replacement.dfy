/**
 Concurrent batch replaces of one estimate's lines, under READ COMMITTED.

 A replace deletes the rows its own statement snapshot sees, locking them one by one, and
 then inserts its lines at positions 0, 1, 2, ... The unique (estimate, position)
 constraint makes an insert wait for another transaction's uncommitted write at that
 position and fail on a committed one. Every interleaving of any number of replaces is a
 sequence of the actions below; an action that would have to wait changes nothing.
 */
module LineReplacement {
  import opened LineItems

  type Tx = nat

  /** A row version: which replace wrote it, where, and what. */
  datatype Row = Row(writer: Tx, position: nat, line: Line)

  datatype Phase =
    | Begun
    | Deleting(seen: set<Row>, todo: set<Row>, removed: set<Row>)
    | Inserting(seen: set<Row>, removed: set<Row>, inserted: nat)
    | Committed
    | Aborted

  datatype Txn = Txn(payload: seq<Line>, phase: Phase)

  /** The committed rows of the estimate, and every replace that ever began. */
  datatype State = State(rows: set<Row>, txns: map<Tx, Txn>)

  datatype Action =
    | Begin(tx: Tx, payload: seq<Line>)
    | Snapshot(tx: Tx)
    | LockRow(tx: Tx, row: Row)
    | EndDelete(tx: Tx)
    | InsertNext(tx: Tx)
    | Commit(tx: Tx)
    | Abort(tx: Tx)

  /** The rows a replace stands for: its payload, at positions 0 to n-1. */
  function RowsOf(tx: Tx, payload: seq<Line>): set<Row> {
    set k | 0 <= k < |payload| :: Row(tx, k, payload[k])
  }

  function Removed(t: Txn): set<Row> {
    if t.phase.Deleting? || t.phase.Inserting? then t.phase.removed else {}
  }

  function Inserted(t: Txn): nat {
    if t.phase.Inserting? then t.phase.inserted else 0
  }

  predicate Active(t: Txn) {
    t.phase.Begun? || t.phase.Deleting? || t.phase.Inserting?
  }

  /** Another transaction has an uncommitted insert or delete at this position. */
  predicate WriteInFlight(s: State, tx: Tx, position: nat) {
    exists u :: u in s.txns && u != tx &&
      (position < Inserted(s.txns[u]) || exists r :: r in Removed(s.txns[u]) && r.position == position)
  }

  /** A committed row, not deleted by this transaction, holds the position. */
  predicate Taken(s: State, tx: Tx, position: nat)
    requires tx in s.txns
  {
    exists r :: r in s.rows && r.position == position && r !in Removed(s.txns[tx])
  }

  predicate Enabled(s: State, a: Action) {
    if a.Begin? then a.tx !in s.txns
    else a.tx in s.txns && var t := s.txns[a.tx];
      match a
      case Snapshot(_) => t.phase.Begun?
      case LockRow(_, row) =>
        t.phase.Deleting? && row in t.phase.todo &&
        forall u :: u in s.txns && u != a.tx ==> row !in Removed(s.txns[u])
      case EndDelete(_) => t.phase.Deleting? && t.phase.todo == {}
      case InsertNext(_) =>
        t.phase.Inserting? && t.phase.inserted < |t.payload| && !WriteInFlight(s, a.tx, t.phase.inserted)
      case Commit(_) => t.phase.Inserting? && t.phase.inserted == |t.payload|
      case _ => Active(t)
  }

  function Become(s: State, tx: Tx, phase: Phase): State
    requires tx in s.txns
  {
    s.(txns := s.txns[tx := s.txns[tx].(phase := phase)])
  }

  function Apply(s: State, a: Action): State
    requires Enabled(s, a)
  {
    match a
    case Begin(tx, payload) => s.(txns := s.txns[tx := Txn(payload, Begun)])
    case Snapshot(tx) => Become(s, tx, Deleting(s.rows, s.rows, {}))
    case LockRow(tx, row) =>
      // The row may have been deleted by a replace this one waited for; then it is skipped.
      var p := s.txns[tx].phase;
      Become(s, tx, p.(todo := p.todo - {row},
                       removed := if row in s.rows then p.removed + {row} else p.removed))
    case EndDelete(tx) =>
      var p := s.txns[tx].phase;
      Become(s, tx, Inserting(p.seen, p.removed, 0))
    case InsertNext(tx) =>
      var p := s.txns[tx].phase;
      if Taken(s, tx, p.inserted) then Become(s, tx, Aborted)  // IntegrityError, answered 409
      else Become(s, tx, p.(inserted := p.inserted + 1))
    case Commit(tx) =>
      var t := s.txns[tx];
      Become(s, tx, Committed).(rows := s.rows - t.phase.removed + RowsOf(tx, t.payload))
    case Abort(tx) => Become(s, tx, Aborted)
  }

  /** One step of a schedule; an action that must wait leaves the state alone. */
  function Exec(s: State, a: Action): State {
    if Enabled(s, a) then Apply(s, a) else s
  }

  function Run(s: State, schedule: seq<Action>): State {
    if schedule == [] then s else Exec(Run(s, schedule[..|schedule| - 1]), schedule[|schedule| - 1])
  }

  /** An estimate whose lines were last replaced by transaction 0. */
  function Init(lines: seq<Line>): State {
    State(RowsOf(0, lines), map[0 := Txn(lines, Committed)])
  }

  // ---------------------------------------------------------------- the invariant

  /** `rows` are exactly the lines of replace `w`, which committed. */
  ghost predicate WrittenBy(s: State, rows: set<Row>, w: Tx) {
    w in s.txns && s.txns[w].phase.Committed? && rows == RowsOf(w, s.txns[w].payload)
  }

  ghost predicate TxnInv(s: State, tx: Tx)
    requires tx in s.txns
  {
    var t := s.txns[tx];
    (t.phase.Deleting? || t.phase.Inserting?) ==>
      && (exists w :: WrittenBy(s, t.phase.seen, w))
      && Removed(t) <= s.rows
      && Removed(t) <= t.phase.seen
      && (t.phase.Deleting? ==> t.phase.todo <= t.phase.seen)
      && (forall r :: r in t.phase.seen && (t.phase.Deleting? ==> r !in t.phase.todo) ==>
            r in Removed(t) || r !in s.rows)
      && Inserted(t) <= |t.payload|
      && (forall r :: r in s.rows && r.position < Inserted(t) ==> r in Removed(t))
  }

  ghost predicate Apart(s: State, t: Tx, u: Tx)
    requires t in s.txns && u in s.txns
  {
    Removed(s.txns[t]) !! Removed(s.txns[u]) && (Inserted(s.txns[t]) == 0 || Inserted(s.txns[u]) == 0)
  }

  ghost predicate Inv(s: State) {
    && (exists w :: WrittenBy(s, s.rows, w))
    && (forall tx :: tx in s.txns ==> TxnInv(s, tx))
    && (forall t, u :: t in s.txns && u in s.txns && t != u ==> Apart(s, t, u))
  }

  /** A replace past its delete has removed the whole current set, or met none of it. */
  lemma RemovedAllOrNothing(s: State, tx: Tx)
    requires Inv(s) && tx in s.txns && s.txns[tx].phase.Inserting?
    ensures s.txns[tx].phase.removed == s.rows || (s.txns[tx].phase.removed == {} && s.txns[tx].phase.seen !! s.rows)
  {
    var p := s.txns[tx].phase;
    assert TxnInv(s, tx);
    if !(p.seen !! s.rows) {
      var r :| r in p.seen && r in s.rows;
      var w :| WrittenBy(s, p.seen, w);
      var v :| WrittenBy(s, s.rows, v);
      assert w == r.writer == v;
    }
  }

  /** A nonempty set of lines has one at position 0. */
  lemma FirstRow(s: State) returns (r: Row)
    requires Inv(s) && s.rows != {}
    ensures r in s.rows && r.position == 0
  {
    var v :| WrittenBy(s, s.rows, v);
    r := Row(v, 0, s.txns[v].payload[0]);
  }

  /**
   When a commit installs its own payload: always, unless the payload is empty and the
   lines it saw had already been replaced. Otherwise it leaves the committed lines alone.
   */
  lemma CommitInstalls(s: State, tx: Tx)
    requires Inv(s) && Enabled(s, Commit(tx))
    ensures var payload := s.txns[tx].payload; var after := Apply(s, Commit(tx)).rows;
            && (after == RowsOf(tx, payload) <==> payload != [] || s.txns[tx].phase.removed == s.rows)
            && (after == RowsOf(tx, payload) || after == s.rows)
  {
    var t := s.txns[tx];
    RemovedAllOrNothing(s, tx);
    assert TxnInv(s, tx);
    if s.rows != {} { var r := FirstRow(s); }
    if t.payload == [] && t.phase.removed != s.rows {
      assert RowsOf(tx, t.payload) == {};
    }
  }

  /**
   A replace about to insert is answered 409 exactly when it has been overtaken: there are
   lines, and none of those its delete saw is still there. It is so at position 0 only.
   */
  lemma ConflictExactlyWhenOvertaken(s: State, tx: Tx)
    requires Inv(s) && Enabled(s, InsertNext(tx))
    ensures Taken(s, tx, s.txns[tx].phase.inserted) <==>
              s.txns[tx].phase.inserted == 0 && s.rows != {} && s.txns[tx].phase.seen !! s.rows
    ensures s.rows != {} && s.txns[tx].phase.seen !! s.rows ==> s.txns[tx].phase.inserted == 0
  {
    var p := s.txns[tx].phase;
    RemovedAllOrNothing(s, tx);
    assert TxnInv(s, tx);
    if s.rows != {} {
      var r := FirstRow(s);
      if p.seen !! s.rows {
        assert r !in p.removed;
      }
    }
  }

  /** Another replace has inserted at the position, or deleted there, and not ended. */
  ghost predicate Holding(t: Txn, position: nat) {
    match t.phase
    case Deleting(_, _, removed) => exists r :: r in removed && r.position == position
    case Inserting(_, removed, inserted) => position < inserted || exists r :: r in removed && r.position == position
    case _ => false
  }

  /** An insert is held up exactly while another replace holds its position, which that one's end frees. */
  lemma InsertWaitsIff(s: State, tx: Tx)
    requires tx in s.txns && s.txns[tx].phase.Inserting? && s.txns[tx].phase.inserted < |s.txns[tx].payload|
    ensures Exec(s, InsertNext(tx)) == s <==>
              exists u :: u in s.txns && u != tx && Holding(s.txns[u], s.txns[tx].phase.inserted)
    ensures forall u :: u in s.txns && Active(s.txns[u]) ==>
              !Holding(Exec(s, Abort(u)).txns[u], s.txns[tx].phase.inserted)
  {
    var k := s.txns[tx].phase.inserted;
    assert forall u :: u in s.txns ==>
        (Holding(s.txns[u], k) <==>
           k < Inserted(s.txns[u]) || exists r :: r in Removed(s.txns[u]) && r.position == k);
    assert Enabled(s, InsertNext(tx)) ==> Exec(s, InsertNext(tx)).txns[tx] != s.txns[tx];
  }

  // ---------------------------------------------------------------- every step keeps it

  /** The rows a transaction saw stay the rows of one committed replace. */
  lemma SeenStays(s: State, n: State, u: Tx)
    requires u in s.txns && u in n.txns && TxnInv(s, u)
    requires s.txns[u] == n.txns[u] && (s.txns[u].phase.Deleting? || s.txns[u].phase.Inserting?)
    requires forall w :: w in s.txns && s.txns[w].phase.Committed? ==> w in n.txns && n.txns[w] == s.txns[w]
    ensures exists w :: WrittenBy(n, n.txns[u].phase.seen, w)
  {
    var w :| WrittenBy(s, s.txns[u].phase.seen, w);
    assert WrittenBy(n, n.txns[u].phase.seen, w);
  }

  /** A commit leaves every other transaction's part of the invariant standing. */
  lemma CommitLeavesOther(s: State, tx: Tx, u: Tx)
    requires Inv(s) && Enabled(s, Commit(tx)) && u in s.txns && u != tx
    ensures TxnInv(Apply(s, Commit(tx)), u)
  {
    var n := Apply(s, Commit(tx));
    var p := s.txns[u].phase;
    assert TxnInv(s, u) && TxnInv(s, tx) && Apart(s, tx, u);
    if p.Deleting? || p.Inserting? {
      SeenStays(s, n, u);
      var w :| WrittenBy(s, p.seen, w);
      forall r | r in p.seen && r in n.rows ensures r in s.rows {
        assert r.writer == w != tx;
      }
      if Inserted(s.txns[u]) > 0 {
        assert RowsOf(tx, s.txns[tx].payload) == {};
      }
    }
  }

  lemma CommitKeeps(s: State, tx: Tx)
    requires Inv(s) && Enabled(s, Commit(tx))
    ensures Inv(Apply(s, Commit(tx)))
  {
    var n := Apply(s, Commit(tx));
    CommitInstalls(s, tx);
    var v :| WrittenBy(s, s.rows, v);
    if n.rows == RowsOf(tx, s.txns[tx].payload) {
      assert WrittenBy(n, n.rows, tx);
    } else {
      assert WrittenBy(n, n.rows, v);
    }
    forall u | u in n.txns && u != tx ensures TxnInv(n, u) {
      CommitLeavesOther(s, tx, u);
    }
    forall t, u | t in n.txns && u in n.txns && t != u ensures Apart(n, t, u) {
      assert Apart(s, t, u);
    }
  }

  /** A step that only moves one transaction's phase, keeping its own part and its distance. */
  lemma QuietKeeps(s: State, tx: Tx, phase: Phase)
    requires Inv(s) && tx in s.txns && Active(s.txns[tx]) && !phase.Committed?
    requires TxnInv(Become(s, tx, phase), tx)
    requires forall u :: u in s.txns && u != tx ==> Apart(Become(s, tx, phase), tx, u)
    ensures Inv(Become(s, tx, phase))
  {
    var n := Become(s, tx, phase);
    var v :| WrittenBy(s, s.rows, v);
    assert WrittenBy(n, n.rows, v);
    forall u | u in n.txns && u != tx ensures TxnInv(n, u) {
      assert TxnInv(s, u);
      if s.txns[u].phase.Deleting? || s.txns[u].phase.Inserting? { SeenStays(s, n, u); }
    }
    forall t, u | t in n.txns && u in n.txns && t != u ensures Apart(n, t, u) {
      if t != tx && u != tx { assert Apart(s, t, u); }
      if u == tx { assert Apart(n, tx, t); }
    }
  }

  lemma BeginKeeps(s: State, tx: Tx, payload: seq<Line>)
    requires Inv(s) && tx !in s.txns
    ensures Inv(Apply(s, Begin(tx, payload)))
  {
    var n := Apply(s, Begin(tx, payload));
    var v :| WrittenBy(s, s.rows, v);
    assert WrittenBy(n, n.rows, v);
    forall u | u in s.txns ensures TxnInv(n, u) {
      assert TxnInv(s, u);
      if s.txns[u].phase.Deleting? || s.txns[u].phase.Inserting? { SeenStays(s, n, u); }
    }
    forall t, u | t in n.txns && u in n.txns && t != u ensures Apart(n, t, u) {
      if t != tx && u != tx { assert Apart(s, t, u); }
    }
  }

  /** The moving transaction's own part, for the steps that commit nothing. */
  lemma OwnPartKept(s: State, a: Action)
    requires Inv(s) && Enabled(s, a) && !a.Begin? && !a.Commit?
    ensures TxnInv(Apply(s, a), a.tx)
  {
    var n := Apply(s, a);
    assert TxnInv(s, a.tx);
    if a.Snapshot? {
      var v :| WrittenBy(s, s.rows, v);
      assert WrittenBy(n, s.rows, v);
    } else if n.txns[a.tx].phase.Deleting? || n.txns[a.tx].phase.Inserting? {
      var w :| WrittenBy(s, s.txns[a.tx].phase.seen, w);
      assert WrittenBy(n, n.txns[a.tx].phase.seen, w);
    }
  }

  lemma StepKeeps(s: State, a: Action)
    requires Inv(s)
    ensures Inv(Exec(s, a))
  {
    if Enabled(s, a) {
      match a {
        case Commit(tx) => CommitKeeps(s, tx);
        case Begin(tx, payload) => BeginKeeps(s, tx, payload);
        case _ =>
          OwnPartKept(s, a);
          forall u | u in s.txns && u != a.tx ensures Apart(Apply(s, a), a.tx, u) {
            assert Apart(s, a.tx, u);
          }
          QuietKeeps(s, a.tx, Apply(s, a).txns[a.tx].phase);
      }
    }
  }

  lemma {:induction false} RunKeeps(s: State, schedule: seq<Action>)
    requires Inv(s)
    ensures Inv(Run(s, schedule))
  {
    if schedule != [] {
      RunKeeps(s, schedule[..|schedule| - 1]);
      StepKeeps(Run(s, schedule[..|schedule| - 1]), schedule[|schedule| - 1]);
    }
  }

  lemma InitInv(lines: seq<Line>)
    ensures Inv(Init(lines))
  {
    assert WrittenBy(Init(lines), Init(lines).rows, 0);
  }

  lemma {:induction false} EndedStays(s: State, tx: Tx, schedule: seq<Action>)
    requires tx in s.txns && (s.txns[tx].phase == Committed || s.txns[tx].phase == Aborted)
    ensures tx in Run(s, schedule).txns && Run(s, schedule).txns[tx] == s.txns[tx]
  {
    if schedule != [] {
      EndedStays(s, tx, schedule[..|schedule| - 1]);
    }
  }

  /** An overtaken replace, at its first insert, and one that is abandoned, end there for good and leave no line. */
  lemma RefusedLeavesNothing(s: State, tx: Tx, schedule: seq<Action>)
    requires Inv(s) && tx in s.txns
    ensures Enabled(s, InsertNext(tx)) && s.rows != {} && s.txns[tx].phase.seen !! s.rows ==>
              var n := Exec(s, InsertNext(tx));
              && n.rows == s.rows && tx in Run(n, schedule).txns
              && Run(n, schedule).txns[tx] == Txn(s.txns[tx].payload, Aborted)
    ensures Active(s.txns[tx]) ==>
              var n := Exec(s, Abort(tx));
              && n.rows == s.rows && tx in Run(n, schedule).txns
              && Run(n, schedule).txns[tx] == Txn(s.txns[tx].payload, Aborted)
  {
    if Enabled(s, InsertNext(tx)) && s.rows != {} && s.txns[tx].phase.seen !! s.rows {
      ConflictExactlyWhenOvertaken(s, tx);
      EndedStays(Exec(s, InsertNext(tx)), tx, schedule);
    }
    if Active(s.txns[tx]) {
      EndedStays(Exec(s, Abort(tx)), tx, schedule);
    }
  }

  // ---------------------------------------------------------------- what a reader sees

  ghost predicate Filled(rows: set<Row>, position: nat) {
    exists r :: r in rows && r.position == position
  }

  /** Ordered by position, `rows` read back as exactly `lines`. */
  ghost predicate ReadsAs(rows: set<Row>, lines: seq<Line>) {
    && |rows| == |lines|
    && (forall r :: r in rows ==> r.position < |lines| && r.line == lines[r.position])
    && (forall k :: 0 <= k < |lines| ==> Filled(rows, k))
  }

  lemma {:induction false} RowsOfCount(tx: Tx, payload: seq<Line>)
    ensures |RowsOf(tx, payload)| == |payload|
  {
    if payload != [] {
      var m := |payload| - 1;
      RowsOfCount(tx, payload[..m]);
      assert RowsOf(tx, payload) == RowsOf(tx, payload[..m]) + {Row(tx, m, payload[m])};
    }
  }

  /** The estimate shows replace `w`: it committed, and reading gives its payload in order. */
  ghost predicate Shows(s: State, w: Tx) {
    WrittenBy(s, s.rows, w) && ReadsAs(s.rows, s.txns[w].payload)
  }

  /**
   In every interleaving of any number of replaces, the committed lines are exactly the
   payload of ONE replace that committed, in the order it sent them: never a union of two.
   */
  lemma NeverAUnion(lines: seq<Line>, schedule: seq<Action>)
    ensures exists w :: Shows(Run(Init(lines), schedule), w)
  {
    InitInv(lines);
    RunKeeps(Init(lines), schedule);
    var s := Run(Init(lines), schedule);
    var w :| WrittenBy(s, s.rows, w);
    var payload := s.txns[w].payload;
    RowsOfCount(w, payload);
    forall k | 0 <= k < |payload| ensures Filled(s.rows, k) {
      assert Row(w, k, payload[k]) in s.rows;
    }
    assert Shows(s, w);
  }

  // ---------------------------------------------------------------- a replace with nothing beside it

  lemma RunTwo(s: State, a: Action, b: Action)
    ensures Run(s, [a, b]) == Exec(Exec(s, a), b)
  {
    assert [a, b][..1] == [a];
    assert Run(s, [a][..0]) == s;
  }

  lemma RunSnoc(s: State, schedule: seq<Action>, a: Action)
    ensures Run(s, schedule + [a]) == Exec(Run(s, schedule), a)
  {
    assert (schedule + [a])[..|schedule|] == schedule;
  }

  /** Only replace `tx` has begun and not ended. */
  ghost predicate Alone(s: State, tx: Tx) {
    forall u :: u in s.txns && u != tx ==> s.txns[u].phase.Committed? || s.txns[u].phase.Aborted?
  }

  function At(s: State, tx: Tx, payload: seq<Line>, phase: Phase): State {
    s.(txns := s.txns[tx := Txn(payload, phase)])
  }

  lemma LockAlone(s: State, tx: Tx, payload: seq<Line>, todo: set<Row>, row: Row)
    requires Alone(s, tx) && row in todo && todo <= s.rows
    ensures Exec(At(s, tx, payload, Deleting(s.rows, todo, s.rows - todo)), LockRow(tx, row))
         == At(s, tx, payload, Deleting(s.rows, todo - {row}, s.rows - (todo - {row})))
  {
    assert s.rows - (todo - {row}) == s.rows - todo + {row};
  }

  lemma InsertAlone(s: State, tx: Tx, payload: seq<Line>, k: nat)
    requires Alone(s, tx) && k < |payload|
    ensures Exec(At(s, tx, payload, Inserting(s.rows, s.rows, k)), InsertNext(tx))
         == At(s, tx, payload, Inserting(s.rows, s.rows, k + 1))
  {
    assert !WriteInFlight(At(s, tx, payload, Inserting(s.rows, s.rows, k)), tx, k);
  }

  /** Up to its first insert, it has removed every line. */
  lemma DeleteAlone(s: State, tx: Tx, payload: seq<Line>) returns (schedule: seq<Action>)
    requires tx !in s.txns && Alone(s, tx)
    ensures Run(s, schedule) == At(s, tx, payload, Inserting(s.rows, s.rows, 0))
  {
    RunTwo(s, Begin(tx, payload), Snapshot(tx));
    schedule := [Begin(tx, payload), Snapshot(tx)];
    assert Exec(s, Begin(tx, payload)) == At(s, tx, payload, Begun);
    assert s.rows - s.rows == {};
    var todo := s.rows;
    while todo != {}
      invariant todo <= s.rows
      invariant Run(s, schedule) == At(s, tx, payload, Deleting(s.rows, todo, s.rows - todo))
      decreases todo
    {
      var row :| row in todo;
      LockAlone(s, tx, payload, todo, row);
      RunSnoc(s, schedule, LockRow(tx, row));
      schedule := schedule + [LockRow(tx, row)];
      todo := todo - {row};
    }
    assert s.rows - {} == s.rows;
    RunSnoc(s, schedule, EndDelete(tx));
    schedule := schedule + [EndDelete(tx)];
  }

  /** With no other replace under way, one goes through, and the estimate has its lines and no others. */
  lemma AloneInstalls(s: State, tx: Tx, payload: seq<Line>) returns (schedule: seq<Action>)
    requires tx !in s.txns && Alone(s, tx)
    ensures Run(s, schedule) == At(s, tx, payload, Committed).(rows := RowsOf(tx, payload))
  {
    schedule := DeleteAlone(s, tx, payload);
    for k := 0 to |payload|
      invariant Run(s, schedule) == At(s, tx, payload, Inserting(s.rows, s.rows, k))
    {
      InsertAlone(s, tx, payload, k);
      RunSnoc(s, schedule, InsertNext(tx));
      schedule := schedule + [InsertNext(tx)];
    }
    RunSnoc(s, schedule, Commit(tx));
    schedule := schedule + [Commit(tx)];
    assert s.rows - s.rows + RowsOf(tx, payload) == RowsOf(tx, payload);
  }

  /** A schedule split at any point. */
  lemma {:induction false} RunConcat(s: State, p: seq<Action>, q: seq<Action>)
    ensures Run(s, p + q) == Run(Run(s, p), q)
  {
    if q == [] {
      assert p + q == p;
    } else {
      var m := |q| - 1;
      RunConcat(s, p, q[..m]);
      assert (p + q)[..|p| + m] == p + q[..m];
    }
  }

  /** The five stages of the run below. */
  function LostStage(k: nat, line: Line): State
    requires k < 5
  {
    var zero := Txn([], Committed);
    match k
    case 0 => State({}, map[0 := zero])
    case 1 => State({}, map[0 := zero, 1 := Txn([line], Begun), 2 := Txn([], Begun)])
    case 2 => State({}, map[0 := zero, 1 := Txn([line], Deleting({}, {}, {})), 2 := Txn([], Deleting({}, {}, {}))])
    case 3 => State({}, map[0 := zero, 1 := Txn([line], Inserting({}, {}, 0)), 2 := Txn([], Inserting({}, {}, 0))])
    case 4 => State({Row(1, 0, line)}, map[0 := zero, 1 := Txn([line], Committed), 2 := Txn([], Inserting({}, {}, 0))])
  }

  function LostMoves(k: nat, line: Line): seq<Action>
    requires k < 4
  {
    match k
    case 0 => [Begin(1, [line]), Begin(2, [])]
    case 1 => [Snapshot(1), Snapshot(2)]
    case 2 => [EndDelete(1), EndDelete(2)]
    case 3 => [InsertNext(1), Commit(1)]
  }

  lemma LostStageSteps(k: nat, line: Line)
    requires k < 4
    ensures Run(LostStage(k, line), LostMoves(k, line)) == LostStage(k + 1, line)
  {
    var s, p := LostStage(k, line), LostMoves(k, line);
    RunTwo(s, p[0], p[1]);
    match k
    case 0 =>
      assert Exec(s, p[0]) == s.(txns := s.txns[1 := Txn([line], Begun)]);
    case 1 =>
      assert Exec(s, p[0]) == s.(txns := s.txns[1 := Txn([line], Deleting({}, {}, {}))]);
    case 2 =>
      assert Exec(s, p[0]) == s.(txns := s.txns[1 := Txn([line], Inserting({}, {}, 0))]);
    case 3 => LostInsert(line);
  }

  lemma LostInsert(line: Line)
    ensures Exec(Exec(LostStage(3, line), InsertNext(1)), Commit(1)) == LostStage(4, line)
  {
    var s := LostStage(3, line);
    assert Exec(s, InsertNext(1)) == s.(txns := s.txns[1 := Txn([line], Inserting({}, {}, 1))]);
    assert RowsOf(1, [line]) == {Row(1, 0, line)} by { assert Row(1, 0, [line][0]) in RowsOf(1, [line]); }
  }

  /**
   A replace with no lines can answer 200 and yet leave another writer's lines in place:
   it looked before they committed and has no row at position 0 to collide with theirs.
   Transaction 2 sends nothing, transaction 1 one line, to an estimate without lines.
   */
  lemma EmptyReplaceCanBeLost(line: Line)
    ensures exists schedule ::
              var s := Run(Init([]), schedule);
              2 in s.txns && s.txns[2] == Txn([], Committed) && s.rows == {Row(1, 0, line)}
  {
    var s0 := Init([]);
    assert s0 == LostStage(0, line) by { assert RowsOf(0, []) == {}; }
    var plan: seq<Action> := [];
    for k := 0 to 4
      invariant Run(s0, plan) == LostStage(k, line)
    {
      LostStageSteps(k, line);
      RunConcat(s0, plan, LostMoves(k, line));
      plan := plan + LostMoves(k, line);
    }
    var full := plan + [Commit(2)];
    assert full[..|plan|] == plan;
    assert Run(s0, full) == Exec(LostStage(4, line), Commit(2));
    assert RowsOf(2, []) == {};
  }
}
