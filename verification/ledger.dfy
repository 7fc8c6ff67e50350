/**
 Payments, voids and sends against one bill or invoice.

 `Document` is the handler code run alone. The rest is the protocol: each request is a
 transaction that reads the row without a lock, takes the row lock, checks, writes and
 commits, and any number of them interleave. An action that must wait for the row lock
 changes nothing. Amounts are cents.
 */
module Ledger {
  import opened Wrappers
  import opened Money

  datatype Kind = Bill | Invoice

  type Day = nat

  /** `Unpaid` is a bill's open status; `Draft` and `Sent` are an invoice's. */
  datatype Status = Draft | Unpaid | Sent | Overdue | Paid | Void

  datatype Doc = Doc(kind: Kind, amount: int, status: Status, payments: seq<int>, due: Option<Day>)

  /** `Sweep` is the nightly overdue flagging. */
  datatype Op = Pay(raw: real) | VoidIt | Send(due: Option<Day>) | Sweep(today: Day)

  /** Refusals: 409, and 422 for a send without any due date. */
  datatype Refusal = Conflict | DueDateMissing

  function Sum(payments: seq<int>): int {
    if payments == [] then 0 else Sum(payments[..|payments| - 1]) + payments[|payments| - 1]
  }

  predicate Payable(kind: Kind, status: Status) {
    !(status == Void || status == Paid || (kind == Invoice && status == Draft))
  }

  predicate Voidable(status: Status) {
    status != Paid && status != Void
  }

  /** Settled: at least one payment, and together they reach the amount. */
  predicate Settled(d: Doc) {
    d.payments != [] && Sum(d.payments) == d.amount
  }

  function WithPayment(d: Doc, cents: int): Doc {
    var payments := d.payments + [cents];
    d.(payments := payments, status := if Sum(payments) >= d.amount then Paid else d.status)
  }

  /** The due date of the request, or else the one already there. */
  function Either(given: Option<Day>, there: Option<Day>): Option<Day> {
    if given.Some? then given else there
  }

  /** A whole handler run with nothing beside it. */
  function Atomic(d: Doc, op: Op): Result<Doc, Refusal> {
    match op
    case Pay(raw) =>
      if Payable(d.kind, d.status) && HalfUp(raw) <= d.amount - Sum(d.payments)
      then Ok(WithPayment(d, HalfUp(raw))) else Err(Conflict)
    case VoidIt => if Voidable(d.status) then Ok(d.(status := Void)) else Err(Conflict)
    case Send(due) =>
      if d.status != Draft then Err(Conflict)
      else if Either(due, d.due).None? then Err(DueDateMissing)
      else Ok(d.(status := Sent, due := Either(due, d.due)))
    case Sweep(today) =>
      Ok(if (d.status == Unpaid || d.status == Sent) && d.due.Some? && d.due.value < today
         then d.(status := Overdue) else d)
  }

  lemma SumAppend(payments: seq<int>, cents: int)
    ensures Sum(payments + [cents]) == Sum(payments) + cents
  {
    assert (payments + [cents])[..|payments|] == payments;
  }

  /**
   A payment is refused on a draft, paid or void invoice, on a paid or void bill, and where the
   nearest cents of what is sent exceed what is left; else those cents are the last payment,
   and the document is paid exactly when nothing is left.
   */
  lemma PaymentAccepted(d: Doc, raw: real, cents: int)
    requires IsHalfUp(raw, cents)
    ensures var outcome := Atomic(d, Pay(raw));
            var refused := match d.kind
                           case Invoice => d.status == Draft || d.status == Paid || d.status == Void
                           case Bill => d.status == Paid || d.status == Void;
            && (outcome.Err? <==> refused || Sum(d.payments) + cents > d.amount)
            && (outcome.Err? ==> outcome.error == Conflict)
            && (outcome.Ok? ==>
                  && outcome.value.payments == d.payments + [cents] && outcome.value.amount == d.amount
                  && outcome.value.kind == d.kind && outcome.value.due == d.due
                  && outcome.value.status == if Sum(d.payments) + cents == d.amount then Paid else d.status)
  {
    HalfUpExact(raw, cents);
    SumAppend(d.payments, cents);
  }

  /** Void is refused on a paid or void document alone, and moves no money. */
  lemma VoidAccepted(d: Doc)
    ensures Atomic(d, VoidIt) ==
              match d.status
              case Paid | Void => Err(Conflict)
              case Draft | Unpaid | Sent | Overdue => Ok(Doc(d.kind, d.amount, Void, d.payments, d.due))
  {
  }

  /** A draft alone is sent, with the due date given, else the one stored; without either, 422. */
  lemma SendAccepted(d: Doc, given: Option<Day>)
    ensures d.status == Draft && given.Some? ==>
              Atomic(d, Send(given)) == Ok(Doc(d.kind, d.amount, Sent, d.payments, given))
    ensures d.status == Draft && given.None? ==>
              Atomic(d, Send(given)) == match d.due
                                        case Some(_) => Ok(Doc(d.kind, d.amount, Sent, d.payments, d.due))
                                        case None => Err(DueDateMissing)
    ensures d.status != Draft ==> Atomic(d, Send(given)) == Err(Conflict)
  {
  }

  /** The sweep flags what is open, unpaid and due before today, and nothing else. */
  lemma SweepFlags(d: Doc, today: Day)
    ensures var open := match d.status case Unpaid | Sent => true case Draft | Overdue | Paid | Void => false;
            Atomic(d, Sweep(today)) == Ok(Doc(d.kind, d.amount,
              if open && exists day :: d.due == Some(day) && day < today then Overdue else d.status,
              d.payments, d.due))
  {
  }

  /** The row and the handlers that change it. */
  class Document {
    const kind: Kind
    const amount: int
    var status: Status
    var payments: seq<int>
    var due: Option<Day>

    /** A document as its create route stores it: the amount rounded, nothing paid. */
    constructor (kind: Kind, rawAmount: real, due: Option<Day>)
      ensures View() == NewDoc(kind, rawAmount, due)
    {
      this.kind := kind;
      this.amount := HalfUp(rawAmount);
      this.status := if kind == Bill then Unpaid else Draft;
      this.payments := [];
      this.due := due;
    }

    function View(): Doc
      reads this
    {
      Doc(kind, amount, status, payments, due)
    }

    /** `SELECT coalesce(sum(amount), 0)` over this document's payments. */
    method PaidAmount() returns (paid: int)
      ensures paid == Sum(payments)
    {
      paid := 0;
      for i := 0 to |payments|
        invariant paid == Sum(payments[..i])
      {
        assert payments[..i + 1][..i] == payments[..i];
        paid := paid + payments[i];
      }
      assert payments[..|payments|] == payments;
    }

    /** The body of the payment handlers, from the locked read on. */
    method RecordPayment(raw: real) returns (refused: Option<Refusal>)
      modifies this
      ensures Answers(Atomic(old(View()), Pay(raw)), old(View()), View(), refused)
    {
      if status == Void || status == Paid || (kind == Invoice && status == Draft) {
        return Some(Conflict);
      }
      var cents := HalfUp(raw);
      var alreadyPaid := PaidAmount();
      if cents > amount - alreadyPaid {
        return Some(Conflict);
      }
      payments := payments + [cents];
      var paid := PaidAmount();
      if paid >= amount {
        status := Paid;
      }
      return None;
    }

    method VoidDocument() returns (refused: Option<Refusal>)
      modifies this
      ensures Answers(Atomic(old(View()), VoidIt), old(View()), View(), refused)
    {
      if status == Paid || status == Void {
        return Some(Conflict);
      }
      status := Void;
      return None;
    }

    method SendInvoice(given: Option<Day>) returns (refused: Option<Refusal>)
      modifies this
      ensures Answers(Atomic(old(View()), Send(given)), old(View()), View(), refused)
    {
      if status != Draft {
        return Some(Conflict);
      }
      var dueDate := if given.Some? then given else due;
      if dueDate.None? {
        return Some(DueDateMissing);
      }
      status := Sent;
      due := dueDate;
      return None;
    }
  }

  /** The outcome of a handler, as the document it leaves and the refusal it answers. */
  predicate Answers(outcome: Result<Doc, Refusal>, before: Doc, after: Doc, refused: Option<Refusal>) {
    match outcome
    case Ok(d) => after == d && refused == None
    case Err(e) => after == before && refused == Some(e)
  }

  function NewDoc(kind: Kind, rawAmount: real, due: Option<Day>): Doc {
    Doc(kind, HalfUp(rawAmount), if kind == Bill then Unpaid else Draft, [], due)
  }

  /** A new bill takes payments up to its amount at once; a new invoice is a draft that has to be sent first. */
  lemma FreshDocument(rawAmount: real, due: Option<Day>, raw: real, cents: int)
    requires IsHalfUp(raw, cents)
    ensures var bill := NewDoc(Bill, rawAmount, due);
            && bill.status == Unpaid && bill.payments == [] && bill.due == due && IsHalfUp(rawAmount, bill.amount)
            && (Atomic(bill, Pay(raw)).Ok? <==> cents <= bill.amount)
    ensures var invoice := NewDoc(Invoice, rawAmount, due);
            && invoice.status == Draft && invoice.payments == [] && IsHalfUp(rawAmount, invoice.amount)
            && Atomic(invoice, Pay(raw)) == Err(Conflict)
            && (due.Some? ==>
                  && Atomic(invoice, Send(None)).Ok?
                  && (Atomic(Atomic(invoice, Send(None)).value, Pay(raw)).Ok? <==> cents <= invoice.amount))
  {
    NearestCents(rawAmount);
    PaymentAccepted(NewDoc(Bill, rawAmount, due), raw, cents);
    PaymentAccepted(NewDoc(Invoice, rawAmount, due), raw, cents);
    SendAccepted(NewDoc(Invoice, rawAmount, due), None);
    if due.Some? {
      PaymentAccepted(Atomic(NewDoc(Invoice, rawAmount, due), Send(None)).value, raw, cents);
    }
  }

  lemma NearestCents(raw: real)
    ensures IsHalfUp(raw, HalfUp(raw))
  {
    HalfUpExact(raw, HalfUp(raw));
  }

  // ---------------------------------------------------------------- the protocol

  type Tx = nat

  datatype Phase =
    | Fetched(seen: Status)                                  // read without the lock
    | Locked(seen: Status)                                   // holds the row lock
    | Cleared(seen: Status)                                  // every guard passed
    | Written(payment: Option<int>, status: Option<Status>)  // flushed, not committed
    | Done

  /** `loaded` is the due date of the unlocked read. */
  datatype Req = Req(op: Op, loaded: Option<Day>, phase: Phase)

  /**
   `log` records what took effect, in commit order. `rereads` says whether the locked
   SELECT overwrites the status the session had already loaded.
   */
  datatype State = State(doc: Doc, lock: Option<Tx>, reqs: map<Tx, Req>, log: seq<Op>, rereads: bool)

  datatype Action =
    | Start(tx: Tx, op: Op)
    | Lock(tx: Tx)
    | Check(tx: Tx)
    | Write(tx: Tx)
    | Commit(tx: Tx)
    | Abort(tx: Tx)
    | SweepAll(today: Day)

  predicate Holds(phase: Phase) {
    phase.Locked? || phase.Cleared? || phase.Written?
  }

  predicate Enabled(s: State, a: Action) {
    match a
    case Start(tx, op) =>
      tx !in s.reqs && !op.Sweep? && (op.Pay? ==> op.raw > 0.0) && (op.Send? ==> s.doc.kind == Invoice)
    case SweepAll(_) => s.lock == None
    case _ =>
      a.tx in s.reqs && var phase := s.reqs[a.tx].phase;
      match a
      case Lock(_) => phase.Fetched? && s.lock == None
      case Check(_) => phase.Locked?
      case Write(_) => phase.Cleared?
      case Commit(_) => phase.Written?
      case _ => phase != Done
  }

  function Become(s: State, tx: Tx, phase: Phase): State
    requires tx in s.reqs
  {
    s.(reqs := s.reqs[tx := s.reqs[tx].(phase := phase)])
  }

  /** Rolled back or refused: the lock, if held, is released. */
  function Drop(s: State, tx: Tx): State
    requires tx in s.reqs
  {
    Become(s, tx, Done).(lock := if s.lock == Some(tx) then None else s.lock)
  }

  /** The handler's guards, on the status it sees and the payments committed by now. */
  predicate Guard(d: Doc, r: Req, seen: Status) {
    match r.op
    case Pay(raw) => Payable(d.kind, seen) && HalfUp(raw) <= d.amount - Sum(d.payments)
    case VoidIt => Voidable(seen)
    case Send(due) => seen == Draft && Either(due, r.loaded).Some?
    case _ => true
  }

  function Flush(d: Doc, op: Op): Phase {
    match op
    case Pay(raw) =>
      var cents := HalfUp(raw);
      Written(Some(cents), if Sum(d.payments + [cents]) >= d.amount then Some(Paid) else None)
    case VoidIt => Written(None, Some(Void))
    case _ => Written(None, Some(Sent))
  }

  /** What a request sees of the status once it has the lock. */
  function Sees(s: State, r: Req): Status
    requires r.phase.Fetched?
  {
    if s.rereads && !r.op.Send? then s.doc.status else r.phase.seen
  }

  /** A send's UPDATE names the due date only where it differs from the one loaded. */
  function DueAfter(d: Doc, r: Req): Option<Day> {
    if r.op.Send? && Either(r.op.due, r.loaded) != r.loaded then Either(r.op.due, r.loaded) else d.due
  }

  function Apply(s: State, a: Action): State
    requires Enabled(s, a)
  {
    match a
    case Start(tx, op) => s.(reqs := s.reqs[tx := Req(op, s.doc.due, Fetched(s.doc.status))])
    case Lock(tx) =>
      var r := s.reqs[tx];
      // A send decides on its unlocked read; its UPDATE is what takes the lock.
      if r.op.Send? && !Guard(s.doc, r, r.phase.seen) then Drop(s, tx)
      else Become(s, tx, Locked(Sees(s, r))).(lock := Some(tx))
    case Check(tx) =>
      var r := s.reqs[tx];
      if Guard(s.doc, r, r.phase.seen) then Become(s, tx, Cleared(r.phase.seen)) else Drop(s, tx)
    case Write(tx) => Become(s, tx, Flush(s.doc, s.reqs[tx].op))
    case Commit(tx) =>
      var r := s.reqs[tx];
      var payments := s.doc.payments + if r.phase.payment.Some? then [r.phase.payment.value] else [];
      var status := if r.phase.status.Some? then r.phase.status.value else s.doc.status;
      Drop(s, tx).(doc := s.doc.(payments := payments, status := status, due := DueAfter(s.doc, r)),
                   log := s.log + [r.op])
    case Abort(tx) => Drop(s, tx)
    case SweepAll(today) => s.(doc := Atomic(s.doc, Sweep(today)).value, log := s.log + [Sweep(today)])
  }

  function Exec(s: State, a: Action): State {
    if Enabled(s, a) then Apply(s, a) else s
  }

  function Run(s: State, schedule: seq<Action>): State {
    if schedule == [] then s else Exec(Run(s, schedule[..|schedule| - 1]), schedule[|schedule| - 1])
  }

  function Init(kind: Kind, rawAmount: real, due: Option<Day>, rereads: bool): State {
    State(NewDoc(kind, rawAmount, due), None, map[], [], rereads)
  }

  // ---------------------------------------------------------------- never overpaid

  /** One holder of the row lock; what it is about to add still fits. */
  ghost predicate Inv(s: State) {
    && 0 <= Sum(s.doc.payments) <= s.doc.amount
    && (s.lock.Some? ==> s.lock.value in s.reqs)
    && (forall t :: t in s.reqs ==> (Holds(s.reqs[t].phase) <==> s.lock == Some(t)))
    && (forall t :: t in s.reqs ==> Fits(s.doc, s.reqs[t]))
  }

  predicate Fits(d: Doc, r: Req) {
    && !r.op.Sweep?
    && (r.op.Pay? ==> r.op.raw > 0.0)
    && (r.phase.Cleared? && r.op.Pay? ==> HalfUp(r.op.raw) <= d.amount - Sum(d.payments))
    && (r.phase.Written? ==> r.phase == Flush(d, r.op))
    && (r.phase.Written? && r.op.Pay? ==> HalfUp(r.op.raw) <= d.amount - Sum(d.payments))
    && (r.phase.Locked? && r.op.Send? ==> Guard(d, r, r.phase.seen))
    && (r.op.Send? && Holds(r.phase) ==> Either(r.op.due, r.loaded).Some?)
    && (d.status == Draft ==> r.loaded == d.due)
  }

  lemma OwnStepKeeps(s: State, a: Action)
    requires Inv(s) && Enabled(s, a) && !a.Commit? && !a.SweepAll?
    ensures Inv(Apply(s, a))
  {
    var n := Apply(s, a);
    assert n.doc == s.doc;
    forall t | t in n.reqs ensures (Holds(n.reqs[t].phase) <==> n.lock == Some(t)) && Fits(n.doc, n.reqs[t]) {
      if t in s.reqs {
        assert Fits(s.doc, s.reqs[t]) && (Holds(s.reqs[t].phase) <==> s.lock == Some(t));
      }
    }
  }

  /** What a request is about to add fits; so the sum with it is in bounds. */
  lemma CommitFits(s: State, r: Req)
    requires Inv(s) && Fits(s.doc, r) && r.phase.Written?
    ensures var d := s.doc.payments + if r.phase.payment.Some? then [r.phase.payment.value] else [];
            0 <= Sum(d) <= s.doc.amount
  {
    if r.op.Pay? {
      SumAppend(s.doc.payments, HalfUp(r.op.raw));
      HalfUpExact(r.op.raw, HalfUp(r.op.raw));
    } else {
      assert s.doc.payments + [] == s.doc.payments;
    }
  }

  lemma CommitKeeps(s: State, tx: Tx)
    requires Inv(s) && Enabled(s, Commit(tx))
    ensures Inv(Apply(s, Commit(tx)))
  {
    var n := Apply(s, Commit(tx));
    assert Fits(s.doc, s.reqs[tx]) && s.lock == Some(tx);
    CommitFits(s, s.reqs[tx]);
    forall t | t in n.reqs ensures !Holds(n.reqs[t].phase) && Fits(n.doc, n.reqs[t]) {
      assert Fits(s.doc, s.reqs[t]) && (Holds(s.reqs[t].phase) <==> s.lock == Some(t));
    }
  }

  lemma SweepKeeps(s: State, today: Day)
    requires Inv(s) && Enabled(s, SweepAll(today))
    ensures Inv(Apply(s, SweepAll(today)))
  {
    var n := Apply(s, SweepAll(today));
    forall t | t in n.reqs ensures !Holds(n.reqs[t].phase) && Fits(n.doc, n.reqs[t]) {
      assert Fits(s.doc, s.reqs[t]) && !Holds(s.reqs[t].phase);
    }
  }

  lemma StepKeeps(s: State, a: Action)
    requires Inv(s)
    ensures Inv(Exec(s, a))
  {
    if Enabled(s, a) {
      match a
      case Commit(tx) => CommitKeeps(s, tx);
      case SweepAll(today) => SweepKeeps(s, today);
      case _ => OwnStepKeeps(s, a);
    }
  }

  lemma {:induction false} RunKeeps(s: State, schedule: seq<Action>)
    requires Inv(s)
    ensures Inv(Run(s, schedule))
  {
    if schedule != [] {
      RunKeeps(s, schedule[..|schedule| - 1]);
      StepKeeps(Run(s, schedule[..|schedule| - 1]), schedule[|schedule| - 1]);
    }
  }

  /**
   In every interleaving of any number of payments, voids, sends and sweeps, on a bill or
   an invoice, and whatever the locked re-read returns for the status: what is paid never
   exceeds the amount. The lock and the fresh SUM are enough.
   */
  lemma NeverOverpaid(kind: Kind, rawAmount: real, due: Option<Day>, rereads: bool, schedule: seq<Action>)
    requires rawAmount > 0.0
    ensures var d := Run(Init(kind, rawAmount, due, rereads), schedule).doc;
            0 <= Sum(d.payments) <= d.amount == HalfUp(rawAmount)
  {
    HalfUpExact(rawAmount, HalfUp(rawAmount));
    RunKeeps(Init(kind, rawAmount, due, rereads), schedule);
    AmountFixed(Init(kind, rawAmount, due, rereads), schedule);
  }

  lemma {:induction false} AmountFixed(s: State, schedule: seq<Action>)
    ensures Run(s, schedule).doc.amount == s.doc.amount
    ensures Run(s, schedule).doc.kind == s.doc.kind && Run(s, schedule).rereads == s.rereads
  {
    if schedule != [] {
      AmountFixed(s, schedule[..|schedule| - 1]);
    }
  }

  /** A draft has seen no payment, and everyone under way saw it as a draft. */
  ghost predicate StillDraft(s: State) {
    && s.doc.payments == []
    && forall t :: t in s.reqs ==> DraftSeen(s.reqs[t])
  }

  predicate DraftSeen(r: Req) {
    && (r.phase.Fetched? || r.phase.Locked? || r.phase.Cleared? ==> r.phase.seen == Draft)
    && (r.op.Pay? ==> !r.phase.Cleared? && !r.phase.Written?)
    && !(r.phase.Written? && r.phase.status == Some(Draft))
  }

  lemma CommitLeavesDraft(s: State, tx: Tx)
    requires Inv(s) && Enabled(s, Commit(tx)) && (s.doc.status == Draft ==> StillDraft(s))
    ensures Exec(s, Commit(tx)).doc.status != Draft
  {
    assert Fits(s.doc, s.reqs[tx]) && (s.doc.status == Draft ==> DraftSeen(s.reqs[tx]));
  }

  lemma StepStillDraft(s: State, a: Action)
    requires Inv(s) && s.doc.kind == Invoice && (s.doc.status == Draft ==> StillDraft(s))
    ensures Exec(s, a).doc.status == Draft ==> StillDraft(Exec(s, a))
  {
    var n := Exec(s, a);
    if a.Commit? && Enabled(s, a) {
      CommitLeavesDraft(s, a.tx);
    } else if n.doc.status == Draft && Enabled(s, a) {
      forall t | t in n.reqs ensures DraftSeen(n.reqs[t]) {
        if t in s.reqs {
          assert DraftSeen(s.reqs[t]);
        }
      }
    }
  }

  lemma {:induction false} RunStillDraft(s: State, schedule: seq<Action>)
    requires Inv(s) && s.doc.kind == Invoice && (s.doc.status == Draft ==> StillDraft(s))
    ensures Run(s, schedule).doc.status == Draft ==> StillDraft(Run(s, schedule))
  {
    if schedule != [] {
      var before := schedule[..|schedule| - 1];
      RunStillDraft(s, before);
      RunKeeps(s, before);
      AmountFixed(s, before);
      StepStillDraft(Run(s, before), schedule[|schedule| - 1]);
    }
  }

  /**
   In every interleaving, whatever the locked read returns: an invoice that is still a draft
   has no payments. Nothing is paid before it is sent.
   */
  lemma DraftsAreUnpaid(rawAmount: real, due: Option<Day>, rereads: bool, schedule: seq<Action>)
    requires rawAmount > 0.0
    ensures var d := Run(Init(Invoice, rawAmount, due, rereads), schedule).doc;
            d.status == Draft ==> d.payments == []
  {
    HalfUpExact(rawAmount, HalfUp(rawAmount));
    RunStillDraft(Init(Invoice, rawAmount, due, rereads), schedule);
  }

  // ---------------------------------------------------------------- settled documents

  /** The request would pass its guard on what it sees, and change the document. */
  predicate Passes(d: Doc, r: Req, seen: Status) {
    Guard(d, r, seen) && (r.op.VoidIt? ==> d.status != Void)
  }

  /** Still able to change a settled document. */
  predicate Pending(s: State, r: Req) {
    match r.phase
    case Fetched(_) => Passes(s.doc, r, Sees(s, r))
    case Locked(seen) => Passes(s.doc, r, seen)
    case Done => false
    case _ => !(r.op.VoidIt? && s.doc.status == Void)
  }

  ghost predicate NothingPending(s: State) {
    forall t :: t in s.reqs ==> !Pending(s, s.reqs[t])
  }

  /** With nothing pending no step changes a settled document, and nothing becomes pending. */
  lemma StepFinal(s: State, a: Action)
    requires Inv(s) && NothingPending(s) && !Voidable(s.doc.status)
    ensures var n := Exec(s, a); Inv(n) && NothingPending(n) && n.doc == s.doc
  {
    StepKeeps(s, a);
    if Enabled(s, a) {
      var n := Apply(s, a);
      if a.Commit? {
        assert !Pending(s, s.reqs[a.tx]) && Fits(s.doc, s.reqs[a.tx]);
        assert s.doc.payments + [] == s.doc.payments;
      }
      assert n.doc == s.doc && n.rereads == s.rereads;
      forall t | t in n.reqs ensures !Pending(n, n.reqs[t]) {
        if t in s.reqs {
          assert !Pending(s, s.reqs[t]) && Fits(s.doc, s.reqs[t]);
        }
      }
    }
  }

  lemma {:induction false} RunFinal(s: State, schedule: seq<Action>)
    requires Inv(s) && NothingPending(s) && !Voidable(s.doc.status)
    ensures var n := Run(s, schedule); Inv(n) && NothingPending(n) && n.doc == s.doc
  {
    if schedule != [] {
      RunFinal(s, schedule[..|schedule| - 1]);
      StepFinal(Run(s, schedule[..|schedule| - 1]), schedule[|schedule| - 1]);
    }
  }

  /** What is left of a request's steps; those behind it change nothing. */
  function Finish(t: Tx): seq<Action> {
    [Lock(t), Check(t), Write(t), Commit(t)]
  }

  lemma RunFour(s: State, a: Action, b: Action, c: Action, d: Action)
    ensures Run(s, [a, b, c, d]) == Exec(Exec(Exec(Exec(s, a), b), c), d)
  {
    assert [a, b, c, d][..3] == [a, b, c] && [a, b, c][..2] == [a, b] && [a, b][..1] == [a];
    assert Run(s, [a]) == Exec(s, a);
    assert Run(s, [a, b, c]) == Exec(Run(s, [a, b]), c);
  }

  lemma {:induction false} RunConcat(s: State, p: seq<Action>, q: seq<Action>)
    ensures Run(s, p + q) == Run(Run(s, p), q)
  {
    if q == [] {
      assert p + q == p;
    } else {
      RunConcat(s, p, q[..|q| - 1]);
      assert (p + q)[..|p + q| - 1] == p + q[..|q| - 1];
    }
  }

  /** A request that begins and ends with nothing in between is its handler, run alone. */
  function Alone(t: Tx, op: Op): seq<Action> {
    [Start(t, op)] + Finish(t)
  }

  lemma LoneCommits(s: State, t: Tx, op: Op)
    requires t in s.reqs && s.reqs[t] == Req(op, s.doc.due, Cleared(s.doc.status)) && s.lock == Some(t) && !op.Sweep?
    requires Atomic(s.doc, op).Ok?
    ensures Exec(Exec(s, Write(t)), Commit(t))
         == Become(s, t, Done).(doc := Atomic(s.doc, op).value, lock := None, log := s.log + [op])
  {
    var written := Exec(s, Write(t));
    assert written == Become(s, t, Flush(s.doc, op));
    assert s.doc.payments + [] == s.doc.payments;
  }

  lemma LonePasses(s: State, t: Tx, op: Op)
    requires s.lock == None && t in s.reqs && s.reqs[t] == Req(op, s.doc.due, Fetched(s.doc.status)) && !op.Sweep?
    requires Atomic(s.doc, op).Ok?
    ensures Run(s, Finish(t)) == Become(s, t, Done).(doc := Atomic(s.doc, op).value, log := s.log + [op])
  {
    RunFour(s, Lock(t), Check(t), Write(t), Commit(t));
    var locked := Exec(s, Lock(t));
    assert locked == Become(s, t, Locked(s.doc.status)).(lock := Some(t));
    var cleared := Exec(locked, Check(t));
    assert cleared == Become(locked, t, Cleared(s.doc.status));
    LoneCommits(cleared, t, op);
  }

  lemma LoneIsRefused(s: State, t: Tx, op: Op)
    requires s.lock == None && t in s.reqs && s.reqs[t] == Req(op, s.doc.due, Fetched(s.doc.status)) && !op.Sweep?
    requires Atomic(s.doc, op).Err?
    ensures Run(s, Finish(t)) == Become(s, t, Done)
  {
    RunFour(s, Lock(t), Check(t), Write(t), Commit(t));
    if op.Send? {
      assert Exec(s, Lock(t)) == Become(s, t, Done);
    } else {
      var locked := Exec(s, Lock(t));
      assert locked == Become(s, t, Locked(s.doc.status)).(lock := Some(t));
      assert Exec(locked, Check(t)) == Become(s, t, Done);
    }
  }

  lemma LoneRequest(s: State, t: Tx, op: Op)
    requires s.lock == None && t !in s.reqs && !op.Sweep?
    requires (op.Pay? ==> op.raw > 0.0) && (op.Send? ==> s.doc.kind == Invoice)
    ensures var n := Run(s, Alone(t, op));
            && n.lock == None && n.rereads == s.rereads
            && n.reqs == s.reqs[t := Req(op, s.doc.due, Done)]
            && match Atomic(s.doc, op)
               case Ok(d) => n.doc == d && n.log == s.log + [op]
               case Err(_) => n.doc == s.doc && n.log == s.log
  {
    var begun := Exec(s, Start(t, op));
    RunConcat(s, [Start(t, op)], Finish(t));
    assert Run(s, []) == s && Run(s, [Start(t, op)]) == begun;
    if Atomic(s.doc, op).Ok? {
      LonePasses(begun, t, op);
    } else {
      LoneIsRefused(begun, t, op);
    }
  }

  lemma WrittenChanges(s: State, t: Tx)
    requires Inv(s) && !Voidable(s.doc.status) && t in s.reqs && s.reqs[t].phase.Written?
    requires Pending(s, s.reqs[t])
    ensures Exec(s, Commit(t)).doc != s.doc
  {
    var r, n := s.reqs[t], Exec(s, Commit(t));
    assert Fits(s.doc, r);
    if r.op.Pay? {
      assert |n.doc.payments| == |s.doc.payments| + 1;
    }
  }

  lemma ClearedChanges(s: State, t: Tx)
    requires Inv(s) && !Voidable(s.doc.status) && t in s.reqs && s.reqs[t].phase.Cleared?
    requires Pending(s, s.reqs[t])
    ensures Exec(Exec(s, Write(t)), Commit(t)).doc != s.doc
  {
    StepKeeps(s, Write(t));
    WrittenChanges(Exec(s, Write(t)), t);
  }

  lemma LockedChanges(s: State, t: Tx)
    requires Inv(s) && !Voidable(s.doc.status) && t in s.reqs && s.reqs[t].phase.Locked?
    requires Pending(s, s.reqs[t])
    ensures Exec(Exec(Exec(s, Check(t)), Write(t)), Commit(t)).doc != s.doc
  {
    StepKeeps(s, Check(t));
    ClearedChanges(Exec(s, Check(t)), t);
  }

  /** A pending request that has the lock, or finds it free, changes the document. */
  lemma PendingChanges(s: State, t: Tx)
    requires Inv(s) && !Voidable(s.doc.status) && t in s.reqs && Pending(s, s.reqs[t])
    requires s.lock == None || s.lock == Some(t)
    ensures Run(s, Finish(t)).doc != s.doc
  {
    RunFour(s, Lock(t), Check(t), Write(t), Commit(t));
    match s.reqs[t].phase
    case Fetched(_) =>
      assert !Holds(s.reqs[t].phase);
      StepKeeps(s, Lock(t));
      var n := Exec(s, Lock(t));
      assert n.reqs[t].phase == Locked(Sees(s, s.reqs[t]));
      LockedChanges(n, t);
    case Locked(_) => LockedChanges(s, t);
    case Cleared(_) => ClearedChanges(s, t);
    case Written(_, _) => WrittenChanges(s, t);
    case Done =>
  }

  /**
   When `paid` and `void` are final, payments included: exactly when no request under way
   passes its guard on the status it sees. Whether the locked read refreshes that status or
   not, and whoever holds the lock.
   */
  lemma FinalIff(s: State)
    requires Inv(s) && !Voidable(s.doc.status)
    ensures (forall schedule :: Run(s, schedule).doc == s.doc) <==> NothingPending(s)
  {
    if NothingPending(s) {
      forall schedule ensures Run(s, schedule).doc == s.doc { RunFinal(s, schedule); }
    } else {
      var t :| t in s.reqs && Pending(s, s.reqs[t]);
      if s.lock == None || s.lock == Some(t) {
        PendingChanges(s, t);
      } else {
        var a := Abort(s.lock.value);
        var n := Exec(s, a);
        assert Holds(s.reqs[s.lock.value].phase);
        StepKeeps(s, a);
        PendingChanges(n, t);
        RunConcat(s, [a], Finish(t));
        assert Run(s, []) == s && Run(s, [a]) == n;
      }
    }
  }

  /** With a true re-read, a payment or void under way never passes on a settled document. */
  lemma OnlySendsStayPending(s: State, t: Tx)
    requires Current(s) && !Voidable(s.doc.status) && t in s.reqs && Pending(s, s.reqs[t])
    ensures s.reqs[t].op.Send?
  {
    assert SeesCommitted(s.doc, s.reqs[t]) && Fits(s.doc, s.reqs[t]);
  }

  lemma ClearedPaymentLands(s: State, t: Tx, raw: real)
    requires t in s.reqs && s.reqs[t].op == Pay(raw) && s.reqs[t].phase.Cleared?
    ensures Exec(Exec(s, Write(t)), Commit(t)).doc.payments == s.doc.payments + [HalfUp(raw)]
  {
    var n := Exec(s, Write(t));
    assert n.reqs[t].phase.Written? && n.reqs[t].phase.payment == Some(HalfUp(raw)) && n.doc == s.doc;
  }

  /** Without the fresh status, a payment that loaded the bill before a void still lands. */
  lemma StaleRereadPaysVoided(s: State, t: Tx, raw: real)
    requires !s.rereads && s.lock == None && s.doc.status == Void
    requires t in s.reqs && s.reqs[t].op == Pay(raw) && s.reqs[t].phase == Fetched(Unpaid)
    requires HalfUp(raw) <= s.doc.amount - Sum(s.doc.payments)
    ensures Run(s, Finish(t)).doc.payments == s.doc.payments + [HalfUp(raw)]
  {
    var s1 := Exec(s, Lock(t));
    assert s1.reqs[t] == s.reqs[t].(phase := Locked(Unpaid)) && s1.doc == s.doc;
    var s2 := Exec(s1, Check(t));
    assert s2.reqs[t] == s.reqs[t].(phase := Cleared(Unpaid)) && s2.doc == s.doc;
    ClearedPaymentLands(s2, t, raw);
    RunFour(s, Lock(t), Check(t), Write(t), Commit(t));
  }

  /** A payment and a void begin on a fresh bill, and the void goes through first. */
  function VoidOvertakes(raw: real): seq<Action> {
    [Start(0, Pay(raw)), Start(1, VoidIt)] + Finish(1)
  }

  lemma VoidGoesThrough(s: State, t: Tx)
    requires s.lock == None && t in s.reqs && s.reqs[t].op == VoidIt && s.reqs[t].phase == Fetched(Unpaid)
    requires s.doc.status == Unpaid
    ensures Run(s, Finish(t)) ==
              Become(s, t, Done).(doc := s.doc.(status := Void), log := s.log + [VoidIt])
  {
    RunFour(s, Lock(t), Check(t), Write(t), Commit(t));
    var locked := Exec(s, Lock(t));
    assert locked == Become(s, t, Locked(Unpaid)).(lock := Some(t));
    var cleared := Exec(locked, Check(t));
    assert cleared == Become(locked, t, Cleared(Unpaid));
    var written := Exec(cleared, Write(t));
    assert written == Become(cleared, t, Written(None, Some(Void)));
    assert s.doc.payments + [] == s.doc.payments;
  }

  lemma VoidOvertakesPayment(s: State, raw: real)
    requires s.doc.kind == Bill && s.doc.status == Unpaid && s.lock == None && s.reqs == map[] && raw > 0.0
    ensures var n := Run(s, VoidOvertakes(raw));
            && n.doc == s.doc.(status := Void) && n.lock == None && n.rereads == s.rereads
            && 0 in n.reqs && n.reqs[0] == Req(Pay(raw), s.doc.due, Fetched(Unpaid))
  {
    var paying := s.(reqs := map[0 := Req(Pay(raw), s.doc.due, Fetched(Unpaid))]);
    var both := paying.(reqs := paying.reqs[1 := Req(VoidIt, s.doc.due, Fetched(Unpaid))]);
    assert [Start(0, Pay(raw)), Start(1, VoidIt)][..1] == [Start(0, Pay(raw))];
    assert Run(s, []) == s && Run(s, [Start(0, Pay(raw))]) == paying;
    assert Run(s, [Start(0, Pay(raw)), Start(1, VoidIt)]) == both;
    RunConcat(s, [Start(0, Pay(raw)), Start(1, VoidIt)], Finish(1));
    VoidGoesThrough(both, 1);
  }

  /**
   So on every fresh bill, when the locked read does not refresh the status, a payment is
   recorded after the void: a run from the beginning, not from a state supposed.
   */
  lemma VoidedBillIsPaid(rawAmount: real, due: Option<Day>, raw: real)
    requires 0.0 < raw && HalfUp(raw) <= HalfUp(rawAmount)
    ensures var voided := Run(Init(Bill, rawAmount, due, false), VoidOvertakes(raw));
            && voided.doc.status == Void && voided.doc.payments == []
            && Run(voided, Finish(0)).doc.payments == [HalfUp(raw)]
  {
    var s := Init(Bill, rawAmount, due, false);
    VoidOvertakesPayment(s, raw);
    StaleRereadPaysVoided(Run(s, VoidOvertakes(raw)), 0, raw);
    assert [] + [HalfUp(raw)] == [HalfUp(raw)];
  }

  /**
   With a re-read that returns the committed row, a payment or void that holds the lock has
   seen the status that is still committed.
   */
  ghost predicate Current(s: State) {
    && s.rereads
    && Inv(s)
    && forall t :: t in s.reqs ==> SeesCommitted(s.doc, s.reqs[t])
  }

  predicate SeesCommitted(d: Doc, r: Req) {
    && ((r.phase.Locked? || r.phase.Cleared?) && !r.op.Send? ==> r.phase.seen == d.status)
    && ((r.phase.Cleared? || r.phase.Written?) && !r.op.Send? ==> InTime(d, r.op))
  }

  lemma StepCurrent(s: State, a: Action)
    requires Current(s)
    ensures Current(Exec(s, a))
  {
    StepKeeps(s, a);
  }

  // ---------------------------------------------------------------- as if one at a time

  /** The committed status is one the handler accepts. */
  predicate InTime(d: Doc, op: Op) {
    match op
    case Pay(_) => Payable(d.kind, d.status)
    case VoidIt => Voidable(d.status)
    case Send(_) => d.status == Draft
    case Sweep(_) => true
  }

  /** A commit is one whole handler run on the committed document exactly if it is in time. */
  lemma CommitIsAtomicIff(s: State, tx: Tx)
    requires Inv(s) && Enabled(s, Commit(tx))
    ensures var r := s.reqs[tx]; var n := Apply(s, Commit(tx));
            && n.log == s.log + [r.op]
            && Atomic(s.doc, r.op) == if InTime(s.doc, r.op) then Ok(n.doc) else Err(Conflict)
  {
    var r := s.reqs[tx];
    assert Fits(s.doc, r) && Holds(r.phase);
    if r.op.Pay? {
      SumAppend(s.doc.payments, HalfUp(r.op.raw));
    } else {
      assert s.doc.payments + [] == s.doc.payments;
    }
  }

  /** The handlers of `log`, one after another. */
  function Serial(d: Doc, log: seq<Op>): Option<Doc> {
    if log == [] then Some(d)
    else
      var before := Serial(d, log[..|log| - 1]);
      if before.None? then None
      else
        var outcome := Atomic(before.value, log[|log| - 1]);
        if outcome.Ok? then Some(outcome.value) else None
  }

  /** Every commit of the run found a status its handler accepts. */
  predicate AllInTime(s: State, schedule: seq<Action>) {
    schedule != [] ==>
      var before, a := Run(s, schedule[..|schedule| - 1]), schedule[|schedule| - 1];
      AllInTime(s, schedule[..|schedule| - 1]) && CommitsInTime(before, a)
  }

  lemma SerialAfter(d: Doc, before: Doc, log: seq<Op>, op: Op, after: Doc, inTime: bool)
    requires Serial(d, log) == Some(before) || Serial(d, log) == None
    requires Atomic(before, op) == if inTime then Ok(after) else Err(Conflict)
    ensures Serial(d, log + [op]) == if Serial(d, log).Some? && inTime then Some(after) else None
  {
    assert (log + [op])[..|log|] == log;
  }

  predicate CommitsInTime(s: State, a: Action) {
    a.Commit? && Enabled(s, a) ==> InTime(s.doc, s.reqs[a.tx].op)
  }

  lemma StepIsSerial(s: State, a: Action, d: Doc)
    requires Inv(s)
    requires Serial(d, s.log) == Some(s.doc) || Serial(d, s.log) == None
    ensures var n := Exec(s, a);
            Serial(d, n.log) == if Serial(d, s.log).Some? && CommitsInTime(s, a) then Some(n.doc) else None
  {
    var n := Exec(s, a);
    if a.Commit? && Enabled(s, a) {
      CommitIsAtomicIff(s, a.tx);
      SerialAfter(d, s.doc, s.log, s.reqs[a.tx].op, n.doc, InTime(s.doc, s.reqs[a.tx].op));
    } else if a.SweepAll? && Enabled(s, a) {
      SerialAfter(d, s.doc, s.log, Sweep(a.today), n.doc, true);
    } else {
      assert n.log == s.log && n.doc == s.doc;
    }
  }

  /**
   Serializability, of bills and invoices, whatever the locked read returns: a run leaves the
   document where its committed handlers leave it one after another, in commit order, exactly
   when every commit was in time.
   */
  lemma {:induction false} RunIsSerialIff(s: State, schedule: seq<Action>, d: Doc)
    requires Inv(s) && Serial(d, s.log) == Some(s.doc)
    ensures Inv(Run(s, schedule))
    ensures Serial(d, Run(s, schedule).log) == if AllInTime(s, schedule) then Some(Run(s, schedule).doc) else None
  {
    if schedule != [] {
      var before, a := schedule[..|schedule| - 1], schedule[|schedule| - 1];
      RunIsSerialIff(s, before, d);
      StepKeeps(Run(s, before), a);
      StepIsSerial(Run(s, before), a, d);
    }
  }

  /** With a true re-read only a send can be late. */
  lemma OnlySendsAreLate(s: State, tx: Tx)
    requires Current(s) && Enabled(s, Commit(tx)) && !InTime(s.doc, s.reqs[tx].op)
    ensures s.reqs[tx].op.Send?
  {
    assert SeesCommitted(s.doc, s.reqs[tx]);
  }

  ghost predicate BillCurrent(s: State) {
    Current(s) && s.doc.kind == Bill && forall t :: t in s.reqs ==> !s.reqs[t].op.Send?
  }

  lemma {:induction false} BillsInTime(s: State, schedule: seq<Action>)
    requires BillCurrent(s)
    ensures BillCurrent(Run(s, schedule)) && AllInTime(s, schedule)
  {
    if schedule != [] {
      var m, a := Run(s, schedule[..|schedule| - 1]), schedule[|schedule| - 1];
      BillsInTime(s, schedule[..|schedule| - 1]);
      StepCurrent(m, a);
      if a.Commit? && Enabled(m, a) {
        assert SeesCommitted(m.doc, m.reqs[a.tx]);
      }
    }
  }

  /** A refusal is the answer the same handler gives alone to a document with the status it saw. */
  lemma RefusalIsAtomic(s: State, tx: Tx)
    requires Inv(s) && Enabled(s, Check(tx)) && !s.reqs[tx].op.Send?
    ensures Exec(s, Check(tx)).reqs[tx].phase.Done? <==>
              Atomic(s.doc.(status := s.reqs[tx].phase.seen), s.reqs[tx].op).Err?
    ensures Current(s) ==> s.reqs[tx].phase.seen == s.doc.status
  {
    assert Fits(s.doc, s.reqs[tx]);
    if Current(s) {
      assert SeesCommitted(s.doc, s.reqs[tx]);
    }
  }

  /** A send is refused on its unlocked read, for the status or the due date it loaded. */
  lemma SendRefusal(s: State, tx: Tx)
    requires Enabled(s, Lock(tx)) && s.reqs[tx].op.Send?
    ensures var r := s.reqs[tx];
            Exec(s, Lock(tx)).reqs[tx].phase.Done? <==>
              Atomic(s.doc.(status := r.phase.seen, due := r.loaded), r.op).Err?
  {
  }

  /** A send writes its due date only if it brings another than it loaded; a date committed meanwhile then stays. */
  lemma SendWritesDueIff(s: State, tx: Tx)
    requires Inv(s) && Enabled(s, Commit(tx)) && s.reqs[tx].op.Send?
    ensures var r := s.reqs[tx];
            Exec(s, Commit(tx)).doc.due == if r.op.due == None || r.op.due == r.loaded then s.doc.due else r.op.due
  {
  }

  // ---------------------------------------------------------------- paid means settled

  predicate PaidIffSettled(d: Doc) {
    d.status == Paid <==> Settled(d)
  }

  /** A void or a send about to commit onto a paid document. */
  predicate Unpays(s: State, a: Action) {
    a.Commit? && Enabled(s, a) && !s.reqs[a.tx].op.Pay? && s.doc.status == Paid
  }

  lemma PaymentKeepsPaidIffSettled(d: Doc, cents: int)
    requires PaidIffSettled(d) && Sum(d.payments) + cents <= d.amount && 0 <= cents
    ensures PaidIffSettled(WithPayment(d, cents))
  {
    SumAppend(d.payments, cents);
    var n := WithPayment(d, cents);
    assert n.payments == d.payments + [cents] && |n.payments| > 0 && n.amount == d.amount;
    if n.status == Paid {
      assert Sum(n.payments) >= d.amount || d.status == Paid;
    }
  }

  lemma CommitPaidIffSettled(s: State, tx: Tx)
    requires Inv(s) && PaidIffSettled(s.doc) && Enabled(s, Commit(tx))
    ensures PaidIffSettled(Exec(s, Commit(tx)).doc) <==> !Unpays(s, Commit(tx))
  {
    var r, n := s.reqs[tx], Exec(s, Commit(tx));
    assert Fits(s.doc, r);
    if r.op.Pay? {
      HalfUpExact(r.op.raw, HalfUp(r.op.raw));
      PaymentKeepsPaidIffSettled(s.doc, HalfUp(r.op.raw));
      assert n.doc == WithPayment(s.doc, HalfUp(r.op.raw));
    } else {
      assert n.doc.payments == s.doc.payments && n.doc.status != Paid;
    }
  }

  lemma StepPaidIffSettled(s: State, a: Action)
    requires Inv(s) && PaidIffSettled(s.doc)
    ensures PaidIffSettled(Exec(s, a).doc) <==> !Unpays(s, a)
  {
    if Enabled(s, a) {
      if a.Commit? {
        CommitPaidIffSettled(s, a.tx);
      } else {
        var d := Apply(s, a).doc;
        assert d.payments == s.doc.payments && d.amount == s.doc.amount && (d.status == Paid <==> s.doc.status == Paid);
      }
    }
  }

  /** At every moment of the run, paid exactly when payments reach the amount. */
  ghost predicate PaidIffSettledThroughout(s: State, schedule: seq<Action>) {
    PaidIffSettled(Run(s, schedule).doc)
      && (schedule != [] ==> PaidIffSettledThroughout(s, schedule[..|schedule| - 1]))
  }

  predicate NothingUnpays(s: State, schedule: seq<Action>) {
    schedule != [] ==>
      NothingUnpays(s, schedule[..|schedule| - 1])
        && !Unpays(Run(s, schedule[..|schedule| - 1]), schedule[|schedule| - 1])
  }

  /**
   On a bill or an invoice, whatever the locked read returns, `paid` marks exactly the settled
   document throughout a run if and only if no void and no send commits onto a paid one.
   */
  lemma {:induction false} PaidExactlyWhenSettled(s: State, schedule: seq<Action>)
    requires Inv(s) && PaidIffSettled(s.doc)
    ensures Inv(Run(s, schedule))
    ensures PaidIffSettledThroughout(s, schedule) <==> NothingUnpays(s, schedule)
  {
    if schedule != [] {
      var before, a := schedule[..|schedule| - 1], schedule[|schedule| - 1];
      PaidExactlyWhenSettled(s, before);
      StepKeeps(Run(s, before), a);
      if PaidIffSettledThroughout(s, before) {
        StepPaidIffSettled(Run(s, before), a);
      }
    }
  }

  lemma {:induction false} InTimeNeverUnpays(s: State, schedule: seq<Action>)
    requires Inv(s) && AllInTime(s, schedule)
    ensures NothingUnpays(s, schedule)
  {
    if schedule != [] {
      var m, a := Run(s, schedule[..|schedule| - 1]), schedule[|schedule| - 1];
      InTimeNeverUnpays(s, schedule[..|schedule| - 1]);
      RunKeeps(s, schedule[..|schedule| - 1]);
      if a.Commit? && Enabled(m, a) {
        assert Fits(m.doc, m.reqs[a.tx]);
      }
    }
  }

  /**
   Bills, with a true re-read: every interleaving leaves the bill where running the committed
   handlers alone, in commit order, leaves it, and it is `paid` exactly when it has payments
   and they sum to the amount.
   */
  lemma BillsAreSerial(rawAmount: real, due: Option<Day>, schedule: seq<Action>)
    requires rawAmount > 0.0
    ensures var s := Run(Init(Bill, rawAmount, due, true), schedule);
            && Serial(NewDoc(Bill, rawAmount, due), s.log) == Some(s.doc)
            && (s.doc.status == Paid <==> Settled(s.doc))
  {
    HalfUpExact(rawAmount, HalfUp(rawAmount));
    var s0 := Init(Bill, rawAmount, due, true);
    BillsInTime(s0, schedule);
    RunIsSerialIff(s0, schedule, s0.doc);
    InTimeNeverUnpays(s0, schedule);
    PaidExactlyWhenSettled(s0, schedule);
  }
}
