/**
 A project and its change orders: the transition table, completion against open change
 orders, and the PROJECT_COMPLETED event, over every run of requests, one at a time or
 interleaved.
 */
module Projects {
  import opened Money

  datatype Status = Draft | PreConstruction | Active | Suspended | Completed | Archived

  /** The backend's table. */
  const TRANSITIONS: map<Status, set<Status>> := map[
    Draft := {PreConstruction},
    PreConstruction := {Active},
    Active := {Suspended, Completed},
    Suspended := {Active, Completed},
    Completed := {Archived},
    Archived := {}]

  /** The browser's copy of it. */
  const SHOWN_TRANSITIONS: map<Status, seq<Status>> := map[
    Draft := [PreConstruction],
    PreConstruction := [Active],
    Active := [Suspended, Completed],
    Suspended := [Active, Completed],
    Completed := [Archived],
    Archived := []]

  predicate IsLegalTransition(current: Status, next: Status) {
    current in TRANSITIONS && next in TRANSITIONS[current]
  }

  lemma ButtonsAreLegalMoves(current: Status, next: Status)
    ensures current in SHOWN_TRANSITIONS
    ensures next in SHOWN_TRANSITIONS[current] <==> IsLegalTransition(current, next)
  {
    match current
    case Draft | PreConstruction | Active | Suspended | Completed | Archived =>
  }

  datatype Decision = Pending | Agreed(esignature: nat) | Declined

  /** The cost is stored in cents. */
  datatype ChangeOrder = ChangeOrder(costDelta: int, decision: Decision)

  datatype State = State(status: Status, orders: seq<ChangeOrder>, completedEvents: nat)

  datatype Request =
    | SetStatus(next: Status)
    | CreateOrder(costDelta: real)
    | ApproveOrder(order: nat, esignature: nat, signerIsCaller: bool)
    | RejectOrder(order: nat)

  function Created(): State {
    State(Draft, [], 0)
  }

  predicate Open(orders: seq<ChangeOrder>) {
    exists i :: 0 <= i < |orders| && orders[i].decision.Pending?
  }

  predicate IsPending(s: State, order: nat) {
    order < |s.orders| && s.orders[order].decision.Pending?
  }

  /** The checks of a handler. Asking for the status a project already has is no transition. */
  predicate Allowed(s: State, r: Request) {
    match r
    case SetStatus(next) =>
      next != s.status ==> IsLegalTransition(s.status, next) && (next == Completed ==> !Open(s.orders))
    case CreateOrder(_) => s.status == Active
    case ApproveOrder(order, _, signerIsCaller) => IsPending(s, order) && signerIsCaller
    case RejectOrder(order) => IsPending(s, order)
  }

  /** Its writes, by a handler that read the project at status `seen`. */
  function WriteSeen(s: State, seen: Status, r: Request): State {
    match r
    case SetStatus(next) =>
      if next == seen then s
      else s.(status := next, completedEvents := if next == Completed then s.completedEvents + 1 else s.completedEvents)
    case CreateOrder(costDelta) => s.(orders := s.orders + [ChangeOrder(HalfUp(costDelta), Pending)])
    case ApproveOrder(order, esignature, _) =>
      if order < |s.orders|
        then s.(orders := s.orders[order := s.orders[order].(decision := Agreed(esignature))])
        else s
    case RejectOrder(order) =>
      if order < |s.orders| then s.(orders := s.orders[order := s.orders[order].(decision := Declined)]) else s
  }

  function CountPending(orders: seq<ChangeOrder>): nat {
    if orders == [] then 0 else
      CountPending(orders[..|orders| - 1]) + if orders[|orders| - 1].decision.Pending? then 1 else 0
  }

  lemma {:induction false} CountPendingCounts(orders: seq<ChangeOrder>)
    ensures CountPending(orders) == |set i | 0 <= i < |orders| && orders[i].decision == Pending|
  {
    if orders != [] {
      var init, n := orders[..|orders| - 1], |orders| - 1;
      CountPendingCounts(init);
      var before := set i | 0 <= i < |init| && init[i].decision == Pending;
      var all := set i | 0 <= i < |orders| && orders[i].decision == Pending;
      assert all == if orders[n].decision == Pending then before + {n} else before;
    }
  }

  lemma {:induction false} PendingIffOpen(orders: seq<ChangeOrder>)
    ensures CountPending(orders) > 0 <==> Open(orders)
  {
    if orders != [] {
      var init := orders[..|orders| - 1];
      PendingIffOpen(init);
      assert Open(init) ==> Open(orders) by {
        if i :| 0 <= i < |init| && init[i].decision.Pending? { assert orders[i] == init[i]; }
      }
      assert Open(orders) && !orders[|orders| - 1].decision.Pending? ==> Open(init) by {
        if i :| 0 <= i < |orders| && orders[i].decision.Pending? && !orders[|orders| - 1].decision.Pending? {
          assert init[i] == orders[i];
        }
      }
    }
  }

  function Exec(s: State, r: Request): State {
    if Allowed(s, r) then WriteSeen(s, s.status, r) else s
  }

  function Run(s: State, requests: seq<Request>): State {
    if requests == [] then s else Exec(Run(s, requests[..|requests| - 1]), requests[|requests| - 1])
  }

  /** Who may do what when: each request is accepted in exactly these cases. */
  lemma AllowedExactly(s: State, r: Request)
    ensures Allowed(s, r) <==>
              match r
              case SetStatus(next) =>
                || next == s.status
                || (s.status == Draft && next == PreConstruction)
                || (s.status == PreConstruction && next == Active)
                || (s.status == Active && next == Suspended)
                || (s.status == Suspended && next == Active)
                || (s.status == Completed && next == Archived)
                || ((s.status == Active || s.status == Suspended) && next == Completed
                    && forall i :: 0 <= i < |s.orders| ==> s.orders[i].decision != Pending)
              case CreateOrder(_) => s.status == Active
              case ApproveOrder(order, _, signerIsCaller) =>
                order < |s.orders| && s.orders[order].decision == Pending && signerIsCaller
              case RejectOrder(order) => order < |s.orders| && s.orders[order].decision == Pending
  {
  }

  class Project {
    var status: Status
    var orders: seq<ChangeOrder>
    var completedEvents: nat

    function Value(): State
      reads this
    {
      State(status, orders, completedEvents)
    }

    constructor ()
      ensures Value() == Created()
    {
      status, orders, completedEvents := Draft, [], 0;
    }

    /** `SELECT count(*) ... WHERE status = 'pending'`. */
    method PendingCount() returns (count: nat)
      ensures count == CountPending(orders) && (count > 0 <==> Open(orders))
    {
      count := 0;
      for i := 0 to |orders|
        invariant count == CountPending(orders[..i])
      {
        assert orders[..i + 1][..i] == orders[..i];
        if orders[i].decision.Pending? {
          count := count + 1;
        }
      }
      assert orders[..|orders|] == orders;
      PendingIffOpen(orders);
    }

    method UpdateStatus(next: Status) returns (ok: bool)
      modifies this
      ensures Value() == Exec(old(Value()), SetStatus(next)) && ok == Allowed(old(Value()), SetStatus(next))
    {
      var changing := next != status;
      if changing && !IsLegalTransition(status, next) {
        return false;
      }
      if changing && next == Completed {
        var pending := PendingCount();
        if pending > 0 {
          return false;
        }
      }
      if changing {
        status := next;
        if next == Completed {
          completedEvents := completedEvents + 1;
        }
      }
      return true;
    }

    method Create(costDelta: real) returns (ok: bool)
      modifies this
      ensures Value() == Exec(old(Value()), CreateOrder(costDelta))
      ensures ok == Allowed(old(Value()), CreateOrder(costDelta))
    {
      if status != Active {
        return false;
      }
      orders := orders + [ChangeOrder(HalfUp(costDelta), Pending)];
      return true;
    }

    method Approve(order: nat, esignature: nat, signerIsCaller: bool) returns (ok: bool)
      modifies this
      ensures Value() == Exec(old(Value()), ApproveOrder(order, esignature, signerIsCaller))
      ensures ok == Allowed(old(Value()), ApproveOrder(order, esignature, signerIsCaller))
    {
      if order >= |orders| || !orders[order].decision.Pending? || !signerIsCaller {
        return false;
      }
      orders := orders[order := orders[order].(decision := Agreed(esignature))];
      return true;
    }

    method Reject(order: nat) returns (ok: bool)
      modifies this
      ensures Value() == Exec(old(Value()), RejectOrder(order)) && ok == Allowed(old(Value()), RejectOrder(order))
    {
      if order >= |orders| || !orders[order].decision.Pending? {
        return false;
      }
      orders := orders[order := orders[order].(decision := Declined)];
      return true;
    }
  }

  // ---------------------------------------------------------------- every run

  predicate Done(s: State) {
    s.status == Completed || s.status == Archived
  }

  predicate Inv(s: State) {
    && (Done(s) ==> !Open(s.orders))
    && s.completedEvents == (if Done(s) then 1 else 0)
    && ((s.status == Draft || s.status == PreConstruction) ==> s.orders == [])
  }

  lemma StepKeeps(s: State, r: Request)
    requires Inv(s)
    ensures Inv(Exec(s, r))
  {
  }

  lemma {:induction false} RunKeeps(s: State, requests: seq<Request>)
    requires Inv(s)
    ensures Inv(Run(s, requests))
  {
    if requests != [] {
      RunKeeps(s, requests[..|requests| - 1]);
      StepKeeps(Run(s, requests[..|requests| - 1]), requests[|requests| - 1]);
    }
  }

  /**
   In every run a completed or archived project has no pending change order, and
   PROJECT_COMPLETED was published for it exactly once, and for others never.
   */
  lemma CompletedOnceWithNothingOpen(requests: seq<Request>)
    ensures var s := Run(Created(), requests);
            && (Done(s) ==> !Open(s.orders))
            && s.completedEvents == (if Done(s) then 1 else 0)
  {
    RunKeeps(Created(), requests);
  }

  /** A decided order, and the cost of any order, never change. */
  lemma {:induction false} DecisionsAreFinal(s: State, requests: seq<Request>, order: nat)
    requires order < |s.orders|
    ensures var n := Run(s, requests);
            && order < |n.orders| && n.orders[order].costDelta == s.orders[order].costDelta
            && (!s.orders[order].decision.Pending? ==> n.orders[order] == s.orders[order])
  {
    if requests != [] {
      DecisionsAreFinal(s, requests[..|requests| - 1], order);
    }
  }

  /** A new order is stored at the nearest cent, pending, after those already there. */
  lemma CreatedInCents(s: State, costDelta: real)
    requires Allowed(s, CreateOrder(costDelta))
    ensures var n := Exec(s, CreateOrder(costDelta));
            && n.status == s.status && n.completedEvents == s.completedEvents
            && |n.orders| == |s.orders| + 1 && n.orders[..|s.orders|] == s.orders
            && IsHalfUp(costDelta, n.orders[|s.orders|].costDelta) && n.orders[|s.orders|].decision.Pending?
  {
    HalfUpExact(costDelta, HalfUp(costDelta));
  }

  /** Once done, the change orders the final invoice was drawn from are settled for good. */
  lemma {:induction false} OrdersSettledOnceDone(s: State, requests: seq<Request>)
    requires Inv(s) && Done(s)
    ensures var n := Run(s, requests); Inv(n) && Done(n) && n.orders == s.orders
  {
    if requests != [] {
      OrdersSettledOnceDone(s, requests[..|requests| - 1]);
    }
  }

  /** Request `k` moved the project from one status to another. */
  ghost predicate Moved(requests: seq<Request>, k: nat, from: Status, to: Status) {
    k < |requests| && Run(Created(), requests[..k]).status == from && Run(Created(), requests[..k + 1]).status == to
  }

  lemma {:induction false} MovedFrom(requests: seq<Request>, k: nat, to: Status) returns (i: nat)
    requires k <= |requests| && Run(Created(), requests[..k]).status == to && to != Draft
    ensures i < k && Run(Created(), requests[..i]).status != to && Run(Created(), requests[..i + 1]).status == to
  {
    assert Run(Created(), requests[..0]).status == Draft;
    i := k - 1;
    if Run(Created(), requests[..k - 1]).status == to {
      i := MovedFrom(requests, k - 1, to);
    }
  }

  /**
   A project starts as a draft without orders, and is active only after it was taken to
   pre-construction and then to active; so is one that is suspended, completed or archived.
   */
  lemma ThroughPreConstruction(requests: seq<Request>) returns (i: nat, j: nat)
    requires var s := Run(Created(), requests).status; s != Draft && s != PreConstruction
    ensures i < j && Moved(requests, i, Draft, PreConstruction) && Moved(requests, j, PreConstruction, Active)
  {
    assert requests[..|requests|] == requests;
    j := FirstActive(requests, |requests|);
    i := MovedFrom(requests, j, PreConstruction);
    assert requests[..i + 1][..i] == requests[..i];
  }

  lemma {:induction false} FirstActive(requests: seq<Request>, k: nat) returns (j: nat)
    requires k <= |requests|
    requires var s := Run(Created(), requests[..k]).status; s != Draft && s != PreConstruction
    ensures j < k && Moved(requests, j, PreConstruction, Active)
  {
    assert Run(Created(), requests[..0]).status == Draft;
    assert requests[..k][..k - 1] == requests[..k - 1];
    var before := Run(Created(), requests[..k - 1]).status;
    if before == Draft || before == PreConstruction {
      j := k - 1;
    } else {
      j := FirstActive(requests, k - 1);
    }
  }

  /** An order agreed with this signature was approved so by the signer in person. */
  lemma {:induction false} AgreedBySigner(requests: seq<Request>, order: nat, esignature: nat)
    requires var s := Run(Created(), requests); order < |s.orders| && s.orders[order].decision == Agreed(esignature)
    ensures ApproveOrder(order, esignature, true) in requests
  {
    if requests != [] {
      var before := Run(Created(), requests[..|requests| - 1]);
      if order < |before.orders| && before.orders[order].decision == Agreed(esignature) {
        AgreedBySigner(requests[..|requests| - 1], order, esignature);
      }
    }
  }

  // ---------------------------------------------------------------- two requests at once

  /** No handler locks the project: both read and check on `s`, and then both write. */
  function Overlapped(s: State, a: Request, b: Request): State {
    WriteSeen(WriteSeen(s, s.status, a), s.status, b)
  }

  predicate Completes(s: State, r: Request) {
    r == SetStatus(Completed) && s.status != Completed
  }

  predicate ChangesStatus(s: State, r: Request) {
    r.SetStatus? && r.next != s.status
  }

  /** Completing against a change order, or against any other change of status that lands later. */
  predicate Harmful(s: State, a: Request, b: Request) {
    || (Completes(s, a) && (b.CreateOrder? || ChangesStatus(s, b)))
    || (a.CreateOrder? && Completes(s, b))
  }

  lemma WriteOpens(s: State, seen: Status, r: Request)
    ensures r.CreateOrder? ==> Open(WriteSeen(s, seen, r).orders)
    ensures !r.CreateOrder? && Open(WriteSeen(s, seen, r).orders) ==> Open(s.orders)
  {
    var n := WriteSeen(s, seen, r);
    if r.CreateOrder? {
      assert n.orders[|s.orders|].decision.Pending?;
    } else if Open(n.orders) {
      var i :| 0 <= i < |n.orders| && n.orders[i].decision.Pending?;
      assert s.orders[i].decision.Pending?;
    }
  }

  /**
   Of any two accepted requests that overlap, in either order of writing, exactly these break
   the invariant: a completion overlapping the creation of a change order leaves a completed
   project with a pending one, and a completion with a second change of status after it
   counts an event too many, or for a project no longer completed.
   */
  lemma OverlapBreaksIff(s: State, a: Request, b: Request)
    requires Inv(s) && Allowed(s, a) && Allowed(s, b)
    ensures Inv(Overlapped(s, a, b)) <==> !Harmful(s, a, b)
  {
    var m := WriteSeen(s, s.status, a);
    WriteOpens(s, s.status, a);
    WriteOpens(m, s.status, b);
    if b.CreateOrder? {
      assert Open(Overlapped(s, a, b).orders);
    } else if a.CreateOrder? && b.SetStatus? {
      assert Overlapped(s, a, b).orders == m.orders;
    }
  }

  /** Two completions that overlap publish PROJECT_COMPLETED twice. */
  lemma TwoCompletionsPublishTwice(s: State)
    requires Inv(s) && Allowed(s, SetStatus(Completed)) && s.status != Completed
    ensures Overlapped(s, SetStatus(Completed), SetStatus(Completed)) == s.(status := Completed, completedEvents := 2)
  {
  }

  /** And a completed project is left with a pending order, for every active one that could complete. */
  lemma OverlapLeavesCompletedWithOpen(s: State, costDelta: real)
    requires Inv(s) && s.status == Active && Allowed(s, SetStatus(Completed))
    ensures Allowed(s, CreateOrder(costDelta))
    ensures var n := Overlapped(s, SetStatus(Completed), CreateOrder(costDelta)); Done(n) && Open(n.orders)
    ensures var n := Overlapped(s, CreateOrder(costDelta), SetStatus(Completed)); Done(n) && Open(n.orders)
  {
    WriteOpens(s, s.status, CreateOrder(costDelta));
    WriteOpens(s.(status := Completed, completedEvents := 1), s.status, CreateOrder(costDelta));
  }

  predicate Decides(r: Request, order: nat) {
    (r.ApproveOrder? || r.RejectOrder?) && r.order == order
  }

  /** A decision overlapping another of the same order is overwritten; no other is. */
  lemma DecisionOverwrittenIff(s: State, a: Request, b: Request, order: nat)
    requires Allowed(s, a) && Allowed(s, b) && Decides(a, order)
    ensures Overlapped(s, a, b).orders[order] == WriteSeen(s, s.status, a).orders[order]
       <==> !Decides(b, order) || WriteSeen(s, s.status, b).orders[order] == WriteSeen(s, s.status, a).orders[order]
  {
  }

  // ---------------------------------------------------------------- any number of requests at once

  /** A request that was accepted on the status it read, and has yet to write. */
  datatype Accepted = Accepted(seen: Status, request: Request)

  datatype Machine = Machine(project: State, pending: map<nat, Accepted>)

  /** Requests are named by their transactions; each reads and checks once, and later writes and commits. */
  datatype Action = Check(tx: nat, request: Request) | Write(tx: nat)

  function Act(m: Machine, a: Action): Machine {
    match a
    case Check(tx, r) =>
      if tx !in m.pending && Allowed(m.project, r)
        then m.(pending := m.pending[tx := Accepted(m.project.status, r)])
        else m
    case Write(tx) =>
      if tx in m.pending
        then Machine(WriteSeen(m.project, m.pending[tx].seen, m.pending[tx].request), m.pending - {tx})
        else m
  }

  function ActAll(m: Machine, actions: seq<Action>): Machine {
    if actions == [] then m else Act(ActAll(m, actions[..|actions| - 1]), actions[|actions| - 1])
  }

  /** A request with nothing between its check and its writes is the request run alone. */
  lemma CheckThenWrite(m: Machine, tx: nat, r: Request)
    ensures tx !in m.pending ==> Act(Act(m, Check(tx, r)), Write(tx)) == Machine(Exec(m.project, r), m.pending)
    ensures tx in m.pending ==> Act(m, Check(tx, r)) == m
  {
    assert tx !in m.pending ==> m.pending - {tx} == m.pending;
  }

  /** Nothing is open once done, and PROJECT_COMPLETED was published exactly once for a done project. */
  predicate Sound(s: State) {
    (Done(s) ==> !Open(s.orders)) && s.completedEvents == if Done(s) then 1 else 0
  }

  /**
   The project has moved on since the check, in a way that matters to this write: a new order
   on a done project, a completion with an order open or already made, and any other change
   of status that takes a project into or out of being done.
   */
  predicate Late(s: State, a: Accepted) {
    match a.request
    case SetStatus(next) =>
      next != a.seen &&
      if next == Completed then Done(s) || Open(s.orders) else Done(s) != (next == Archived)
    case CreateOrder(_) => Done(s)
    case ApproveOrder(_, _, _) => false
    case RejectOrder(_) => false
  }

  predicate WritesLate(m: Machine, a: Action) {
    a.Write? && a.tx in m.pending && Late(m.project, m.pending[a.tx])
  }

  lemma WriteSoundIff(s: State, a: Accepted)
    requires Sound(s)
    ensures Sound(WriteSeen(s, a.seen, a.request)) <==> !Late(s, a)
  {
    WriteOpens(s, a.seen, a.request);
  }

  lemma ActSoundIff(m: Machine, a: Action)
    requires Sound(m.project)
    ensures Sound(Act(m, a).project) <==> !WritesLate(m, a)
  {
    if a.Write? && a.tx in m.pending {
      WriteSoundIff(m.project, m.pending[a.tx]);
    }
  }

  lemma ActNext(m: Machine, actions: seq<Action>, k: nat)
    requires k < |actions|
    ensures ActAll(m, actions[..k + 1]) == Act(ActAll(m, actions[..k]), actions[k])
  {
    assert actions[..k + 1][..k] == actions[..k];
  }

  ghost predicate SoundThroughout(m: Machine, actions: seq<Action>) {
    forall k :: 0 <= k <= |actions| ==> Sound(ActAll(m, actions[..k]).project)
  }

  ghost predicate NeverLate(m: Machine, actions: seq<Action>) {
    forall k :: 0 <= k < |actions| ==> !WritesLate(ActAll(m, actions[..k]), actions[k])
  }

  lemma {:induction false} SoundUpTo(m: Machine, actions: seq<Action>, k: nat)
    requires Sound(m.project) && NeverLate(m, actions) && k <= |actions|
    ensures Sound(ActAll(m, actions[..k]).project)
  {
    if k > 0 {
      SoundUpTo(m, actions, k - 1);
      ActNext(m, actions, k - 1);
      ActSoundIff(ActAll(m, actions[..k - 1]), actions[k - 1]);
    }
  }

  /**
   Nothing locks the project. Whatever requests overlap, and however their checks and writes
   interleave: it stays sound throughout exactly when no write is late.
   */
  lemma SoundThroughoutIff(m: Machine, actions: seq<Action>)
    requires Sound(m.project)
    ensures SoundThroughout(m, actions) <==> NeverLate(m, actions)
  {
    if NeverLate(m, actions) {
      forall k | 0 <= k <= |actions| ensures Sound(ActAll(m, actions[..k]).project) {
        SoundUpTo(m, actions, k);
      }
    }
    if SoundThroughout(m, actions) {
      forall k | 0 <= k < |actions| ensures !WritesLate(ActAll(m, actions[..k]), actions[k]) {
        ActNext(m, actions, k);
        assert Sound(ActAll(m, actions[..k + 1]).project);
        ActSoundIff(ActAll(m, actions[..k]), actions[k]);
      }
    }
  }

  /** A write is in time if since its check the status is the same and, for a completion, nothing was opened. */
  lemma InTimeIfUnchanged(checked: State, s: State, r: Request)
    requires Allowed(checked, r) && s.status == checked.status
    requires Open(s.orders) ==> Open(checked.orders)
    ensures !Late(s, Accepted(checked.status, r))
  {
  }

  lemma SuspendedMeanwhile(s: State, actions: seq<Action>)
    requires s.status == Active && !Open(s.orders)
    requires |actions| >= 3 && actions[0] == Check(1, SetStatus(Completed))
    requires actions[1] == Check(2, SetStatus(Suspended)) && actions[2] == Write(2)
    ensures ActAll(Machine(s, map[]), actions[..3])
         == Machine(s.(status := Suspended), map[1 := Accepted(Active, SetStatus(Completed))])
  {
    ActNext(Machine(s, map[]), actions, 0);
    ActNext(Machine(s, map[]), actions, 1);
    ActNext(Machine(s, map[]), actions, 2);
  }

  lemma CompletedMeanwhile(m: Machine, s: State, actions: seq<Action>)
    requires s.status == Suspended && !Open(s.orders) && |actions| == 6
    requires ActAll(m, actions[..3]) == Machine(s, map[1 := Accepted(Active, SetStatus(Completed))])
    requires actions[3] == Check(3, SetStatus(Completed)) && actions[4] == Write(3) && actions[5] == Write(1)
    ensures ActAll(m, actions) == Machine(s.(status := Completed, completedEvents := s.completedEvents + 2), map[])
  {
    ActNext(m, actions, 3);
    ActNext(m, actions, 4);
    ActNext(m, actions, 5);
    assert actions[..6] == actions;
  }

  /** One completion checked before a suspension, one after it: both write, and two events are counted. */
  lemma StaggeredCompletionsPublishTwice(s: State)
    requires Sound(s) && s.status == Active && !Open(s.orders)
    ensures var actions := [Check(1, SetStatus(Completed)), Check(2, SetStatus(Suspended)), Write(2),
                            Check(3, SetStatus(Completed)), Write(3), Write(1)];
            ActAll(Machine(s, map[]), actions) == Machine(s.(status := Completed, completedEvents := 2), map[])
  {
    var actions := [Check(1, SetStatus(Completed)), Check(2, SetStatus(Suspended)), Write(2),
                    Check(3, SetStatus(Completed)), Write(3), Write(1)];
    SuspendedMeanwhile(s, actions);
    CompletedMeanwhile(Machine(s, map[]), s.(status := Suspended), actions);
  }

  /** Decides this order, and not so. */
  predicate DecidesOtherwise(a: Accepted, order: nat, decision: Decision) {
    Decides(a.request, order) && decision !=
      if a.request.ApproveOrder? then Agreed(a.request.esignature) else Declined
  }

  predicate Overwrites(m: Machine, a: Action, order: nat, decision: Decision) {
    a.Write? && a.tx in m.pending && DecidesOtherwise(m.pending[a.tx], order, decision)
  }

  predicate Reads(m: Machine, order: nat, decision: Decision) {
    order < |m.project.orders| && m.project.orders[order].decision == decision
  }

  lemma ActReadsIff(m: Machine, a: Action, order: nat, decision: Decision)
    requires Reads(m, order, decision)
    ensures Reads(Act(m, a), order, decision) <==> !Overwrites(m, a, order, decision)
  {
  }

  ghost predicate StandsThroughout(m: Machine, actions: seq<Action>, order: nat, decision: Decision) {
    forall k :: 0 <= k <= |actions| ==> Reads(ActAll(m, actions[..k]), order, decision)
  }

  ghost predicate NeverOverwritten(m: Machine, actions: seq<Action>, order: nat, decision: Decision) {
    forall k :: 0 <= k < |actions| ==> !Overwrites(ActAll(m, actions[..k]), actions[k], order, decision)
  }

  lemma {:induction false} StandsUpTo(m: Machine, actions: seq<Action>, k: nat, order: nat, decision: Decision)
    requires Reads(m, order, decision) && NeverOverwritten(m, actions, order, decision) && k <= |actions|
    ensures Reads(ActAll(m, actions[..k]), order, decision)
  {
    if k > 0 {
      StandsUpTo(m, actions, k - 1, order, decision);
      ActNext(m, actions, k - 1);
      ActReadsIff(ActAll(m, actions[..k - 1]), actions[k - 1], order, decision);
    }
  }

  /** However requests interleave, a decision stands throughout exactly when no other of its order is written. */
  lemma DecisionStandsIff(m: Machine, actions: seq<Action>, order: nat, decision: Decision)
    requires Reads(m, order, decision)
    ensures StandsThroughout(m, actions, order, decision) <==> NeverOverwritten(m, actions, order, decision)
  {
    if NeverOverwritten(m, actions, order, decision) {
      forall k | 0 <= k <= |actions| ensures Reads(ActAll(m, actions[..k]), order, decision) {
        StandsUpTo(m, actions, k, order, decision);
      }
    }
    if StandsThroughout(m, actions, order, decision) {
      forall k | 0 <= k < |actions|
        ensures !Overwrites(ActAll(m, actions[..k]), actions[k], order, decision)
      {
        ActNext(m, actions, k);
        assert Reads(ActAll(m, actions[..k + 1]), order, decision);
        ActReadsIff(ActAll(m, actions[..k]), actions[k], order, decision);
      }
    }
  }
}
