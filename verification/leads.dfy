/**
 A lead's pipeline: the transition table, the update handler and the LEAD_WON event, over
 every run of updates, one at a time or interleaved.
 */
module Leads {
  import opened Wrappers

  datatype Status = New | Contacted | Estimating | Qualified | Won | Lost

  /** The backend's table. */
  const TRANSITIONS: map<Status, set<Status>> := map[
    New := {Contacted, Lost},
    Contacted := {Estimating, Lost},
    Estimating := {Qualified, Lost},
    Qualified := {Won, Lost},
    Won := {},
    Lost := {}]

  /** The browser's copy of it, which decides the buttons shown. */
  const SHOWN_TRANSITIONS: map<Status, seq<Status>> := map[
    New := [Contacted, Lost],
    Contacted := [Estimating, Lost],
    Estimating := [Qualified, Lost],
    Qualified := [Won, Lost],
    Won := [],
    Lost := []]

  /** The breadcrumb; losing a lead is an exit, not a stage. */
  const PIPELINE: seq<Status> := [New, Contacted, Estimating, Qualified, Won]

  predicate IsLegalTransition(current: Status, next: Status) {
    current in TRANSITIONS && next in TRANSITIONS[current]
  }

  /** A button is shown exactly for a move the backend accepts. */
  lemma ButtonsAreLegalMoves(current: Status, next: Status)
    ensures current in SHOWN_TRANSITIONS
    ensures next in SHOWN_TRANSITIONS[current] <==> IsLegalTransition(current, next)
  {
    match current
    case New | Contacted | Estimating | Qualified | Won | Lost =>
  }

  type Fields = map<string, string>

  /** `history` is the audit log's status changes; `wonEvents` counts LEAD_WON, which drafts a project. */
  datatype State = State(status: Status, fields: Fields, history: seq<Status>, wonEvents: nat)

  /** A PATCH: the fields it sets, the status it asks for, and whether it is out of date. */
  datatype Update = Update(fields: Fields, status: Option<Status>, stale: bool)

  function Created(fields: Fields): State {
    State(New, fields, [], 0)
  }

  predicate Changes(s: State, u: Update) {
    u.status.Some? && u.status.value != s.status
  }

  predicate Refused(s: State, u: Update) {
    u.stale || (Changes(s, u) && !IsLegalTransition(s.status, u.status.value))
  }

  /** The writes of a handler that read the lead at status `seen`. */
  function WriteSeen(s: State, seen: Status, u: Update): State {
    if u.status.Some? && u.status.value != seen then
      var next := u.status.value;
      State(next, s.fields + u.fields, s.history + [next], if next == Won then s.wonEvents + 1 else s.wonEvents)
    else s.(fields := s.fields + u.fields)
  }

  function Exec(s: State, u: Update): State {
    if Refused(s, u) then s else WriteSeen(s, s.status, u)
  }

  function Run(s: State, updates: seq<Update>): State {
    if updates == [] then s else Exec(Run(s, updates[..|updates| - 1]), updates[|updates| - 1])
  }

  /**
   What an update comes to: nothing if it is out of date or asks for a move that is neither the
   next stage nor an exit from an open lead; else all of its fields, and the move if it is one.
   */
  lemma UpdateMeans(s: State, u: Update)
    ensures var moves := u.status.Some? && u.status.value != s.status;
            var open := s.status == New || s.status == Contacted || s.status == Estimating || s.status == Qualified;
            var next := match s.status case New => Contacted case Contacted => Estimating
                                       case Estimating => Qualified case _ => Won;
            if u.stale || (moves && !(open && (u.status.value == Lost || u.status.value == next)))
            then Exec(s, u) == s
            else Exec(s, u) == State(if moves then u.status.value else s.status, s.fields + u.fields,
                                     if moves then s.history + [u.status.value] else s.history,
                                     if moves && u.status.value == Won then s.wonEvents + 1 else s.wonEvents)
  {
  }

  class Lead {
    var status: Status
    var fields: Fields
    var history: seq<Status>
    var wonEvents: nat

    function Value(): State
      reads this
    {
      State(status, fields, history, wonEvents)
    }

    constructor (fields: Fields)
      ensures Value() == Created(fields)
    {
      status, this.fields, history, wonEvents := New, fields, [], 0;
    }

    /** The `setattr` loop. */
    method SetFields(update: Fields)
      modifies this`fields
      ensures fields == old(fields) + update
    {
      var todo := update.Keys;
      while todo != {}
        invariant todo <= update.Keys
        invariant fields == old(fields) + (map k | k in update.Keys - todo :: update[k])
      {
        var name :| name in todo;
        fields := fields[name := update[name]];
        todo := todo - {name};
      }
      assert update.Keys - {} == update.Keys;
      assert (map k | k in update.Keys :: update[k]) == update;
    }

    /** One transaction, one outcome: a refused update sets no field either. */
    method UpdateLead(u: Update) returns (ok: bool)
      modifies this
      ensures Value() == Exec(old(Value()), u) && ok == !Refused(old(Value()), u)
    {
      if u.stale {
        return false;
      }
      var changing := u.status.Some? && u.status.value != status;
      if changing && !IsLegalTransition(status, u.status.value) {
        return false;
      }
      SetFields(u.fields);
      if changing {
        status := u.status.value;
        history := history + [status];
        if status == Won {
          wonEvents := wonEvents + 1;
        }
      }
      return true;
    }
  }

  // ---------------------------------------------------------------- every run

  /** The changes so far are the first `n` steps of the pipeline, then possibly the exit. */
  predicate OnPipeline(s: State, n: nat) {
    n < |PIPELINE| &&
    if s.status == Lost then n < |PIPELINE| - 1 && s.history == PIPELINE[1..n + 1] + [Lost]
    else s.status == PIPELINE[n] && s.history == PIPELINE[1..n + 1]
  }

  ghost predicate Inv(s: State) {
    (exists n: nat :: OnPipeline(s, n)) && s.wonEvents == if s.status == Won then 1 else 0
  }

  lemma StepKeeps(s: State, u: Update)
    requires Inv(s)
    ensures Inv(Exec(s, u))
  {
    var n: nat :| OnPipeline(s, n);
    var t := Exec(s, u);
    if t.status == s.status {
      assert OnPipeline(t, n);
    } else if t.status == Lost {
      assert OnPipeline(t, n);
    } else {
      assert PIPELINE[1..n + 2] == PIPELINE[1..n + 1] + [PIPELINE[n + 1]];
      assert OnPipeline(t, n + 1);
    }
  }

  lemma {:induction false} RunKeeps(s: State, updates: seq<Update>)
    requires Inv(s)
    ensures Inv(Run(s, updates))
  {
    if updates != [] {
      RunKeeps(s, updates[..|updates| - 1]);
      StepKeeps(Run(s, updates[..|updates| - 1]), updates[|updates| - 1]);
    }
  }

  /**
   In every run LEAD_WON is published once if the lead is won and never otherwise, so a lead
   drafts at most one project; and a won lead went through every stage of the pipeline, in
   order, each once.
   */
  lemma WonOnceThroughThePipeline(fields: Fields, updates: seq<Update>)
    ensures var s := Run(Created(fields), updates);
            && s.wonEvents == (if s.status == Won then 1 else 0)
            && (s.status == Won ==> s.history == PIPELINE[1..])
            && (s.status == Lost ==> |s.history| > 0 && Won !in s.history)
  {
    assert OnPipeline(Created(fields), 0);
    RunKeeps(Created(fields), updates);
  }

  /** Won and lost are final; the other fields stay editable. */
  lemma {:induction false} ClosedIsFinal(s: State, updates: seq<Update>)
    requires s.status == Won || s.status == Lost
    ensures Run(s, updates).(fields := s.fields) == s
  {
    if updates != [] {
      ClosedIsFinal(s, updates[..|updates| - 1]);
    }
  }

  // ---------------------------------------------------------------- two updates at once

  predicate WonOnce(s: State) {
    s.wonEvents == if s.status == Won then 1 else 0
  }

  /**
   No handler locks the lead. Of two accepted updates that overlap, LEAD_WON stays once for a
   won lead and never for another exactly unless the first to write wins it and the second
   changes its status too.
   */
  lemma OverlapWinsOnceIff(s: State, u: Update, v: Update)
    requires WonOnce(s) && !Refused(s, u) && !Refused(s, v)
    ensures WonOnce(WriteSeen(WriteSeen(s, s.status, u), s.status, v))
       <==> !(Changes(s, u) && u.status.value == Won && Changes(s, v))
  {
  }

  // ---------------------------------------------------------------- any number of updates at once

  /** An update that was accepted on the status it read, and has yet to write. */
  datatype Accepted = Accepted(seen: Status, update: Update)

  datatype Machine = Machine(lead: State, pending: map<nat, Accepted>)

  /** Updates are named by their transactions; each reads and checks once, and later writes and commits. */
  datatype Action = Check(tx: nat, update: Update) | Write(tx: nat)

  function Act(m: Machine, a: Action): Machine {
    match a
    case Check(tx, u) =>
      if tx !in m.pending && !Refused(m.lead, u)
        then m.(pending := m.pending[tx := Accepted(m.lead.status, u)])
        else m
    case Write(tx) =>
      if tx in m.pending
        then Machine(WriteSeen(m.lead, m.pending[tx].seen, m.pending[tx].update), m.pending - {tx})
        else m
  }

  function ActAll(m: Machine, actions: seq<Action>): Machine {
    if actions == [] then m else Act(ActAll(m, actions[..|actions| - 1]), actions[|actions| - 1])
  }

  lemma ActNext(m: Machine, actions: seq<Action>, k: nat)
    requires k < |actions|
    ensures ActAll(m, actions[..k + 1]) == Act(ActAll(m, actions[..k]), actions[k])
  {
    assert actions[..k + 1][..k] == actions[..k];
  }

  /** An update with nothing between its check and its writes is the update run alone. */
  lemma CheckThenWrite(m: Machine, tx: nat, u: Update)
    ensures tx !in m.pending ==> Act(Act(m, Check(tx, u)), Write(tx)) == Machine(Exec(m.lead, u), m.pending)
    ensures tx in m.pending ==> Act(m, Check(tx, u)) == m
  {
    assert tx !in m.pending ==> m.pending - {tx} == m.pending;
  }

  /** A change of status, as its handler saw it, that lands on a lead won meanwhile. */
  predicate WritesLate(m: Machine, a: Action) {
    && a.Write? && a.tx in m.pending && m.lead.status == Won
    && var u := m.pending[a.tx].update; u.status.Some? && u.status.value != m.pending[a.tx].seen
  }

  ghost predicate WonOnceThroughout(m: Machine, actions: seq<Action>) {
    forall k :: 0 <= k <= |actions| ==> WonOnce(ActAll(m, actions[..k]).lead)
  }

  ghost predicate NeverLate(m: Machine, actions: seq<Action>) {
    forall k :: 0 <= k < |actions| ==> !WritesLate(ActAll(m, actions[..k]), actions[k])
  }

  lemma ActWonOnceIff(m: Machine, a: Action)
    requires WonOnce(m.lead)
    ensures WonOnce(Act(m, a).lead) <==> !WritesLate(m, a)
  {
  }

  lemma {:induction false} WonOnceUpTo(m: Machine, actions: seq<Action>, k: nat)
    requires WonOnce(m.lead) && NeverLate(m, actions) && k <= |actions|
    ensures WonOnce(ActAll(m, actions[..k]).lead)
  {
    if k > 0 {
      WonOnceUpTo(m, actions, k - 1);
      ActNext(m, actions, k - 1);
      ActWonOnceIff(ActAll(m, actions[..k - 1]), actions[k - 1]);
    }
  }

  /**
   Nothing locks the lead. Whatever updates overlap, and however their checks and writes
   interleave: LEAD_WON was published once for a won lead and never for another, throughout,
   exactly when no change of status lands on a lead already won.
   */
  lemma WonOnceThroughoutIff(m: Machine, actions: seq<Action>)
    requires WonOnce(m.lead)
    ensures WonOnceThroughout(m, actions) <==> NeverLate(m, actions)
  {
    if NeverLate(m, actions) {
      forall k | 0 <= k <= |actions| ensures WonOnce(ActAll(m, actions[..k]).lead) {
        WonOnceUpTo(m, actions, k);
      }
    }
    if WonOnceThroughout(m, actions) {
      forall k | 0 <= k < |actions| ensures !WritesLate(ActAll(m, actions[..k]), actions[k]) {
        ActNext(m, actions, k);
        assert WonOnce(ActAll(m, actions[..k + 1]).lead);
        ActWonOnceIff(ActAll(m, actions[..k]), actions[k]);
      }
    }
  }
}
