/**
 One tab's session: the access token in memory, the refresh timer, the in-flight refresh
 promise the tab's calls share, and the generation counter that outdates them.

 The class is the provider, field by field. Its methods are specified by functions on its
 value, and runs are sequences of the events that reach it while it stays mounted.
 */
module Session {
  import opened Wrappers

  type AccessToken = nat
  type Timer = nat

  datatype Outcome = Refreshed(token: AccessToken) | Unauthenticated | Unreachable

  /** A call awaiting a refresh: from a timer or from the mount, with the generation it began in. */
  datatype Call = Call(timer: bool, generation: nat)

  /** The promise in flight: the generation its request began in, and the calls sharing it. */
  datatype Promise = Promise(began: nat, calls: seq<Call>)

  datatype View = View(
    token: Option<AccessToken>,
    unreachable: bool,
    timers: set<Timer>,             // timeouts that will still fire
    timerRef: Option<Timer>,        // the last one set; never unset, fired or cleared
    nextTimer: Timer,
    generation: nat,
    inFlight: Option<Promise>,
    ready: seq<(Call, Outcome)>)    // settled calls whose continuations have yet to run

  datatype Event =
    | SetSession(token: AccessToken)
    | ClearSession
    | Fire(timer: Timer)
    | Online
    | Settle(outcome: Outcome)
    | Resume

  function Cleared(v: View): View {
    v.(generation := v.generation + 1, timers := Disarmed(v), unreachable := false, token := None)
  }

  /** `clearTimeout(ref)`, when the ref was ever set. */
  function Disarmed(v: View): set<Timer> {
    if v.timerRef.Some? then v.timers - {v.timerRef.value} else v.timers
  }

  function Scheduled(v: View): View {
    v.(timers := Disarmed(v) + {v.nextTimer}, timerRef := Some(v.nextTimer), nextTimer := v.nextTimer + 1)
  }

  function WithSession(v: View, token: AccessToken): View {
    Scheduled(v.(generation := v.generation + 1, unreachable := false, token := Some(token)))
  }

  /** `coordinatedRefresh`: share the promise in flight, or start one. */
  function Joined(v: View, call: Call): View {
    v.(inFlight := Some(match v.inFlight
                        case Some(p) => p.(calls := p.calls + [call])
                        case None => Promise(v.generation, [call])))
  }

  /** A call's continuation, once its refresh has settled. */
  function Continued(v: View, call: Call, outcome: Outcome): View {
    if call.generation != v.generation then v
    else match outcome
      case Refreshed(token) =>
        if call.timer then Scheduled(v.(unreachable := false, token := Some(token))) else WithSession(v, token)
      case Unauthenticated => if call.timer then Cleared(v) else v
      case Unreachable => Scheduled(v.(unreachable := true))
  }

  function Ready(calls: seq<Call>, outcome: Outcome): seq<(Call, Outcome)> {
    seq(|calls|, i requires 0 <= i < |calls| => (calls[i], outcome))
  }

  /** The event a state cannot have leaves it alone. */
  function Exec(v: View, e: Event): View {
    match e
    case SetSession(token) => WithSession(v, token)
    case ClearSession => Cleared(v)
    case Fire(timer) =>
      if timer in v.timers then Joined(v.(timers := v.timers - {timer}), Call(true, v.generation)) else v
    case Online => if v.token.None? then Scheduled(v) else v
    case Settle(outcome) =>
      if v.inFlight.Some? then v.(inFlight := None, ready := v.ready + Ready(v.inFlight.value.calls, outcome)) else v
    case Resume =>
      if v.ready == [] then v else Continued(v.(ready := v.ready[1..]), v.ready[0].0, v.ready[0].1)
  }

  function Run(v: View, events: seq<Event>): View {
    if events == [] then v else Exec(Run(v, events[..|events| - 1]), events[|events| - 1])
  }

  /** Just mounted: the hydrating refresh is on its way. */
  function Mounted(): View {
    View(None, false, {}, None, 0, 0, Some(Promise(0, [Call(false, 0)])), [])
  }

  // ---------------------------------------------------------------- the provider

  class Provider {
    var token: Option<AccessToken>
    var unreachable: bool
    var timers: set<Timer>
    var refreshTimerRef: Option<Timer>
    var nextTimer: Timer
    var sessionGenerationRef: nat
    var inFlightRefreshRef: Option<Promise>
    var ready: seq<(Call, Outcome)>

    function Value(): View
      reads this
    {
      View(token, unreachable, timers, refreshTimerRef, nextTimer, sessionGenerationRef, inFlightRefreshRef, ready)
    }

    constructor ()
      ensures Value() == Mounted()
    {
      token, unreachable, timers, refreshTimerRef, nextTimer := None, false, {}, None, 0;
      sessionGenerationRef, ready := 0, [];
      inFlightRefreshRef := None;
      new;
      CoordinatedRefresh(Call(false, sessionGenerationRef));
    }

    method CoordinatedRefresh(call: Call)
      modifies this
      ensures Value() == Joined(old(Value()), call)
    {
      if inFlightRefreshRef.Some? {
        var promise := inFlightRefreshRef.value;
        inFlightRefreshRef := Some(promise.(calls := promise.calls + [call]));
        return;
      }
      inFlightRefreshRef := Some(Promise(sessionGenerationRef, [call]));
    }

    method ClearTimeout()
      modifies this
      ensures Value() == old(Value()).(timers := Disarmed(old(Value())))
    {
      if refreshTimerRef.Some? {
        timers := timers - {refreshTimerRef.value};
      }
    }

    method ClearSession()
      modifies this
      ensures Value() == Exec(old(Value()), Event.ClearSession)
    {
      sessionGenerationRef := sessionGenerationRef + 1;
      ClearTimeout();
      unreachable := false;
      token := None;
    }

    method ScheduleRefresh()
      modifies this
      ensures Value() == Scheduled(old(Value()))
    {
      ClearTimeout();
      timers := timers + {nextTimer};
      refreshTimerRef := Some(nextTimer);
      nextTimer := nextTimer + 1;
    }

    method SetSession(accessToken: AccessToken)
      modifies this
      ensures Value() == Exec(old(Value()), Event.SetSession(accessToken))
    {
      sessionGenerationRef := sessionGenerationRef + 1;
      unreachable := false;
      token := Some(accessToken);
      ScheduleRefresh();
    }

    method HandleOnline()
      modifies this
      ensures Value() == Exec(old(Value()), Online)
    {
      if token.Some? {
        return;
      }
      ScheduleRefresh();
    }

    /** The timeout's callback up to its `await`. */
    method TimerFires(timer: Timer)
      requires timer in timers
      modifies this
      ensures Value() == Exec(old(Value()), Fire(timer))
    {
      timers := timers - {timer};
      CoordinatedRefresh(Call(true, sessionGenerationRef));
    }

    /** The promise settles: first the ref is cleared, then its callers are queued. */
    method PromiseSettles(outcome: Outcome)
      requires inFlightRefreshRef.Some?
      modifies this
      ensures Value() == Exec(old(Value()), Settle(outcome))
    {
      var calls := inFlightRefreshRef.value.calls;
      inFlightRefreshRef := None;
      ready := ready + Ready(calls, outcome);
    }

    /** The rest of the oldest queued callback, after its `await`. */
    method CallResumes()
      requires ready != []
      modifies this
      ensures Value() == Exec(old(Value()), Resume)
    {
      var call, outcome := ready[0].0, ready[0].1;
      ready := ready[1..];
      if sessionGenerationRef != call.generation {
        return;
      }
      match outcome {
        case Unauthenticated =>
          if call.timer {
            ClearSession();
          }
        case Unreachable =>
          unreachable := true;
          ScheduleRefresh();
        case Refreshed(accessToken) =>
          if call.timer {
            unreachable := false;
            token := Some(accessToken);
            ScheduleRefresh();
          } else {
            SetSession(accessToken);
          }
      }
    }
  }

  // ---------------------------------------------------------------- every run

  ghost predicate RefreshUnderWay(v: View) {
    || (v.inFlight.Some? && Call(true, v.generation) in v.inFlight.value.calls)
    || exists i :: 0 <= i < |v.ready| && v.ready[i].0 == Call(true, v.generation)
  }

  ghost predicate Inv(v: View) {
    && (forall t :: t in v.timers ==> v.timerRef == Some(t))
    && (v.inFlight.Some? ==> v.inFlight.value.began <= v.generation)
    && (v.inFlight.Some? ==>
          forall c :: c in v.inFlight.value.calls ==> v.inFlight.value.began <= c.generation <= v.generation)
    && (forall i :: 0 <= i < |v.ready| ==> v.ready[i].0.generation <= v.generation)
    && (v.token.Some? || v.unreachable ==> v.timers != {} || RefreshUnderWay(v))
  }

  lemma SettleKeeps(v: View, outcome: Outcome)
    requires Inv(v) && v.inFlight.Some?
    ensures Inv(Exec(v, Settle(outcome)))
  {
    var n := Exec(v, Settle(outcome));
    var calls := v.inFlight.value.calls;
    assert forall i :: 0 <= i < |v.ready| ==> n.ready[i] == v.ready[i];
    assert forall i :: 0 <= i < |calls| ==> n.ready[|v.ready| + i] == (calls[i], outcome);
  }

  lemma ResumeKeeps(v: View)
    requires Inv(v) && v.ready != []
    ensures Inv(Exec(v, Resume))
  {
    var n := Exec(v, Resume);
    assert forall i :: 0 < i < |v.ready| ==> v.ready[1..][i - 1] == v.ready[i];
    if v.ready[0].0 == Call(true, v.generation) {
      assert v.ready[0].1 != Unauthenticated ==> v.nextTimer in n.timers;
    } else if RefreshUnderWay(v) {
      assert RefreshUnderWay(v.(ready := v.ready[1..]));
    }
  }

  lemma FireKeeps(v: View, timer: Timer)
    requires Inv(v) && timer in v.timers
    ensures Inv(Exec(v, Fire(timer)))
  {
    var n := Exec(v, Fire(timer));
    var calls := n.inFlight.value.calls;
    assert calls[|calls| - 1] == Call(true, v.generation);
  }

  lemma StepKeeps(v: View, e: Event)
    requires Inv(v)
    ensures Inv(Exec(v, e))
  {
    match e
    case Settle(outcome) => if v.inFlight.Some? { SettleKeeps(v, outcome); }
    case Resume => if v.ready != [] { ResumeKeeps(v); }
    case Fire(timer) => if timer in v.timers { FireKeeps(v, timer); }
    case SetSession(_) => assert v.nextTimer in Exec(v, e).timers;
    case Online => if v.token.None? { assert v.nextTimer in Exec(v, e).timers; }
    case ClearSession =>
  }

  lemma {:induction false} RunKeeps(v: View, events: seq<Event>)
    requires Inv(v)
    ensures Inv(Run(v, events))
  {
    if events != [] {
      RunKeeps(v, events[..|events| - 1]);
      StepKeeps(Run(v, events[..|events| - 1]), events[|events| - 1]);
    }
  }

  /**
   In every run from the mount: at most one timer is pending, and a tab that has a token, or
   that reports the server unreachable, has a timer pending or a refresh of the current
   generation under way. It never silently stops refreshing.
   */
  lemma KeepsRefreshing(events: seq<Event>)
    ensures var v := Run(Mounted(), events);
            && (forall t, u :: t in v.timers && u in v.timers ==> t == u)
            && (v.token.Some? || v.unreachable ==> v.timers != {} || RefreshUnderWay(v))
  {
    RunKeeps(Mounted(), events);
  }

  /**
   A token is dropped exactly by an explicit clear, and by a refusal to a timer's refresh of
   the current generation. In particular never because the server was unreachable.
   */
  lemma TokenDropsExactlyWhen(v: View, e: Event)
    requires v.token.Some?
    ensures Exec(v, e).token.None? <==>
              || e == ClearSession
              || (e == Resume && v.ready != [] && v.ready[0] == (Call(true, v.generation), Unauthenticated))
  {
    if e == Resume && v.ready != [] {
      var call, outcome := v.ready[0].0, v.ready[0].1;
      assert v.ready[0] == (call, outcome);
    }
  }

  /** What a call of the current generation does with its outcome; any other does nothing. */
  lemma OutcomeShows(v: View)
    requires v.ready != []
    ensures var (call, outcome) := v.ready[0]; var n := Exec(v, Resume);
            && n.ready == v.ready[1..]
            && (call.generation != v.generation ==> n.(ready := v.ready) == v)
            && (call.generation == v.generation ==>
                  match outcome
                  case Refreshed(token) => n.token == Some(token) && !n.unreachable && n.timers != {}
                  case Unauthenticated => if call.timer then n.token.None? && !n.unreachable else n.token == v.token
                  case Unreachable => n.token == v.token && n.unreachable && n.timers != {})
  {
    var n := Exec(v, Resume);
    assert v.ready[0].0.generation == v.generation && v.ready[0].1 != Unauthenticated ==> v.nextTimer in n.timers;
  }

  /** What starts a new generation, and nothing else does. */
  lemma GenerationMovesExactlyWhen(v: View, e: Event)
    ensures var current := e == Resume && v.ready != [] && v.ready[0].0.generation == v.generation;
            var moves := e.SetSession? || e.ClearSession?
                           || (current && if v.ready[0].0.timer then v.ready[0].1.Unauthenticated?
                                          else v.ready[0].1.Refreshed?);
            Exec(v, e).generation == v.generation + if moves then 1 else 0
  {
  }

  /** The hydrating refresh: success signs in, a refusal is neither session nor clear, an unreachable server a retry. */
  lemma HydrationShows(outcome: Outcome)
    ensures var n := Exec(Exec(Mounted(), Settle(outcome)), Resume);
            && n.inFlight.None? && n.ready == []
            && match outcome
               case Refreshed(token) => n.token == Some(token) && n.timers != {} && !n.unreachable
               case Unauthenticated =>
                 n.token.None? && n.timers == {} && !n.unreachable && n.generation == Mounted().generation
               case Unreachable => n.token.None? && n.timers != {} && n.unreachable
  {
    var n := Exec(Exec(Mounted(), Settle(outcome)), Resume);
    assert outcome != Unauthenticated ==> Mounted().nextTimer in n.timers;
  }

  /** A request that has settled is over: the next timer starts another, for this generation. */
  lemma SettledIsOver(v: View, outcome: Outcome, timer: Timer)
    requires v.inFlight.Some? && timer in v.timers
    ensures var n := Exec(Exec(v, Settle(outcome)), Fire(timer));
            && n.inFlight == Some(Promise(v.generation, [Call(true, v.generation)]))
            && timer !in n.timers && |n.ready| == |v.ready| + |v.inFlight.value.calls|
  {
    assert [] + [Call(true, v.generation)] == [Call(true, v.generation)];
  }

  ghost predicate TimersPast(v: View) {
    v.timerRef.Some? ==> v.timerRef.value < v.nextTimer
  }

  lemma {:induction false} RunTimersPast(events: seq<Event>)
    ensures TimersPast(Run(Mounted(), events))
  {
    if events != [] {
      RunTimersPast(events[..|events| - 1]);
    }
  }

  /**
   After any run: back online, a tab with a token does nothing, and one without sets a timer
   that is not the one it had, which is cleared.
   */
  lemma OnlineRetriesWithoutToken(events: seq<Event>)
    ensures var v := Run(Mounted(), events); var n := Exec(v, Online);
            if v.token.Some? then n == v
            else
              && n == v.(timers := n.timers, timerRef := n.timerRef, nextTimer := n.nextTimer)
              && exists t :: n.timers == {t} && t !in v.timers
  {
    RunKeeps(Mounted(), events);
    RunTimersPast(events);
    var v := Run(Mounted(), events);
    if v.token.None? {
      assert Exec(v, Online).timers == {v.nextTimer} && v.nextTimer !in v.timers;
    }
  }

  // ---------------------------------------------------------------- after a sign-in

  /** Signed in with this token, and no call of this generation is under way. */
  ghost predicate SignedIn(v: View, token: AccessToken) {
    && v.token == Some(token)
    && (v.inFlight.Some? ==> forall c :: c in v.inFlight.value.calls ==> c.generation < v.generation)
    && forall i :: 0 <= i < |v.ready| ==> v.ready[i].0.generation < v.generation
  }

  lemma {:induction false} RunSignedIn(v: View, token: AccessToken, events: seq<Event>)
    requires SignedIn(v, token)
    requires forall e :: e in events ==> !e.SetSession? && !e.ClearSession? && !e.Fire?
    ensures SignedIn(Run(v, events), token)
  {
    if events != [] {
      RunSignedIn(v, token, events[..|events| - 1]);
    }
  }

  /**
   A sign-in, at any point of any run, outdates every refresh in flight: whatever these answer,
   its token stays until the next sign-in or clear, or until its own timer fires.
   */
  lemma SignInOutdatesRefreshes(before: seq<Event>, token: AccessToken, after: seq<Event>)
    requires forall e :: e in after ==> !e.SetSession? && !e.ClearSession? && !e.Fire?
    ensures Run(Exec(Run(Mounted(), before), SetSession(token)), after).token == Some(token)
  {
    RunKeeps(Mounted(), before);
    RunSignedIn(Exec(Run(Mounted(), before), SetSession(token)), token, after);
  }

  // ---------------------------------------------------------------- after a clear

  /** Nothing pending that could bring a session back. */
  ghost predicate Over(v: View) {
    && v.token.None? && v.timers == {}
    && (v.inFlight.Some? ==> forall c :: c in v.inFlight.value.calls ==> c.generation < v.generation)
    && forall i :: 0 <= i < |v.ready| ==> v.ready[i].0.generation < v.generation
  }

  predicate Restarts(e: Event) {
    e.SetSession? || e.Online?
  }

  lemma StepOver(v: View, e: Event)
    requires Over(v) && !Restarts(e)
    ensures Over(Exec(v, e))
  {
  }

  lemma {:induction false} RunOver(v: View, events: seq<Event>)
    requires Over(v) && forall e :: e in events ==> !Restarts(e)
    ensures Over(Run(v, events))
  {
    if events != [] {
      RunOver(v, events[..|events| - 1]);
      StepOver(Run(v, events[..|events| - 1]), events[|events| - 1]);
    }
  }

  /**
   Once cleared, at any point of any run, the session stays cleared through whatever was in
   flight, until someone signs in or the browser comes back online.
   */
  lemma ClearedStaysCleared(before: seq<Event>, after: seq<Event>)
    requires forall e :: e in after ==> !Restarts(e)
    ensures Run(Cleared(Run(Mounted(), before)), after).token.None?
  {
    RunKeeps(Mounted(), before);
    assert Over(Cleared(Run(Mounted(), before)));
    RunOver(Cleared(Run(Mounted(), before)), after);
  }

  /** Every queued continuation run, oldest first. */
  function Drained(v: View): View
    decreases |v.ready|
  {
    if v.ready == [] then v
    else
      var n := Exec(v, Resume);
      assert n.ready == v.ready[1..];
      Drained(n)
  }

  ghost predicate AllSucceeded(ready: seq<(Call, Outcome)>) {
    forall i :: 0 <= i < |ready| ==> ready[i].1.Refreshed?
  }

  lemma {:induction false} DrainedKeepsToken(v: View)
    requires v.token.Some? && AllSucceeded(v.ready)
    ensures Drained(v).token.Some?
    decreases |v.ready|
  {
    if v.ready != [] {
      DrainedKeepsToken(Exec(v, Resume));
    }
  }

  /** Draining successes gives a session exactly if one of the calls is of this generation. */
  lemma {:induction false} DrainedRestores(v: View)
    requires v.token.None? && AllSucceeded(v.ready)
    ensures Drained(v).token.Some? <==> exists i :: 0 <= i < |v.ready| && v.ready[i].0.generation == v.generation
    decreases |v.ready|
  {
    if v.ready != [] {
      var n := Exec(v, Resume);
      if v.ready[0].0.generation == v.generation {
        DrainedKeepsToken(n);
      } else {
        assert forall i :: 0 < i < |v.ready| ==> n.ready[i - 1] == v.ready[i];
        DrainedRestores(n);
      }
    }
  }

  /** A queue of calls, all with one outcome, has one of this generation if the calls have. */
  lemma ReadyOfGeneration(calls: seq<Call>, outcome: Outcome, generation: nat)
    ensures (exists i :: 0 <= i < |Ready(calls, outcome)| && Ready(calls, outcome)[i].0.generation == generation)
       <==> (exists c :: c in calls && c.generation == generation)
  {
    var ready := Ready(calls, outcome);
    if i :| 0 <= i < |ready| && ready[i].0.generation == generation {
      assert calls[i] in calls && calls[i].generation == generation;
    }
    if c :| c in calls && c.generation == generation {
      var i :| 0 <= i < |calls| && calls[i] == c;
      assert ready[i].0.generation == generation;
    }
  }

  /**
   A request that began before the session was cleared, and succeeds after it, restores a
   session exactly when some call joined it after the clear.
   */
  lemma EarlierRequestRestoresIff(v: View, token: AccessToken)
    requires Inv(v) && v.token.None? && v.ready == []
    requires v.inFlight.Some? && v.inFlight.value.began < v.generation
    ensures Drained(Exec(v, Settle(Refreshed(token)))).token.Some? <==>
              exists c :: c in v.inFlight.value.calls && c.generation == v.generation
  {
    var calls := v.inFlight.value.calls;
    var settled := Exec(v, Settle(Refreshed(token)));
    assert settled.ready == Ready(calls, Refreshed(token)) && settled.generation == v.generation;
    DrainedRestores(settled);
    ReadyOfGeneration(calls, Refreshed(token), v.generation);
  }

  lemma {:induction false} RunCons(v: View, e: Event, rest: seq<Event>)
    ensures Run(v, [e] + rest) == Run(Exec(v, e), rest)
  {
    var all := [e] + rest;
    if rest == [] {
      assert all[..|all| - 1] == [] && all[|all| - 1] == e;
    } else {
      RunCons(v, e, rest[..|rest| - 1]);
      assert all[..|all| - 1] == [e] + rest[..|rest| - 1];
    }
  }

  /** A live session, with its timer pending and nothing in flight. */
  predicate Idle(v: View) {
    v.token.Some? && v.timerRef.Some? && v.timers == {v.timerRef.value} && v.inFlight.None? && v.ready == []
  }

  /** The timer fires; then a clear, an `online` event, and its immediate timer. */
  function ClearAndOnline(v: View): seq<Event>
    requires Idle(v)
  {
    [Fire(v.timerRef.value)] + ([ClearSession] + ([Online] + [Fire(v.nextTimer)]))
  }

  lemma JoinedAfterClear(v: View)
    requires Idle(v)
    ensures var n := Run(v, ClearAndOnline(v));
            && n.token.None? && n.ready == [] && n.generation == v.generation + 1
            && n.inFlight == Some(Promise(v.generation, [Call(true, v.generation)] + [Call(true, v.generation + 1)]))
  {
    var v1 := Exec(v, Fire(v.timerRef.value));
    assert v1.inFlight == Some(Promise(v.generation, [Call(true, v.generation)])) && v1.timers == {};
    var v2 := Exec(v1, ClearSession);
    var v3 := Exec(v2, Online);
    assert v.nextTimer in v3.timers;
    RunCons(v, Fire(v.timerRef.value), [ClearSession] + ([Online] + [Fire(v.nextTimer)]));
    RunCons(v1, ClearSession, [Online] + [Fire(v.nextTimer)]);
    RunCons(v2, Online, [Fire(v.nextTimer)]);
    assert Run(v3, []) == v3;
  }

  /** And it happens: an `online` event is enough to join the request that was in flight. */
  lemma ClearedSessionComesBack(before: seq<Event>, token: AccessToken)
    requires Idle(Run(Mounted(), before))
    ensures var v := Run(Mounted(), before);
            Drained(Exec(Run(v, ClearAndOnline(v)), Settle(Refreshed(token)))).token.Some?
  {
    var v := Run(Mounted(), before);
    RunKeeps(Mounted(), before);
    RunKeeps(v, ClearAndOnline(v));
    JoinedAfterClear(v);
    var n := Run(v, ClearAndOnline(v));
    assert n.inFlight.value.calls[1].generation == n.generation;
    EarlierRequestRestoresIff(n, token);
  }
}
