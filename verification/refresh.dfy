/**
 Many tabs refreshing one session: single-use tokens on the server, one cookie in the
 browser, and an origin-wide lock around each refresh request.

 A schedule is any sequence of the actions below, so it covers every interleaving of
 timers, mounts, lock grants, server answers and failures; an action that is not possible
 in a state leaves the state alone.
 */
module TabRefresh {
  import opened Wrappers

  type Tab = nat
  type RequestId = nat

  /** The tokens of the family, numbered in the order they were minted. */
  type Token = nat

  /** What the tab's own in-flight promise is doing. */
  datatype Phase = Queued | Waiting(request: RequestId)

  datatype Kind = Refresh | SwitchCompany

  /** What the route handler in front of the backend answers. */
  datatype Reply =
    | Rotated(token: Token)   // 200, and sets the cookie
    | Refused                 // 401 or 403 from the backend
    | Down                    // 502: the backend could not be reached, or its answer was lost
    | NoSession               // 401 without asking the backend: no cookie was sent

  datatype Request = Request(kind: Kind, token: Option<Token>, reply: Option<Reply>)

  /** How the backend fares with a request; Declines is an expired token or a lost membership. */
  datatype Backend = Answers | Declines | NeverAsked | AnswerLost

  datatype State = State(
    locks: bool,                          // the browser has the Web Locks API
    cookie: Option<Token>,
    minted: nat,                          // tokens 0 to minted - 1 exist; the last is the head
    spent: set<Token>,                    // rotated or revoked
    reuses: nat,                          // times the server took a request for a replay
    holder: Option<Tab>,
    tabs: map<Tab, Phase>,                // tabs with a refresh in flight
    requests: map<RequestId, Request>)    // requests on their way, or answers on theirs

  datatype Action =
    | Start(tab: Tab)                                // timer, mount or `online`
    | Grant(tab: Tab, id: RequestId)                 // the lock is granted and the request goes out
    | Serve(id: RequestId, backend: Backend)
    | Deliver(tab: Tab)                              // the answer arrives, and the lock is released
    | Fail(tab: Tab)                                 // the request never left the browser
    | Abandon(tab: Tab)                              // the tab goes, or loses the answer; the lock is released
    | Switch(id: RequestId)                          // the company switcher, which takes no lock
    | SwitchDone(id: RequestId)

  function Init(locks: bool): State {
    State(locks, Some(0), 1, {}, 0, None, map[], map[])
  }

  predicate WaitingFor(s: State, tab: Tab) {
    tab in s.tabs && s.tabs[tab].Waiting? && s.tabs[tab].request in s.requests
  }

  predicate Enabled(s: State, a: Action) {
    match a
    case Start(tab) => tab !in s.tabs   // a tab with a promise in flight shares it
    case Grant(tab, id) => tab in s.tabs && s.tabs[tab].Queued? && id !in s.requests && (s.locks ==> s.holder.None?)
    case Serve(id, _) => id in s.requests && s.requests[id].reply.None?
    case Deliver(tab) => WaitingFor(s, tab) && s.requests[s.tabs[tab].request].reply.Some?
    case Fail(tab) => WaitingFor(s, tab) && s.requests[s.tabs[tab].request].reply.None?
    case Abandon(tab) => WaitingFor(s, tab)
    case Switch(id) => id !in s.requests
    case SwitchDone(id) => id in s.requests && s.requests[id].kind == SwitchCompany && s.requests[id].reply.Some?
  }

  function Upto(n: nat): (tokens: set<Token>)
    ensures forall t: Token :: t in tokens <==> t < n
  {
    if n == 0 then {} else Upto(n - 1) + {n - 1}
  }

  /** The backend and the route handler on one request. */
  function Served(s: State, id: RequestId, backend: Backend): State
    requires id in s.requests
  {
    var r := s.requests[id];
    var answered := reply => s.requests[id := r.(reply := Some(reply))];
    if r.token.None? then s.(requests := answered(NoSession))
    else if backend == NeverAsked then s.(requests := answered(Down))
    else if r.token.value in s.spent then
      // Taken for a replay: the whole family goes, and that is committed before the 401.
      s.(requests := answered(if backend == AnswerLost then Down else Refused),
         reuses := s.reuses + 1,
         spent := Upto(s.minted))
    else if backend == Declines || r.token.value >= s.minted then s.(requests := answered(Refused))
    else
      s.(requests := answered(if backend == AnswerLost then Down else Rotated(s.minted)),
         minted := s.minted + 1,
         spent := s.spent + {r.token.value})
  }

  /** What an answer does to the cookie. A refresh that fails in any way deletes it. */
  function CookieAfter(s: State, r: Request): Option<Token>
    requires r.reply.Some?
  {
    match r.reply.value
    case Rotated(token) => Some(token)
    case NoSession => s.cookie
    case _ => if r.kind == Refresh then None else s.cookie
  }

  /** The tab is done with its request and lets go of the lock. */
  function Leave(s: State, tab: Tab): State {
    s.(tabs := s.tabs - {tab}, holder := if s.holder == Some(tab) then None else s.holder)
  }

  function Apply(s: State, a: Action): State
    requires Enabled(s, a)
  {
    match a
    case Start(tab) => s.(tabs := s.tabs[tab := Queued])
    case Grant(tab, id) =>
      s.(tabs := s.tabs[tab := Waiting(id)],
         holder := if s.locks then Some(tab) else s.holder,
         requests := s.requests[id := Request(Refresh, s.cookie, None)])
    case Serve(id, backend) => Served(s, id, backend)
    case Deliver(tab) =>
      var id := s.tabs[tab].request;
      Leave(s, tab).(cookie := CookieAfter(s, s.requests[id]), requests := s.requests - {id})
    case Fail(tab) => Leave(s, tab).(requests := s.requests - {s.tabs[tab].request})
    case Abandon(tab) => Leave(s, tab)
    case Switch(id) => s.(requests := s.requests[id := Request(SwitchCompany, s.cookie, None)])
    case SwitchDone(id) => s.(cookie := CookieAfter(s, s.requests[id]), requests := s.requests - {id})
  }

  function Exec(s: State, a: Action): State {
    if Enabled(s, a) then Apply(s, a) else s
  }

  function Run(s: State, schedule: seq<Action>): State {
    if schedule == [] then s else Exec(Run(s, schedule[..|schedule| - 1]), schedule[|schedule| - 1])
  }

  /** Every answer arrives before its lock is released, and only refreshes touch the token. */
  predicate Orderly(schedule: seq<Action>) {
    forall a :: a in schedule ==> !a.Abandon? && !a.Switch?
  }

  // ---------------------------------------------------------------- orderly runs

  predicate IsHead(s: State, token: Token) {
    token + 1 == s.minted && token !in s.spent
  }

  /** With at most one request about, owned by the lock holder, nothing carries a spent token. */
  ghost predicate Inv(s: State) {
    && s.locks
    && (forall t :: t in s.spent ==> t < s.minted)
    && (forall t :: t in s.tabs && s.tabs[t].Waiting? ==> s.holder == Some(t) && s.tabs[t].request in s.requests)
    && (s.holder.Some? ==> s.holder.value in s.tabs && s.tabs[s.holder.value].Waiting?)
    && (forall id :: id in s.requests ==> s.holder.Some? && s.tabs[s.holder.value] == Waiting(id))
    && (s.requests == map[] && s.cookie.Some? ==> IsHead(s, s.cookie.value))
    && (forall id :: id in s.requests ==> Sound(s, s.requests[id]))
  }

  /** A request carries the cookie, and that is the head; an answer leaves the head as cookie. */
  predicate Sound(s: State, r: Request) {
    && r.kind == Refresh
    && (r.reply.None? ==> r.token == s.cookie && (r.token.Some? ==> IsHead(s, r.token.value)))
    && (r.reply == Some(NoSession) ==> s.cookie.None?)
    && (r.reply.Some? ==> var c := CookieAfter(s, r); c.Some? ==> IsHead(s, c.value))
  }

  lemma ServeKeeps(s: State, id: RequestId, backend: Backend)
    requires Inv(s) && id in s.requests && s.requests[id].reply.None?
    ensures Inv(Served(s, id, backend)) && Served(s, id, backend).reuses == s.reuses
  {
    assert Sound(s, s.requests[id]);
    var n := Served(s, id, backend);
    assert n.requests.Keys == s.requests.Keys;
    assert Sound(n, n.requests[id]);
  }

  lemma StepKeeps(s: State, a: Action)
    requires Inv(s) && !a.Abandon? && !a.Switch?
    ensures Inv(Exec(s, a)) && Exec(s, a).reuses == s.reuses
  {
    if Enabled(s, a) {
      match a
      case Serve(id, backend) => ServeKeeps(s, id, backend);
      case Deliver(tab) =>
        var id := s.tabs[tab].request;
        assert Sound(s, s.requests[id]);
        assert Exec(s, a).requests == map[];
      case Fail(tab) =>
        assert Sound(s, s.requests[s.tabs[tab].request]);
        assert Exec(s, a).requests == map[];
      case _ =>
    }
  }

  lemma {:induction false} RunKeeps(s: State, schedule: seq<Action>)
    requires Inv(s) && Orderly(schedule)
    ensures Inv(Run(s, schedule)) && Run(s, schedule).reuses == s.reuses
  {
    if schedule != [] {
      RunKeeps(s, schedule[..|schedule| - 1]);
      StepKeeps(Run(s, schedule[..|schedule| - 1]), schedule[|schedule| - 1]);
    }
  }

  /**
   For any number of tabs and any orderly interleaving: at most one refresh is in flight in
   the whole browser, it carries the unspent head of the family, and the server never
   mistakes a refresh for a replay.
   */
  lemma NeverTakenForReplay(schedule: seq<Action>)
    requires Orderly(schedule)
    ensures var s := Run(Init(true), schedule);
            && s.reuses == 0
            && (forall i, j :: i in s.requests && j in s.requests ==> i == j)
            && (forall i :: i in s.requests && s.requests[i].reply.None? && s.requests[i].token.Some? ==>
                  IsHead(s, s.requests[i].token.value))
  {
    RunKeeps(Init(true), schedule);
    var s := Run(Init(true), schedule);
    forall i | i in s.requests ensures Sound(s, s.requests[i]) { }
  }

  // ---------------------------------------------------------------- exactly when

  /** Nothing in flight and the lock free; the cookie is some token the server minted. */
  ghost predicate Quiet(s: State) {
    s.locks && s.requests == map[] && s.tabs == map[] && s.holder.None?
    && (forall t :: t in s.spent ==> t < s.minted) && (s.cookie.Some? ==> s.cookie.value < s.minted)
    && (forall t :: t + 1 < s.minted ==> t in s.spent)
  }

  lemma RunThree(s: State, a: Action, b: Action, c: Action)
    ensures Run(s, [a, b, c]) == Exec(Exec(Exec(s, a), b), c)
  {
    assert [a, b, c][..2] == [a, b] && [a, b][..1] == [a];
    assert Run(s, [a]) == Exec(s, a);
  }

  /** What the server and the browser keep of a request for `token`, once it is answered and delivered. */
  ghost predicate Outcome(s: State, n: State, kind: Kind, token: Token, backend: Backend) {
    var kept := if kind == Refresh then None else Some(token);
    && n.locks == s.locks && n.requests == map[] && n.tabs == map[] && n.holder.None?
    && match backend
       case NeverAsked => n.cookie == kept && n.minted == s.minted && n.spent == s.spent && n.reuses == s.reuses
       case _ =>
         if token in s.spent then
           && n.cookie == kept && n.minted == s.minted && n.reuses == s.reuses + 1
           && forall t: Token :: t in n.spent <==> t < s.minted
         else if backend == Declines then
           n.cookie == kept && n.minted == s.minted && n.spent == s.spent && n.reuses == s.reuses
         else
           && n.cookie == (if backend == Answers then Some(s.minted) else kept)
           && n.minted == s.minted + 1 && n.spent == s.spent + {token} && n.reuses == s.reuses
  }

  /** What a request is told: without a cookie nobody is asked; a lost answer reads like a backend that is down. */
  lemma ReplyMeans(s: State, id: RequestId, backend: Backend)
    requires id in s.requests && s.requests[id].reply.None?
    requires forall t :: t in s.spent ==> t < s.minted
    ensures var reply := Exec(s, Serve(id, backend)).requests[id].reply;
            match s.requests[id].token
            case None => reply == Some(NoSession)
            case Some(token) =>
              if backend == NeverAsked then reply == Some(Down)
              else if token in s.spent then reply == Some(if backend == AnswerLost then Down else Refused)
              else if backend == Declines || token >= s.minted then reply == Some(Refused)
              else reply == Some(if backend == AnswerLost then Down else Rotated(s.minted))
  {
  }

  /** A tab with a refresh in flight starts no other, and sends its request once. */
  lemma OneRequestATab(s: State, tab: Tab, id: RequestId)
    requires tab in s.tabs
    ensures Exec(s, Start(tab)) == s
    ensures s.tabs[tab].Waiting? ==> Exec(s, Grant(tab, id)) == s
  {
  }

  /**
   A refresh by one tab, from rest: a new token in place of the old one, which is then spent;
   or the whole family revoked, if the cookie was spent already; and in every failure no cookie.
   */
  lemma LoneRefresh(s: State, tab: Tab, id: RequestId, backend: Backend)
    requires Quiet(s)
    ensures var n := Exec(Exec(Exec(Exec(s, Start(tab)), Grant(tab, id)), Serve(id, backend)), Deliver(tab));
            if s.cookie.None? then n == s else Outcome(s, n, Refresh, s.cookie.value, backend)
  {
    var s2 := Exec(Exec(s, Start(tab)), Grant(tab, id));
    assert s2.tabs == map[tab := Waiting(id)] && s2.requests == map[id := Request(Refresh, s.cookie, None)];
    var s3 := Exec(s2, Serve(id, backend));
    assert s3.requests.Keys == {id} && s3.tabs == s2.tabs && s3.holder == Some(tab) && s3.cookie == s.cookie;
    var n := Exec(s3, Deliver(tab));
    assert n.requests == map[] && n.tabs == map[];
  }

  /** A company switch is served as a refresh is, but a failure leaves the cookie. */
  lemma LoneSwitch(s: State, id: RequestId, backend: Backend)
    requires Quiet(s)
    ensures var n := Exec(Exec(Exec(s, Switch(id)), Serve(id, backend)), SwitchDone(id));
            if s.cookie.None? then n == s else Outcome(s, n, SwitchCompany, s.cookie.value, backend)
  {
    var s1 := Exec(s, Switch(id));
    assert s1.requests == map[id := Request(SwitchCompany, s.cookie, None)];
    var s2 := Exec(s1, Serve(id, backend));
    assert s2.requests.Keys == {id} && s2.tabs == map[] && s2.cookie == s.cookie;
    assert Exec(s2, SwitchDone(id)).requests == map[];
  }

  lemma NextRefreshServed(s: State)
    requires Quiet(s)
    ensures var n := Run(s, [Start(0), Grant(0, 0), Serve(0, Answers)]);
            n.reuses == s.reuses + if s.cookie.Some? && s.cookie.value in s.spent then 1 else 0
  {
    RunThree(s, Start(0), Grant(0, 0), Serve(0, Answers));
    var s1 := Exec(s, Start(0));
    var s2 := Exec(s1, Grant(0, 0));
    assert s2.requests[0] == Request(Refresh, s.cookie, None) && s2.spent == s.spent;
  }

  /** From rest, orderly tabs are safe for ever exactly when the cookie is not a spent token. */
  lemma SafeIffCookieUnspent(s: State)
    requires Quiet(s)
    ensures (forall schedule :: Orderly(schedule) ==> Run(s, schedule).reuses == s.reuses)
       <==> (s.cookie.Some? ==> s.cookie.value !in s.spent)
  {
    if s.cookie.Some? && s.cookie.value in s.spent {
      NextRefreshServed(s);
      assert Orderly([Start(0), Grant(0, 0), Serve(0, Answers)]);
    } else {
      assert Inv(s);
      forall schedule | Orderly(schedule) ensures Run(s, schedule).reuses == s.reuses {
        RunKeeps(s, schedule);
      }
    }
  }

  // ---------------------------------------------------------------- what breaks it

  lemma RunConcat(s: State, a: seq<Action>, b: seq<Action>)
    ensures Run(s, a + b) == Run(Run(s, a), b)
  {
    if b == [] {
      assert a + b == a;
    } else {
      RunConcat(s, a, b[..|b| - 1]);
      assert (a + b)[..|a + b| - 1] == a + b[..|b| - 1];
    }
  }

  /** The whole family is revoked: nobody can refresh this session again. */
  predicate Dead(s: State) {
    s.reuses > 0 && forall t: Token :: t < s.minted ==> t in s.spent
  }

  /** A tab that goes after the rotation, before its cookie arrived: the cookie is spent. */
  lemma LosingTheAnswer(s: State)
    requires Quiet(s) && s.cookie.Some? && IsHead(s, s.cookie.value)
    ensures var n := Run(s, [Start(0), Grant(0, 0), Serve(0, Answers)] + [Abandon(0)]);
            && n.cookie == s.cookie && n.cookie.value in n.spent && n.reuses == s.reuses
            && n.tabs == map[] && n.holder.None?
            && n.locks && n.requests.Keys == {0} && n.minted == s.minted + 1
            && (forall t: Token :: t + 1 < n.minted ==> t in n.spent)
  {
    RunThree(s, Start(0), Grant(0, 0), Serve(0, Answers));
    var s1 := Exec(s, Start(0));
    var s2 := Exec(s1, Grant(0, 0));
    assert s2.requests[0] == Request(Refresh, s.cookie, None) && s2.tabs[0] == Waiting(0) && s2.spent == s.spent;
    var s3 := Exec(s2, Serve(0, Answers));
    RunConcat(s, [Start(0), Grant(0, 0), Serve(0, Answers)], [Abandon(0)]);
    assert Run(s3, []) == s3 && Run(s3, [Abandon(0)]) == Exec(s3, Abandon(0));
  }

  /** The next refresh of any tab then sends the spent token again, and the family is gone. */
  lemma LostAnswerKillsTheSession(s: State, tab: Tab)
    requires Quiet(s) && s.cookie.Some? && IsHead(s, s.cookie.value)
    ensures Dead(Run(s, [Start(0), Grant(0, 0), Serve(0, Answers)] + [Abandon(0)]
                        + [Start(tab), Grant(tab, 1), Serve(1, Answers)]))
  {
    var lost := [Start(0), Grant(0, 0), Serve(0, Answers)] + [Abandon(0)];
    LosingTheAnswer(s);
    RunConcat(s, lost, [Start(tab), Grant(tab, 1), Serve(1, Answers)]);
    var n := Run(s, lost);
    RunThree(n, Start(tab), Grant(tab, 1), Serve(1, Answers));
    var n1 := Exec(n, Start(tab));
    var n2 := Exec(n1, Grant(tab, 1));
    assert n2.requests[1] == Request(Refresh, s.cookie, None) && n2.spent == n.spent;
  }

  /** The company switch takes no lock: overlapping a refresh, one of the two is a replay. */
  lemma SwitchDuringRefreshKillsTheSession(schedule: seq<Action>)
    requires Orderly(schedule) && 0 !in Run(Init(true), schedule).tabs
    requires var s := Run(Init(true), schedule); s.requests == map[] && s.holder.None? && s.cookie.Some?
    ensures var s := Run(Init(true), schedule);
            Dead(Run(s, [Start(0), Grant(0, 0), Switch(1)] + [Serve(1, Answers), Serve(0, Answers)]))
  {
    RunKeeps(Init(true), schedule);
    var s := Run(Init(true), schedule);
    RunConcat(s, [Start(0), Grant(0, 0), Switch(1)], [Serve(1, Answers), Serve(0, Answers)]);
    RunThree(s, Start(0), Grant(0, 0), Switch(1));
    var sent := Run(s, [Start(0), Grant(0, 0), Switch(1)]);
    assert sent.requests[1] == Request(SwitchCompany, s.cookie, None);
    assert sent.requests[0] == Request(Refresh, s.cookie, None);
    TwoServed(sent);
  }

  /** Two requests on the wire with one token: the second to arrive revokes everything. */
  lemma TwoServed(s: State)
    requires 0 in s.requests && 1 in s.requests && s.requests[0].reply.None? && s.requests[1].reply.None?
    requires s.requests[0].token.Some? && s.requests[0].token == s.requests[1].token
    requires IsHead(s, s.requests[0].token.value)
    ensures Dead(Run(s, [Serve(1, Answers), Serve(0, Answers)]))
  {
    assert [Serve(1, Answers), Serve(0, Answers)][..1] == [Serve(1, Answers)];
    var n := Run(s, [Serve(1, Answers)]);
    assert Run(s, []) == s && n == Exec(s, Serve(1, Answers));
    assert n.requests[0] == s.requests[0] && n.requests[0].token.value in n.spent;
  }

  /** Without the Web Locks API two tabs race, and the loser takes the session with it. */
  lemma TwoTabsRaceWithoutLocks()
    ensures Dead(Run(Init(false), [Start(0), Grant(0, 0), Start(1)]
                                  + ([Grant(1, 1)] + [Serve(1, Answers), Serve(0, Answers)])))
  {
    var first, last := [Start(0), Grant(0, 0), Start(1)], [Serve(1, Answers), Serve(0, Answers)];
    RunConcat(Init(false), first, [Grant(1, 1)] + last);
    RunThree(Init(false), Start(0), Grant(0, 0), Start(1));
    var s := Run(Init(false), first);
    RunConcat(s, [Grant(1, 1)], last);
    var n := Run(s, [Grant(1, 1)]);
    assert n == Exec(s, Grant(1, 1));
    assert n.requests[1] == Request(Refresh, Some(0), None) && n.requests[0] == Request(Refresh, Some(0), None);
    TwoServed(n);
  }

  // ---------------------------------------------------------------- exactly which requests are safe

  /** Sent, not answered, and carrying this token. */
  predicate Carries(s: State, id: RequestId, token: Token) {
    id in s.requests && s.requests[id].reply.None? && s.requests[id].token == Some(token)
  }

  /** No request on the wire can be taken for a replay, in whatever order they arrive. */
  ghost predicate WireSafe(s: State) {
    && (forall i, t :: Carries(s, i, t) ==> t !in s.spent)
    && (forall i, j, t :: Carries(s, i, t) && Carries(s, j, t) ==> i == j)
  }

  /** Every token about came from the server. */
  ghost predicate Minted(s: State) {
    && (forall t :: t in s.spent ==> t < s.minted)
    && (s.cookie.Some? ==> s.cookie.value < s.minted)
    && (forall id :: id in s.requests ==> MintedRequest(s, s.requests[id]))
  }

  predicate MintedRequest(s: State, r: Request) {
    && (r.token.Some? ==> r.token.value < s.minted)
    && (r.reply.Some? && r.reply.value.Rotated? ==> r.reply.value.token < s.minted)
  }

  lemma ServeMints(s: State, id: RequestId, backend: Backend)
    requires Minted(s) && Enabled(s, Serve(id, backend))
    ensures Minted(Exec(s, Serve(id, backend)))
  {
    var n := Exec(s, Serve(id, backend));
    assert MintedRequest(s, s.requests[id]);
    forall i | i in n.requests ensures MintedRequest(n, n.requests[i]) {
      assert i in s.requests && MintedRequest(s, s.requests[i]);
    }
  }

  lemma StepMints(s: State, a: Action)
    requires Minted(s)
    ensures Minted(Exec(s, a))
  {
    if Enabled(s, a) {
      match a
      case Serve(id, backend) => ServeMints(s, id, backend);
      case Deliver(tab) => assert MintedRequest(s, s.requests[s.tabs[tab].request]);
      case SwitchDone(id) => assert MintedRequest(s, s.requests[id]);
      case _ =>
    }
  }

  lemma {:induction false} RunMints(s: State, schedule: seq<Action>)
    requires Minted(s)
    ensures Minted(Run(s, schedule))
  {
    if schedule != [] {
      RunMints(s, schedule[..|schedule| - 1]);
      StepMints(Run(s, schedule[..|schedule| - 1]), schedule[|schedule| - 1]);
    }
  }

  lemma ServeStaysSafe(s: State, id: RequestId, backend: Backend)
    requires Minted(s) && WireSafe(s) && Enabled(s, Serve(id, backend))
    ensures WireSafe(Exec(s, Serve(id, backend))) && Exec(s, Serve(id, backend)).reuses == s.reuses
  {
    var n, r := Exec(s, Serve(id, backend)), s.requests[id];
    if r.token.Some? {
      assert Carries(s, id, r.token.value);
    }
    forall i, t | Carries(n, i, t) ensures Carries(s, i, t) && i != id { }
  }

  predicate Sends(a: Action) {
    a.Grant? || a.Switch?
  }

  lemma StepStaysSafe(s: State, a: Action)
    requires Minted(s) && WireSafe(s) && !Sends(a)
    ensures WireSafe(Exec(s, a)) && Exec(s, a).reuses == s.reuses
  {
    if Enabled(s, a) {
      if a.Serve? {
        ServeStaysSafe(s, a.id, a.backend);
      } else {
        var n := Exec(s, a);
        forall i, t | Carries(n, i, t) ensures Carries(s, i, t) { }
      }
    }
  }

  /** Nothing more is sent. */
  predicate NothingSent(schedule: seq<Action>) {
    forall i :: 0 <= i < |schedule| ==> !Sends(schedule[i])
  }

  lemma {:induction false} RunStaysSafe(s: State, schedule: seq<Action>)
    requires Minted(s) && WireSafe(s) && NothingSent(schedule)
    ensures WireSafe(Run(s, schedule)) && Run(s, schedule).reuses == s.reuses
  {
    if schedule != [] {
      RunStaysSafe(s, schedule[..|schedule| - 1]);
      RunMints(s, schedule[..|schedule| - 1]);
      StepStaysSafe(Run(s, schedule[..|schedule| - 1]), schedule[|schedule| - 1]);
    }
  }

  lemma RunOne(s: State, a: Action)
    ensures Run(s, [a]) == Exec(s, a)
  {
    assert Run(s, []) == s;
  }

  /** One unsafe request, or two, served in turn. */
  lemma UnsafeIsReplayed(s: State) returns (schedule: seq<Action>)
    requires Minted(s) && !WireSafe(s)
    ensures NothingSent(schedule) && Run(s, schedule).reuses > s.reuses
  {
    if i, t :| Carries(s, i, t) && t in s.spent {
      schedule := [Serve(i, Answers)];
      RunOne(s, Serve(i, Answers));
    } else {
      var i, j, t :| Carries(s, i, t) && Carries(s, j, t) && i != j;
      assert t !in s.spent && MintedRequest(s, s.requests[i]);
      schedule := [Serve(i, Answers)] + [Serve(j, Answers)];
      RunConcat(s, [Serve(i, Answers)], [Serve(j, Answers)]);
      RunOne(s, Serve(i, Answers));
      var n := Exec(s, Serve(i, Answers));
      assert Carries(n, j, t) && t in n.spent;
      RunOne(n, Serve(j, Answers));
    }
  }

  /**
   Requests on the wire are safe, in every order they can be served in, exactly when none
   carries a spent token and no two carry the same.
   */
  lemma WireSafeIff(s: State)
    requires Minted(s)
    ensures (forall schedule :: NothingSent(schedule) ==> Run(s, schedule).reuses == s.reuses) <==> WireSafe(s)
  {
    if WireSafe(s) {
      forall schedule | NothingSent(schedule) ensures Run(s, schedule).reuses == s.reuses {
        RunStaysSafe(s, schedule);
      }
    } else {
      var schedule := UnsafeIsReplayed(s);
    }
  }

  /** The cookie is not spent, and no request on its way carries it. */
  ghost predicate CookieFree(s: State) {
    s.cookie.Some? ==> s.cookie.value !in s.spent && forall i :: !Carries(s, i, s.cookie.value)
  }

  lemma SendMakesSafeIff(s: State, a: Action)
    requires WireSafe(s) && Enabled(s, a) && Sends(a)
    ensures WireSafe(Exec(s, a)) <==> CookieFree(s)
    ensures Exec(s, a).reuses == s.reuses
  {
    var n := Exec(s, a);
    var id := a.id;
    assert forall i, t :: i != id ==> (Carries(n, i, t) <==> Carries(s, i, t));
    if s.cookie.Some? {
      var c := s.cookie.value;
      assert Carries(n, id, c);
      if !CookieFree(s) && c !in s.spent {
        var i :| Carries(s, i, c);
        assert Carries(n, i, c) && i != id;
      }
    }
  }

  /**
   With or without the lock, a refresh or a company switch, in every reachable state whose
   requests so far are safe: sending one more is safe exactly when the cookie is unspent and
   no unanswered request carries it. (Reachable by any steps at all, lost answers included.)
   */
  lemma SendingIsSafeIff(locks: bool, before: seq<Action>, a: Action)
    requires var s := Run(Init(locks), before); WireSafe(s) && Enabled(s, a) && Sends(a)
    ensures var s := Run(Init(locks), before);
            (forall schedule :: NothingSent(schedule) ==> Run(Exec(s, a), schedule).reuses == s.reuses)
              <==> CookieFree(s)
  {
    var s := Run(Init(locks), before);
    RunMints(Init(locks), before);
    StepMints(s, a);
    SendMakesSafeIff(s, a);
    WireSafeIff(Exec(s, a));
  }

  /** Every request of the run was sent with a free cookie. */
  ghost predicate SentFree(s: State, schedule: seq<Action>) {
    schedule != [] ==>
      var m, a := Run(s, schedule[..|schedule| - 1]), schedule[|schedule| - 1];
      SentFree(s, schedule[..|schedule| - 1]) && (Sends(a) && Enabled(m, a) ==> CookieFree(m))
  }

  /** Then nothing is ever taken for a replay: tabs, switches, lost answers, no lock at all. */
  lemma {:induction false} SentFreeIsNeverReplayed(locks: bool, schedule: seq<Action>)
    requires SentFree(Init(locks), schedule)
    ensures WireSafe(Run(Init(locks), schedule)) && Run(Init(locks), schedule).reuses == 0
  {
    if schedule != [] {
      var m, a := Run(Init(locks), schedule[..|schedule| - 1]), schedule[|schedule| - 1];
      SentFreeIsNeverReplayed(locks, schedule[..|schedule| - 1]);
      RunMints(Init(locks), schedule[..|schedule| - 1]);
      if Sends(a) {
        if Enabled(m, a) { SendMakesSafeIff(m, a); }
      } else {
        StepStaysSafe(m, a);
      }
    }
  }

  // ---------------------------------------------------------------- a switch on its own

  function SwitchAlone(id: RequestId, backend: Backend): seq<Action> {
    [Switch(id), Serve(id, backend), SwitchDone(id)]
  }

  lemma SwitchAloneLeaves(s: State, id: RequestId, backend: Backend)
    requires Inv(s) && s.cookie.Some? && s.requests == map[]
    ensures var n := Run(s, SwitchAlone(id, backend));
            && n.requests == map[] && n.tabs == s.tabs && n.holder.None? && n.locks && n.reuses == s.reuses
            && n.cookie.Some? && (forall t :: t in n.spent ==> t < n.minted)
            && (if backend == AnswerLost then n.cookie.value in n.spent else IsHead(n, n.cookie.value))
  {
    RunThree(s, Switch(id), Serve(id, backend), SwitchDone(id));
    var s1 := Exec(s, Switch(id));
    assert s1.requests == map[id := Request(SwitchCompany, s.cookie, None)];
    var s2 := Exec(s1, Serve(id, backend));
    assert s2.requests.Keys == {id};
    assert Exec(s2, SwitchDone(id)).requests == map[];
  }

  /** A refresh by some tab, started or already waiting for the lock. */
  lemma NextRefreshReplays(s: State)
    requires s.requests == map[] && s.holder.None? && (0 in s.tabs ==> s.tabs[0].Queued?)
    requires s.cookie.Some? && s.cookie.value in s.spent
    ensures Run(s, [Start(0), Grant(0, 0), Serve(0, Answers)]).reuses > s.reuses
  {
    RunThree(s, Start(0), Grant(0, 0), Serve(0, Answers));
    var s1 := Exec(s, Start(0));
    assert s1.tabs[0] == Queued;
    var s2 := Exec(s1, Grant(0, 0));
    assert s2.requests[0] == Request(Refresh, s.cookie, None) && s2.spent == s.spent;
  }

  /**
   A company switch made while nothing else is in flight: the tabs stay safe for ever exactly
   if its answer is not lost. A refusal, or a backend that was never asked, costs nothing,
   because the handler keeps the cookie; after a lost answer what it keeps is spent.
   */
  lemma SwitchAloneSafeIff(s: State, id: RequestId, backend: Backend)
    requires Inv(s) && s.cookie.Some? && s.requests == map[]
    ensures var n := Run(s, SwitchAlone(id, backend));
            (forall schedule :: Orderly(schedule) ==> Run(n, schedule).reuses == s.reuses) <==> backend != AnswerLost
  {
    SwitchAloneLeaves(s, id, backend);
    var n := Run(s, SwitchAlone(id, backend));
    if backend == AnswerLost {
      NextRefreshReplays(n);
      assert Orderly([Start(0), Grant(0, 0), Serve(0, Answers)]);
    } else {
      assert Inv(n);
      forall schedule | Orderly(schedule) ensures Run(n, schedule).reuses == s.reuses { RunKeeps(n, schedule); }
    }
  }

  // ---------------------------------------------------------------- losing the cookie

  /** No cookie, and no answer on its way that would set one. */
  ghost predicate SignedOut(s: State) {
    && s.cookie.None?
    && forall id :: id in s.requests ==> Tokenless(s.requests[id])
  }

  predicate Tokenless(r: Request) {
    r.token.None? && (r.reply.Some? ==> r.reply.value == NoSession)
  }

  lemma StepSignedOut(s: State, a: Action)
    requires SignedOut(s)
    ensures SignedOut(Exec(s, a)) && Exec(s, a).minted == s.minted
  {
  }

  lemma {:induction false} SignedOutStays(s: State, schedule: seq<Action>)
    requires SignedOut(s)
    ensures SignedOut(Run(s, schedule)) && Run(s, schedule).minted == s.minted
  {
    if schedule != [] {
      SignedOutStays(s, schedule[..|schedule| - 1]);
      StepSignedOut(Run(s, schedule[..|schedule| - 1]), schedule[|schedule| - 1]);
    }
  }

  /**
   When a tab's answer arrives, the session survives exactly when the refresh succeeded. Not
   only a refusal ends it: so does a 502, which the tab reports as `unreachable` and means
   to ride out, because the handler deletes the cookie with it. After that nothing any tab
   does brings the session back.
   */
  lemma SurvivesOnlySuccess(s: State, tab: Tab)
    requires Inv(s) && Enabled(s, Deliver(tab))
    ensures var reply := s.requests[s.tabs[tab].request].reply.value; var n := Exec(s, Deliver(tab));
            && (reply.Rotated? <==> n.cookie.Some?)
            && (reply.Rotated? ==> IsHead(n, n.cookie.value))
            && (!reply.Rotated? ==> forall schedule :: SignedOut(Run(n, schedule)))
  {
    var id := s.tabs[tab].request;
    assert Sound(s, s.requests[id]);
    var n := Exec(s, Deliver(tab));
    assert n.requests == map[];
    if !s.requests[id].reply.value.Rotated? {
      forall schedule ensures SignedOut(Run(n, schedule)) { SignedOutStays(n, schedule); }
    }
  }

  /** A request that never left the browser costs nothing: the cookie is still the head. */
  lemma FailingLocallyIsHarmless(s: State, tab: Tab)
    requires Inv(s) && Enabled(s, Fail(tab))
    ensures var n := Exec(s, Fail(tab));
            n.cookie == s.cookie && (n.cookie.Some? ==> IsHead(n, n.cookie.value)) && n.holder.None?
  {
    StepKeeps(s, Fail(tab));
    assert Exec(s, Fail(tab)).requests == map[];
  }
}
