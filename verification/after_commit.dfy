/**
 One transaction a request: the event bus runs handlers inside it, and what they queue is
 sent only after the commit.

 Which writes the route and each handler make, which sends they queue and whether they raise
 are parameters.
 */
module AfterCommit {
  type Write = nat

  /** A deferred send: it may raise, and it may itself queue more on the session. */
  datatype Job = Job(id: nat, raises: bool, queues: seq<Job>)

  /** A stretch of a route or of a handler, until it goes on or raises. */
  datatype Work = Work(id: nat, writes: seq<Write>, queues: seq<Job>, raises: bool)

  /** Routes and handlers do work of their own and publish events, in any order. */
  datatype Part = Own(work: Work) | Publish(event: string)

  type Body = seq<Part>

  /** A request: refused before its route, or the parts of its route; and whether its commit returns. */
  datatype Plan = Plan(admitted: bool, parts: Body, commits: bool)

  type Registry = map<string, seq<Body>>

  /**
   The handlers of each event; how deep events may be published from within handlers before
   the interpreter's recursion limit raises; committed writes, sends attempted, and sends
   that raised.
   */
  datatype State = State(handlers: Registry, depth: nat, data: seq<Write>, attempts: seq<Job>, lost: seq<Job>)

  function HandlersOf(handlers: Registry, event: string): seq<Body> {
    if event in handlers then handlers[event] else []
  }

  // ---------------------------------------------------------------- what a request amounts to

  /** What runs: all up to and including the first that raises. */
  function Ran(hs: seq<Work>): seq<Work> {
    if hs == [] then [] else if hs[0].raises then [hs[0]] else [hs[0]] + Ran(hs[1..])
  }

  predicate Raised(ran: seq<Work>) {
    exists i :: 0 <= i < |ran| && ran[i].raises
  }

  /** Handlers one after the other. */
  function Joined(bodies: seq<Body>): Body {
    if bodies == [] then [] else Joined(bodies[..|bodies| - 1]) + bodies[|bodies| - 1]
  }

  /** RecursionError. */
  const TOO_DEEP: Work := Work(0, [], [], true)

  /** All the work these parts would reach, handlers and what they publish in their place. */
  function Reached(handlers: Registry, parts: Body, depth: nat): seq<Work>
    decreases depth, |parts|
  {
    if parts == [] then []
    else
      (match parts[0]
       case Own(work) => [work]
       case Publish(event) =>
         if depth == 0 then [TOO_DEEP] else Reached(handlers, Joined(HandlersOf(handlers, event)), depth - 1))
        + Reached(handlers, parts[1..], depth)
  }

  function Writes(hs: seq<Work>): seq<Write> {
    if hs == [] then [] else Writes(hs[..|hs| - 1]) + hs[|hs| - 1].writes
  }

  function Queued(hs: seq<Work>): seq<Job> {
    if hs == [] then [] else Queued(hs[..|hs| - 1]) + hs[|hs| - 1].queues
  }

  function Raising(jobs: seq<Job>): seq<Job> {
    if jobs == [] then [] else
      Raising(jobs[..|jobs| - 1]) + if jobs[|jobs| - 1].raises then [jobs[|jobs| - 1]] else []
  }

  function Spawned(jobs: seq<Job>): seq<Job> {
    if jobs == [] then [] else Spawned(jobs[..|jobs| - 1]) + jobs[|jobs| - 1].queues
  }

  predicate Commits(s: State, p: Plan) {
    p.admitted && !Raised(Reached(s.handlers, p.parts, s.depth)) && p.commits
  }

  /** All of a request's writes and then its sends, in order; or none of either. */
  function Exec(s: State, p: Plan): State {
    if !Commits(s, p) then s
    else
      var hs := Reached(s.handlers, p.parts, s.depth);
      s.(data := s.data + Writes(hs), attempts := s.attempts + Queued(hs), lost := s.lost + Raising(Queued(hs)))
  }

  /** A request refused before its route, or whose commit did not return, leaves nothing behind. */
  lemma UncommittedLeavesNothing(s: State, p: Plan)
    requires !p.admitted || !p.commits
    ensures Exec(s, p) == s
  {
  }

  lemma {:induction false} RanMeans(hs: seq<Work>)
    ensures Raised(Ran(hs)) <==> Raised(hs)
    ensures Ran(hs) <= hs && (!Raised(hs) ==> Ran(hs) == hs)
    ensures forall i :: 0 <= i < |Ran(hs)| - 1 ==> !hs[i].raises
  {
    if hs != [] {
      RanMeans(hs[1..]);
      assert hs == [hs[0]] + hs[1..];
      if !hs[0].raises {
        assert Raised(hs[1..]) ==> Raised(hs) by {
          if i :| 0 <= i < |hs[1..]| && hs[1..][i].raises { assert hs[i + 1].raises; }
        }
        assert Raised(hs) ==> Raised(hs[1..]) by {
          if i :| 0 <= i < |hs| && hs[i].raises { assert hs[1..][i - 1].raises; }
        }
        var ran := Ran(hs);
        assert ran == [hs[0]] + Ran(hs[1..]);
        assert Raised(Ran(hs[1..])) ==> Raised(ran) by {
          if i :| 0 <= i < |Ran(hs[1..])| && Ran(hs[1..])[i].raises { assert ran[i + 1].raises; }
        }
        assert Raised(ran) ==> Raised(Ran(hs[1..])) by {
          if i :| 0 <= i < |ran| && ran[i].raises { assert Ran(hs[1..])[i - 1].raises; }
        }
      }
    }
  }

  lemma RaisedSplit(a: seq<Work>, b: seq<Work>)
    ensures Raised(a + b) <==> Raised(a) || Raised(b)
  {
    if i :| 0 <= i < |a| && a[i].raises { assert (a + b)[i].raises; }
    if i :| 0 <= i < |b| && b[i].raises { assert (a + b)[|a| + i].raises; }
  }

  lemma Assoc<T>(a: seq<T>, b: seq<T>, c: seq<T>)
    ensures (a + b) + c == a + (b + c)
  {
  }

  lemma {:induction false} WritesSplit(a: seq<Work>, b: seq<Work>)
    ensures Writes(a + b) == Writes(a) + Writes(b)
  {
    if b == [] {
      assert a + b == a;
    } else {
      var init, last := b[..|b| - 1], b[|b| - 1];
      WritesSplit(a, init);
      assert (a + b)[..|a + b| - 1] == a + init && (a + b)[|a + b| - 1] == last;
      Assoc(Writes(a), Writes(init), last.writes);
    }
  }

  lemma {:induction false} QueuedSplit(a: seq<Work>, b: seq<Work>)
    ensures Queued(a + b) == Queued(a) + Queued(b)
  {
    if b == [] {
      assert a + b == a;
    } else {
      var init, last := b[..|b| - 1], b[|b| - 1];
      QueuedSplit(a, init);
      assert (a + b)[..|a + b| - 1] == a + init && (a + b)[|a + b| - 1] == last;
      Assoc(Queued(a), Queued(init), last.queues);
    }
  }

  lemma OwnWork(w: Work)
    ensures Writes([w]) == w.writes && Queued([w]) == w.queues && (Raised([w]) <==> w.raises)
    ensures Ran([w]) == [w]
  {
    assert [w][..0] == [] && (w.raises ==> [w][0].raises);
  }

  /** One handler's writes and sends are its own; several handlers' come one after the other. */
  lemma InOrder(h: Work, a: seq<Work>, b: seq<Work>)
    ensures Writes([h]) == h.writes && Writes(a + b) == Writes(a) + Writes(b)
    ensures Queued([h]) == h.queues && Queued(a + b) == Queued(a) + Queued(b)
  {
    assert [h][..0] == [];
    WritesSplit(a, b);
    QueuedSplit(a, b);
  }

  lemma {:induction false} ReachedConcat(handlers: Registry, a: Body, b: Body, depth: nat)
    ensures Reached(handlers, a + b, depth) == Reached(handlers, a, depth) + Reached(handlers, b, depth)
  {
    if a == [] {
      assert a + b == b;
    } else {
      ReachedConcat(handlers, a[1..], b, depth);
      assert (a + b)[1..] == a[1..] + b && (a + b)[0] == a[0];
      Assoc(Reached(handlers, a, depth)[..|Reached(handlers, a, depth)| - |Reached(handlers, a[1..], depth)|],
            Reached(handlers, a[1..], depth), Reached(handlers, b, depth));
    }
  }

  lemma {:induction false} RanSplit(a: seq<Work>, b: seq<Work>)
    requires !Raised(a)
    ensures Ran(a + b) == a + Ran(b)
  {
    if a == [] {
      assert a + b == b;
    } else {
      assert !a[0].raises;
      assert forall i :: 0 <= i < |a[1..]| ==> a[1..][i] == a[i + 1];
      RanSplit(a[1..], b);
      assert (a + b)[0] == a[0] && (a + b)[1..] == a[1..] + b;
    }
  }

  lemma {:induction false} RanStops(b: seq<Work>, rest: seq<Work>)
    requires Raised(b)
    ensures Ran(b + rest) == Ran(b)
  {
    assert (b + rest)[0] == b[0] && (b + rest)[1..] == b[1..] + rest;
    if !b[0].raises {
      var i :| 0 <= i < |b| && b[i].raises;
      assert b[1..][i - 1].raises;
      RanStops(b[1..], rest);
    }
  }

  /** What a session holds after this much work, from what it held before. */
  ghost predicate Holds(session: (seq<Write>, seq<Job>), before: (seq<Write>, seq<Job>), ran: seq<Work>) {
    session == (before.0 + Writes(ran), before.1 + Queued(ran))
  }

  lemma HoldsNothing(before: (seq<Write>, seq<Job>))
    ensures Holds(before, before, [])
  {
    assert before.0 + [] == before.0 && before.1 + [] == before.1;
  }

  lemma HoldsMore(before: (seq<Write>, seq<Job>), a: seq<Work>, b: seq<Work>,
                  mid: (seq<Write>, seq<Job>), after: (seq<Write>, seq<Job>))
    requires Holds(mid, before, a) && Holds(after, mid, b)
    ensures Holds(after, before, a + b)
  {
    WritesSplit(a, b);
    QueuedSplit(a, b);
    Assoc(before.0, Writes(a), Writes(b));
    Assoc(before.1, Queued(a), Queued(b));
  }

  /** A method has done all of this work, or all up to the first that raised. */
  ghost predicate Outcome(ok: bool, session: (seq<Write>, seq<Job>), before: (seq<Write>, seq<Job>), all: seq<Work>) {
    Holds(session, before, Ran(all)) && ok == !Raised(all)
  }

  lemma OwnDone(handlers: Registry, part: Part, room: nat,
                before: (seq<Write>, seq<Job>), after: (seq<Write>, seq<Job>))
    requires part.Own? && after == (before.0 + part.work.writes, before.1 + part.work.queues)
    ensures Outcome(!part.work.raises, after, before, Reached(handlers, [part], room))
  {
    assert [part][1..] == [] && Reached(handlers, [part], room) == [part.work];
    OwnWork(part.work);
  }

  lemma TooDeepDone(handlers: Registry, part: Part, before: (seq<Write>, seq<Job>))
    requires part.Publish?
    ensures Outcome(false, before, before, Reached(handlers, [part], 0))
  {
    assert [part][1..] == [] && Reached(handlers, [part], 0) == [TOO_DEEP];
    OwnWork(TOO_DEEP);
    HoldsNothing(before);
  }

  lemma PublishedReached(handlers: Registry, part: Part, room: nat)
    requires part.Publish? && room > 0
    ensures Reached(handlers, [part], room) == Reached(handlers, Joined(HandlersOf(handlers, part.event)), room - 1)
  {
    assert [part][1..] == [] && Reached(handlers, [], room) == [];
  }

  lemma PublishedDone(handlers: Registry, part: Part, room: nat, ok: bool,
                      before: (seq<Write>, seq<Job>), after: (seq<Write>, seq<Job>))
    requires part.Publish? && room > 0
    requires Outcome(ok, after, before, Reached(handlers, Joined(HandlersOf(handlers, part.event)), room - 1))
    ensures Outcome(ok, after, before, Reached(handlers, [part], room))
  {
    PublishedReached(handlers, part, room);
  }

  /** What a committed request's session held is what the request amounts to. */
  lemma CommittedExec(s: State, p: Plan, session: (seq<Write>, seq<Job>))
    requires p.admitted && p.commits && Outcome(true, session, ([], []), Reached(s.handlers, p.parts, s.depth))
    ensures Commits(s, p)
    ensures Exec(s, p) == s.(data := s.data + session.0, attempts := s.attempts + session.1,
                             lost := s.lost + Raising(session.1))
  {
    var all := Reached(s.handlers, p.parts, s.depth);
    RanMeans(all);
    assert [] + Writes(all) == Writes(all) && [] + Queued(all) == Queued(all);
  }

  /** The work `a` is behind, `b` raised: that is where all of it stops. */
  lemma Stops(before: (seq<Write>, seq<Job>), a: seq<Work>, b: seq<Work>, rest: seq<Work>, all: seq<Work>,
              mid: (seq<Write>, seq<Job>), after: (seq<Write>, seq<Job>))
    requires !Raised(a) && Raised(b) && all == a + b + rest
    requires Holds(mid, before, a) && Holds(after, mid, Ran(b))
    ensures Raised(all) && Holds(after, before, Ran(all))
  {
    Assoc(a, b, rest);
    RanSplit(a, b + rest);
    RanStops(b, rest);
    RaisedSplit(a, b + rest);
    RaisedSplit(b, rest);
    HoldsMore(before, a, Ran(b), mid, after);
  }

  /** Neither `a` nor `b` raised: both are behind. */
  lemma GoesOn(before: (seq<Write>, seq<Job>), a: seq<Work>, b: seq<Work>,
               mid: (seq<Write>, seq<Job>), after: (seq<Write>, seq<Job>))
    requires !Raised(a) && !Raised(b)
    requires Holds(mid, before, a) && Holds(after, mid, Ran(b))
    ensures !Raised(a + b) && Holds(after, before, a + b)
  {
    RanMeans(b);
    RaisedSplit(a, b);
    HoldsMore(before, a, b, mid, after);
  }

  lemma PartSplit(handlers: Registry, parts: Body, i: nat, room: nat)
    requires i < |parts|
    ensures Reached(handlers, parts[..i + 1], room)
         == Reached(handlers, parts[..i], room) + Reached(handlers, [parts[i]], room)
    ensures Reached(handlers, parts, room)
         == Reached(handlers, parts[..i], room) + Reached(handlers, [parts[i]], room)
              + Reached(handlers, parts[i + 1..], room)
  {
    assert parts[..i + 1] == parts[..i] + [parts[i]] && parts == parts[..i + 1] + parts[i + 1..];
    ReachedConcat(handlers, parts[..i], [parts[i]], room);
    ReachedConcat(handlers, parts[..i + 1], parts[i + 1..], room);
  }

  lemma {:induction false} JoinedConcat(a: seq<Body>, b: seq<Body>)
    ensures Joined(a + b) == Joined(a) + Joined(b)
  {
    if b == [] {
      assert a + b == a;
    } else {
      var init, last := b[..|b| - 1], b[|b| - 1];
      JoinedConcat(a, init);
      assert (a + b)[..|a + b| - 1] == a + init && (a + b)[|a + b| - 1] == last;
      Assoc(Joined(a), Joined(init), last);
    }
  }

  lemma BodySplit(handlers: Registry, bodies: seq<Body>, i: nat, room: nat)
    requires i < |bodies|
    ensures Reached(handlers, Joined(bodies[..i + 1]), room)
         == Reached(handlers, Joined(bodies[..i]), room) + Reached(handlers, bodies[i], room)
    ensures Reached(handlers, Joined(bodies), room)
         == Reached(handlers, Joined(bodies[..i]), room) + Reached(handlers, bodies[i], room)
              + Reached(handlers, Joined(bodies[i + 1..]), room)
  {
    assert bodies[..i + 1][..i] == bodies[..i] && bodies == bodies[..i + 1] + bodies[i + 1..];
    JoinedConcat(bodies[..i + 1], bodies[i + 1..]);
    ReachedConcat(handlers, Joined(bodies[..i]), bodies[i], room);
    ReachedConcat(handlers, Joined(bodies[..i + 1]), Joined(bodies[i + 1..]), room);
  }

  // ---------------------------------------------------------------- the code

  /** A database session: what it has staged, and what is queued in its `info`. */
  class Session {
    var staged: seq<Write>
    var pending: seq<Job>

    constructor ()
      ensures staged == [] && pending == []
    {
      staged, pending := [], [];
    }

    /** Staged writes and pending sends. */
    function Value(): (seq<Write>, seq<Job>)
      reads this
    {
      (staged, pending)
    }

    method EnqueueAfterCommit(job: Job)
      modifies this`pending
      ensures pending == old(pending) + [job]
    {
      pending := pending + [job];
    }
  }

  class Backend {
    const depth: nat
    var handlers: Registry
    var data: seq<Write>
    var attempts: seq<Job>
    var lost: seq<Job>

    function Value(): State
      reads this
    {
      State(handlers, depth, data, attempts, lost)
    }

    constructor (depth: nat)
      ensures Value() == State(map[], depth, [], [], [])
    {
      this.depth := depth;
      handlers, data, attempts, lost := map[], [], [], [];
    }

    /** Subscribes a handler after those already there, and touches no other event. */
    method Register(event: string, handler: Body)
      modifies this`handlers
      ensures HandlersOf(handlers, event) == HandlersOf(old(handlers), event) + [handler]
      ensures forall other :: other != event ==> HandlersOf(handlers, other) == HandlersOf(old(handlers), other)
    {
      handlers := handlers[event := HandlersOf(handlers, event) + [handler]];
    }

    /** One stretch of a route or a handler, on the request's session. */
    method Perform(h: Work, session: Session) returns (ok: bool)
      modifies session
      ensures session.Value() == (old(session.staged) + h.writes, old(session.pending) + h.queues)
      ensures ok == !h.raises
    {
      session.staged := session.staged + h.writes;
      for i := 0 to |h.queues|
        invariant session.staged == old(session.staged) + h.writes
        invariant session.pending == old(session.pending) + h.queues[..i]
      {
        session.EnqueueAfterCommit(h.queues[i]);
      }
      assert h.queues[..|h.queues|] == h.queues;
      return !h.raises;
    }

    /** Own work, or a publication within the recursion limit. */
    method RunPart(part: Part, session: Session, room: nat) returns (ok: bool)
      modifies session
      ensures Outcome(ok, session.Value(), old(session.Value()), Reached(handlers, [part], room))
      decreases room, 0
    {
      ghost var before := session.Value();
      if part.Own? {
        ok := Perform(part.work, session);
        OwnDone(handlers, part, room, before, session.Value());
      } else if room == 0 {
        TooDeepDone(handlers, part, before);
        return false;
      } else {
        ok := PublishEvent(part.event, session, room - 1);
        PublishedDone(handlers, part, room, ok, before, session.Value());
      }
    }

    /** Part after part, until one raises. */
    method RunBody(parts: Body, session: Session, room: nat) returns (ok: bool)
      modifies session
      ensures Outcome(ok, session.Value(), old(session.Value()), Reached(handlers, parts, room))
      decreases room, 1
    {
      ghost var before, all := session.Value(), Reached(handlers, parts, room);
      HoldsNothing(before);
      for i := 0 to |parts|
        invariant !Raised(Reached(handlers, parts[..i], room))
        invariant Holds(session.Value(), before, Reached(handlers, parts[..i], room))
      {
        ghost var mid, done := session.Value(), Reached(handlers, parts[..i], room);
        ghost var now := Reached(handlers, [parts[i]], room);
        PartSplit(handlers, parts, i, room);
        ok := RunPart(parts[i], session, room);
        if !ok {
          Stops(before, done, now, Reached(handlers, parts[i + 1..], room), all, mid, session.Value());
          return;
        }
        GoesOn(before, done, now, mid, session.Value());
      }
      assert parts[..|parts|] == parts;
      RanMeans(all);
      return true;
    }

    /** Handlers in order of registration; the first that raises stops the rest. */
    method PublishEvent(event: string, session: Session, room: nat) returns (ok: bool)
      modifies session
      ensures Outcome(ok, session.Value(), old(session.Value()),
                      Reached(handlers, Joined(HandlersOf(handlers, event)), room))
      decreases room, 2
    {
      var bodies := HandlersOf(handlers, event);
      ghost var before, all := session.Value(), Reached(handlers, Joined(bodies), room);
      HoldsNothing(before);
      for i := 0 to |bodies|
        invariant !Raised(Reached(handlers, Joined(bodies[..i]), room))
        invariant Holds(session.Value(), before, Reached(handlers, Joined(bodies[..i]), room))
      {
        ghost var mid, done := session.Value(), Reached(handlers, Joined(bodies[..i]), room);
        ghost var now := Reached(handlers, bodies[i], room);
        BodySplit(handlers, bodies, i, room);
        ok := RunBody(bodies[i], session, room);
        if !ok {
          Stops(before, done, now, Reached(handlers, Joined(bodies[i + 1..]), room), all, mid, session.Value());
          return;
        }
        GoesOn(before, done, now, mid, session.Value());
      }
      assert bodies[..|bodies|] == bodies;
      RanMeans(all);
      return true;
    }

    /**
     Sends what was queued, each once, in order, whatever raises; what a send itself queues
     is not run, and is left for a commit the session never has.
     */
    method RunAfterCommit(session: Session)
      modifies this`attempts, this`lost, session`pending
      ensures attempts == old(attempts) + old(session.pending)
      ensures lost == old(lost) + Raising(old(session.pending))
      ensures session.pending == Spawned(old(session.pending))
    {
      var pending := session.pending;
      session.pending := [];
      for i := 0 to |pending|
        invariant attempts == old(attempts) + pending[..i]
        invariant lost == old(lost) + Raising(pending[..i])
        invariant session.pending == Spawned(pending[..i])
      {
        assert pending[..i + 1][..i] == pending[..i];
        attempts := attempts + [pending[i]];
        session.pending := session.pending + pending[i].queues;
        if pending[i].raises {
          lost := lost + [pending[i]];
        }
      }
      assert pending[..|pending|] == pending;
    }

    /** Begin, yield to the route, commit, drain; or roll back. */
    method ServeRequest(p: Plan) returns (ok: bool)
      modifies this
      ensures Value() == Exec(old(Value()), p)
      ensures ok == Commits(old(Value()), p)
      ensures !p.admitted || !p.commits ==> !ok && Value() == old(Value())
    {
      if !p.admitted {
        return false;
      }
      var session := new Session();
      ok := RunBody(p.parts, session, depth);
      if !ok || !p.commits {
        return false;
      }
      CommittedExec(Value(), p, session.Value());
      data := data + session.staged;
      RunAfterCommit(session);
      return true;
    }
  }

  // ---------------------------------------------------------------- every run

  datatype Event = Subscribe(event: string, handler: Body) | Request(plan: Plan)

  function Step(s: State, e: Event): State {
    match e
    case Subscribe(event, handler) =>
      s.(handlers := s.handlers[event := HandlersOf(s.handlers, event) + [handler]])
    case Request(plan) => Exec(s, plan)
  }

  function Run(s: State, events: seq<Event>): State {
    if events == [] then s else Step(Run(s, events[..|events| - 1]), events[|events| - 1])
  }

  /** The work, of routes and handlers, of the requests of a run whose commit returned, in order. */
  function CommittedWork(s: State, events: seq<Event>): seq<Work> {
    if events == [] then []
    else
      var before, last := Run(s, events[..|events| - 1]), events[|events| - 1];
      CommittedWork(s, events[..|events| - 1])
        + if last.Request? && Commits(before, last.plan)
            then Reached(before.handlers, last.plan.parts, before.depth)
            else []
  }

  lemma {:induction false} RaisingSplit(a: seq<Job>, b: seq<Job>)
    ensures Raising(a + b) == Raising(a) + Raising(b)
  {
    if b == [] {
      assert a + b == a;
    } else {
      var init, last := b[..|b| - 1], b[|b| - 1];
      RaisingSplit(a, init);
      assert (a + b)[..|a + b| - 1] == a + init && (a + b)[|a + b| - 1] == last;
      Assoc(Raising(a), Raising(init), if last.raises then [last] else []);
    }
  }

  /** The sends that are lost are those that raise, as often as they were attempted. */
  lemma {:induction false} LostAreTheRaising(jobs: seq<Job>, j: Job)
    ensures multiset(Raising(jobs))[j] == if j.raises then multiset(jobs)[j] else 0
  {
    if jobs != [] {
      var init, last := jobs[..|jobs| - 1], jobs[|jobs| - 1];
      LostAreTheRaising(init, j);
      assert jobs == init + [last];
    }
  }

  /** What is left unrun is what the sends themselves queued. */
  lemma {:induction false} UnrunWasQueuedBySends(jobs: seq<Job>, j: Job)
    ensures j in Spawned(jobs) <==> exists k :: 0 <= k < |jobs| && j in jobs[k].queues
  {
    if jobs != [] {
      var init, last := jobs[..|jobs| - 1], jobs[|jobs| - 1];
      UnrunWasQueuedBySends(init, j);
      if k :| 0 <= k < |init| && j in init[k].queues {
        assert jobs[k] == init[k];
      }
      if k :| 0 <= k < |jobs| && j in jobs[k].queues {
        assert k < |init| ==> init[k] == jobs[k];
      }
    }
  }

  /** The committed part of `n` is that of `s` and this work's writes and sends. */
  ghost predicate Amounts(s: State, n: State, hs: seq<Work>) {
    && n.data == s.data + Writes(hs)
    && n.attempts == s.attempts + Queued(hs)
    && n.lost == s.lost + Raising(Queued(hs))
  }

  lemma AmountsMore(s: State, n: State, p: Plan, all: seq<Work>)
    requires Amounts(s, n, all) && Commits(n, p)
    ensures Amounts(s, Exec(n, p), all + Reached(n.handlers, p.parts, n.depth))
  {
    var more := Reached(n.handlers, p.parts, n.depth);
    WritesSplit(all, more);
    QueuedSplit(all, more);
    RaisingSplit(Queued(all), Queued(more));
    Assoc(s.data, Writes(all), Writes(more));
    Assoc(s.attempts, Queued(all), Queued(more));
    Assoc(s.lost, Raising(Queued(all)), Raising(Queued(more)));
  }

  /**
   Over every run: what is in the database, and what was ever sent, come from the same work:
   that of the requests whose commit returned, the routes' own and their handlers', nested
   ones included. Sends are attempted in the order they were queued, once each, and one that
   raises stops no other.
   */
  lemma {:induction false} SentIsWhatWasCommitted(s: State, events: seq<Event>)
    ensures Amounts(s, Run(s, events), CommittedWork(s, events))
  {
    if events != [] {
      var init := events[..|events| - 1];
      SentIsWhatWasCommitted(s, init);
      var before, last := Run(s, init), events[|events| - 1];
      var all := CommittedWork(s, init);
      if last.Request? && Commits(before, last.plan) {
        AmountsMore(s, before, last.plan, all);
      } else {
        assert all + [] == all;
      }
    }
  }

  /** Nothing that raised, route or handler, had its writes committed or its sends attempted, in any run. */
  lemma {:induction false} NothingFromWhatRaised(s: State, events: seq<Event>)
    ensures !Raised(CommittedWork(s, events))
  {
    if events != [] {
      var init := events[..|events| - 1];
      NothingFromWhatRaised(s, init);
      var before, last := Run(s, init), events[|events| - 1];
      if last.Request? && Commits(before, last.plan) {
        RaisedSplit(CommittedWork(s, init), Reached(before.handlers, last.plan.parts, before.depth));
      }
    }
  }

  /** The run without the requests that were refused or did not commit. */
  function Admitted(events: seq<Event>): seq<Event> {
    if events == [] then []
    else
      var last := events[|events| - 1];
      Admitted(events[..|events| - 1])
        + if last.Request? && (!last.plan.admitted || !last.plan.commits) then [] else [last]
  }

  /** Such requests might as well not have been made: no later request can tell. */
  lemma {:induction false} OnlyCommittedCount(s: State, events: seq<Event>)
    ensures Run(s, events) == Run(s, Admitted(events))
  {
    if events != [] {
      var init, last := events[..|events| - 1], events[|events| - 1];
      OnlyCommittedCount(s, init);
      if last.Request? && (!last.plan.admitted || !last.plan.commits) {
        assert Admitted(events) == Admitted(init);
      } else {
        var kept := Admitted(events);
        assert kept[..|kept| - 1] == Admitted(init) && kept[|kept| - 1] == last;
      }
    }
  }

  /** And a request without events that commits stores and sends all of its work, unless part of it raises. */
  lemma OwnWorkCommits(s: State, work: Work)
    ensures var n := Exec(s, Plan(true, [Own(work)], true));
            if work.raises then n == s
            else n.data == s.data + work.writes && n.attempts == s.attempts + work.queues && n.handlers == s.handlers
  {
    assert [Own(work)][1..] == [] && Reached(s.handlers, [Own(work)], s.depth) == [work];
    OwnWork(work);
  }

  lemma TwoHandlersReached(handlers: Registry, event: string, v: Work, w: Work, depth: nat)
    requires depth > 0 && event in handlers && handlers[event] == [[Own(v)], [Own(w)]]
    ensures Reached(handlers, [Publish(event)], depth) == [v, w]
  {
    PublishedReached(handlers, Publish(event), depth);
    var bodies := handlers[event];
    var first := bodies[..1];
    assert first == [[Own(v)]] && first[..0] == [] && Joined([]) == [];
    assert Joined(first) == [] + [Own(v)] == [Own(v)];
    assert bodies[..|bodies| - 1] == first && bodies[|bodies| - 1] == [Own(w)];
    assert Joined(bodies) == Joined(first) + [Own(w)];
    ReachedConcat(handlers, [Own(v)], [Own(w)], depth - 1);
    assert Reached(handlers, [Own(v)], depth - 1) == [v] by { assert [Own(v)][1..] == []; }
    assert Reached(handlers, [Own(w)], depth - 1) == [w] by { assert [Own(w)][1..] == []; }
  }

  /** Two handlers subscribed one after the other both run when the event is published, in that order. */
  lemma SubscribedHandlersRun(s: State, event: string, v: Work, w: Work)
    requires event !in s.handlers && s.depth > 0 && !v.raises && !w.raises
    ensures var subscribed := Step(Step(s, Subscribe(event, [Own(v)])), Subscribe(event, [Own(w)]));
            var n := Step(subscribed, Request(Plan(true, [Publish(event)], true)));
            n.data == s.data + v.writes + w.writes && n.attempts == s.attempts + v.queues + w.queues
  {
    var subscribed := Step(Step(s, Subscribe(event, [Own(v)])), Subscribe(event, [Own(w)]));
    assert [] + [[Own(v)]] + [[Own(w)]] == [[Own(v)], [Own(w)]];
    TwoHandlersReached(subscribed.handlers, event, v, w, s.depth);
    assert !Raised([v, w]);
    assert [v, w] == [v] + [w];
    InOrder(v, [v], [w]);
    InOrder(w, [v], [w]);
    Assoc(s.data, v.writes, w.writes);
    Assoc(s.attempts, v.queues, w.queues);
  }
}
