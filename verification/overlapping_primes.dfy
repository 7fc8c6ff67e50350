/**
 Any number of primes under way at once, in steps between which the worker can turn to
 another or to a page: storing a document, caching its assets, adding the page's list, pruning.
 */
module OverlappingPrimes {
  import opened ServiceWorker
  import opened Wrappers

  datatype Stage =
    | Storing(next: nat)
    | Caching(next: nat, path: Path, document: Document)   // stored, its assets not yet
    | Pruning
    | Done
    | WithoutDocument(path: Path)                          // failed on a document
    | WithoutAssets(path: Path, document: Document)        // failed on an asset of one just stored

  datatype Priming = Priming(world: World, supplementary: set<Url>, stage: Stage)

  datatype Many = Many(view: View, primes: map<nat, Priming>)

  datatype Action =
    | Begin(id: nat, world: World, supplementary: set<Url>)
    | Advance(id: nat)
    | Meanwhile(event: Event)      // a page navigates, asks for an asset, or clears the caches

  /** What a prime's pruning keeps. */
  function Kept(p: Priming): set<Url> {
    Named(p.world, OFFLINE_PATHS) + p.supplementary
  }

  function Advanced(v: View, p: Priming): (View, Stage) {
    match p.stage
    case Storing(next) =>
      if next >= |OFFLINE_PATHS| then (v.(assets := v.assets + p.supplementary * p.world.assets), Pruning)
      else
        var path := OFFLINE_PATHS[next];
        if !Fetchable(p.world, path) then (v, WithoutDocument(path))
        else
          var response := p.world.documents[path];
          (WithDocument(v, path, response), Caching(next, path, response.document))
    case Caching(next, path, document) =>
      var n := WithAssets(v, document.assets, p.world.assets);
      (n, if document.assets <= n.assets then Storing(next + 1) else WithoutAssets(path, document))
    case Pruning => (v.(assets := v.assets * Kept(p)), Done)
    case _ => (v, p.stage)
  }

  function Act(m: Many, a: Action): Many {
    match a
    case Begin(id, world, supplementary) =>
      if id in m.primes then m else m.(primes := m.primes[id := Priming(world, supplementary, Storing(0))])
    case Advance(id) =>
      if id !in m.primes then m
      else
        var (view, stage) := Advanced(m.view, m.primes[id]);
        Many(view, m.primes[id := m.primes[id].(stage := stage)])
    case Meanwhile(event) => if event.Prime? then m else m.(view := Exec(m.view, event))
  }

  function ActAll(m: Many, actions: seq<Action>): Many {
    if actions == [] then m else Act(ActAll(m, actions[..|actions| - 1]), actions[|actions| - 1])
  }

  // ---------------------------------------------------------------- a prime on its own

  function AdvancedTimes(m: Many, id: nat, n: nat): Many {
    if n == 0 then m else Act(AdvancedTimes(m, id, n - 1), Advance(id))
  }

  /** How a prime stands once its loop is through its first `i` paths, or has failed at one. */
  function After(w: World, i: nat, failure: Option<Failure>): Stage {
    match failure
    case None => Storing(i)
    case Some(NoDocument(path)) => WithoutDocument(path)
    case Some(NoAsset(path)) =>
      if path in w.documents then WithoutAssets(path, w.documents[path].document) else WithoutDocument(path)
  }

  /** One turn of the loop is two steps. */
  lemma TurnAlone(v: View, u: View, w: World, list: set<Url>, primes: map<nat, Priming>, id: nat, i: nat)
    requires i < |OFFLINE_PATHS| && Primed(v, w, OFFLINE_PATHS[..i]) == (u, None)
    ensures var (n, failure) := Primed(v, w, OFFLINE_PATHS[..i + 1]);
            Act(Act(Many(u, primes[id := Priming(w, list, Storing(i))]), Advance(id)), Advance(id))
              == Many(n, primes[id := Priming(w, list, After(w, i + 1, failure))])
  {
    assert OFFLINE_PATHS[..i + 1][..i] == OFFLINE_PATHS[..i];
  }

  /** A prime that has failed takes no more steps. */
  lemma FailedAlone(u: View, w: World, list: set<Url>, primes: map<nat, Priming>, id: nat, i: nat, failure: Failure)
    ensures var m := Many(u, primes[id := Priming(w, list, After(w, i, Some(failure)))]);
            Act(m, Advance(id)) == m && After(w, i + 1, Some(failure)) == After(w, i, Some(failure))
  {
  }

  lemma {:induction false} LoopAlone(v: View, w: World, list: set<Url>, primes: map<nat, Priming>, id: nat, i: nat)
    requires id !in primes && i <= |OFFLINE_PATHS|
    ensures var (u, failure) := Primed(v, w, OFFLINE_PATHS[..i]);
            AdvancedTimes(Act(Many(v, primes), Begin(id, w, list)), id, 2 * i)
              == Many(u, primes[id := Priming(w, list, After(w, i, failure))])
  {
    var begun := Act(Many(v, primes), Begin(id, w, list));
    if i == 0 {
      assert Primed(v, w, OFFLINE_PATHS[..0]) == (v, None);
    } else {
      LoopAlone(v, w, list, primes, id, i - 1);
      var before := AdvancedTimes(begun, id, 2 * i - 2);
      assert AdvancedTimes(begun, id, 2 * i) == Act(Act(before, Advance(id)), Advance(id)) by {
        assert AdvancedTimes(begun, id, 2 * i - 1) == Act(before, Advance(id));
      }
      var (u, failure) := Primed(v, w, OFFLINE_PATHS[..i - 1]);
      if failure.None? {
        TurnAlone(v, u, w, list, primes, id, i - 1);
      } else {
        FailedAlone(u, w, list, primes, id, i - 1, failure.value);
        assert OFFLINE_PATHS[..i][..i - 1] == OFFLINE_PATHS[..i - 1];
      }
    }
  }

  /** With nothing in between, these steps are the whole prime as its method runs it. */
  lemma AloneIsAtomic(v: View, w: World, list: set<Url>, primes: map<nat, Priming>, id: nat)
    requires id !in primes
    ensures var failure := Primed(v, w, OFFLINE_PATHS).1;
            AdvancedTimes(Act(Many(v, primes), Begin(id, w, list)), id, 2 * |OFFLINE_PATHS| + 2)
              == Many(PrimedAndPruned(v, w, list),
                      primes[id := Priming(w, list, if failure.None? then Done else After(w, 0, failure))])
  {
    var n := |OFFLINE_PATHS|;
    LoopAlone(v, w, list, primes, id, n);
    assert OFFLINE_PATHS[..n] == OFFLINE_PATHS;
    var begun := Act(Many(v, primes), Begin(id, w, list));
    var looped := AdvancedTimes(begun, id, 2 * n);
    assert AdvancedTimes(begun, id, 2 * n + 1) == Act(looped, Advance(id));
    assert AdvancedTimes(begun, id, 2 * n + 2) == Act(Act(looped, Advance(id)), Advance(id));
  }

  // ---------------------------------------------------------------- any number of them

  /** A prime is about to cache the assets of this document, or has failed to and said so. */
  predicate Awaits(p: Priming, path: Path, document: Document) {
    || p.stage == WithoutAssets(path, document)
    || (p.stage.Caching? && p.stage.path == path && p.stage.document == document)
  }

  ghost predicate Awaited(primes: map<nat, Priming>, path: Path, document: Document) {
    exists id :: id in primes && Awaits(primes[id], path, document)
  }

  /** Every stored document has its assets, but for those a prime is still fetching or has failed to fetch. */
  ghost predicate Covered(m: Many) {
    forall path :: path in m.view.documents ==>
      || m.view.documents[path].document.assets <= m.view.assets
      || Awaited(m.primes, path, m.view.documents[path].document)
  }

  /** This prime's pruning drops an asset that a stored document needs, and no prime is to fetch again. */
  ghost predicate PrunesNeeded(m: Many, a: Action) {
    && a.Advance? && a.id in m.primes && m.primes[a.id].stage.Pruning?
    && exists path :: path in m.view.documents
         && !Awaited(m.primes, path, m.view.documents[path].document)
         && !(m.view.documents[path].document.assets <= Kept(m.primes[a.id]))
  }

  predicate StoresDocument(a: Action) {
    && a.Meanwhile? && a.event.Navigate? && a.event.path in OFFLINE_PATHS
    && a.event.network.Some? && IsCacheableDocument(a.event.network.value)
  }

  /** A navigation stores a document some asset of which is neither cached nor about to be. */
  ghost predicate StoresIncomplete(m: Many, a: Action) {
    && StoresDocument(a)
    && var document := a.event.network.value.document;
       !(document.assets <= m.view.assets) && !Awaited(m.primes, a.event.path, document)
  }

  /** The two ways for a document to lose, or never to have, an asset it needs offline. */
  ghost predicate Uncovers(m: Many, a: Action) {
    PrunesNeeded(m, a) || StoresIncomplete(m, a)
  }

  /** A prime that was not awaiting changes nothing for the others' awaiting. */
  lemma AwaitedStill(primes: map<nat, Priming>, id: nat, p: Priming, path: Path, document: Document)
    requires Awaited(primes, path, document)
    requires id in primes ==> !Awaits(primes[id], path, document) || Awaits(p, path, document)
    ensures Awaited(primes[id := p], path, document)
  {
    var other :| other in primes && Awaits(primes[other], path, document);
    assert Awaits(primes[id := p][other], path, document);
  }

  lemma AwaitedBefore(primes: map<nat, Priming>, id: nat, p: Priming, path: Path, document: Document)
    requires Awaited(primes[id := p], path, document) && !Awaits(p, path, document)
    ensures Awaited(primes, path, document)
  {
    var other :| other in primes[id := p] && Awaits(primes[id := p][other], path, document);
    assert Awaits(primes[other], path, document);
  }

  lemma BeginCovered(m: Many, a: Action)
    requires Covered(m) && a.Begin?
    ensures Covered(Act(m, a))
  {
    forall path | path in m.view.documents && Awaited(m.primes, path, m.view.documents[path].document)
      ensures Awaited(Act(m, a).primes, path, m.view.documents[path].document)
    {
      if a.id !in m.primes {
        var begun := Priming(a.world, a.supplementary, Storing(0));
        AwaitedStill(m.primes, a.id, begun, path, m.view.documents[path].document);
      }
    }
  }

  lemma StoreCovered(m: Many, id: nat)
    requires Covered(m) && id in m.primes && m.primes[id].stage.Storing?
    ensures Covered(Act(m, Advance(id)))
  {
    var p, n := m.primes[id], Act(m, Advance(id));
    forall path | path in n.view.documents
      ensures n.view.documents[path].document.assets <= n.view.assets
           || Awaited(n.primes, path, n.view.documents[path].document)
    {
      if Awaits(n.primes[id], path, n.view.documents[path].document) {
      } else if Awaited(m.primes, path, m.view.documents[path].document) {
        AwaitedStill(m.primes, id, n.primes[id], path, m.view.documents[path].document);
      }
    }
  }

  lemma CacheCovered(m: Many, id: nat)
    requires Covered(m) && id in m.primes && m.primes[id].stage.Caching?
    ensures Covered(Act(m, Advance(id)))
  {
    var p, n := m.primes[id], Act(m, Advance(id));
    forall path | path in n.view.documents
      ensures n.view.documents[path].document.assets <= n.view.assets
           || Awaited(n.primes, path, n.view.documents[path].document)
    {
      var document := m.view.documents[path].document;
      if Awaited(m.primes, path, document) && !(document.assets <= n.view.assets) {
        AwaitedStill(m.primes, id, n.primes[id], path, document);
      }
    }
  }

  lemma PruneCoveredIff(m: Many, id: nat)
    requires Covered(m) && id in m.primes && m.primes[id].stage.Pruning?
    ensures Covered(Act(m, Advance(id))) <==> !PrunesNeeded(m, Advance(id))
  {
    var p, n := m.primes[id], Act(m, Advance(id));
    forall path | path in m.view.documents
      ensures Awaited(n.primes, path, m.view.documents[path].document)
         <==> Awaited(m.primes, path, m.view.documents[path].document)
    {
      var document := m.view.documents[path].document;
      if Awaited(m.primes, path, document) {
        AwaitedStill(m.primes, id, n.primes[id], path, document);
      }
      if Awaited(n.primes, path, document) {
        AwaitedBefore(m.primes, id, n.primes[id], path, document);
      }
    }
  }

  lemma OverCovered(m: Many, id: nat)
    requires Covered(m) && id in m.primes
    requires m.primes[id].stage.Done? || m.primes[id].stage.WithoutDocument? || m.primes[id].stage.WithoutAssets?
    ensures Covered(Act(m, Advance(id)))
  {
    assert Act(m, Advance(id)).primes == m.primes;
  }

  lemma MeanwhileCoveredIff(m: Many, a: Action)
    requires Covered(m) && a.Meanwhile?
    ensures Covered(Act(m, a)) <==> !StoresIncomplete(m, a)
  {
    var n := Act(m, a);
    if StoresDocument(a) {
      var path := a.event.path;
      assert n.view.documents[path].document == a.event.network.value.document;
      assert forall other :: other in n.view.documents && other != path ==>
          other in m.view.documents && n.view.documents[other] == m.view.documents[other];
    } else {
      assert forall path :: path in n.view.documents ==>
          path in m.view.documents && n.view.documents[path] == m.view.documents[path];
    }
  }

  lemma ActCoveredIff(m: Many, a: Action)
    requires Covered(m)
    ensures Covered(Act(m, a)) <==> !Uncovers(m, a)
  {
    if a.Begin? {
      BeginCovered(m, a);
    } else if a.Meanwhile? {
      MeanwhileCoveredIff(m, a);
    } else if a.id in m.primes {
      match m.primes[a.id].stage {
        case Storing(_) => StoreCovered(m, a.id);
        case Caching(_, _, _) => CacheCovered(m, a.id);
        case Pruning => PruneCoveredIff(m, a.id);
        case _ => OverCovered(m, a.id);
      }
    }
  }

  lemma ActNext(m: Many, actions: seq<Action>, k: nat)
    requires k < |actions|
    ensures ActAll(m, actions[..k + 1]) == Act(ActAll(m, actions[..k]), actions[k])
  {
    assert actions[..k + 1][..k] == actions[..k];
  }

  ghost predicate CoveredThroughout(m: Many, actions: seq<Action>) {
    forall k :: 0 <= k <= |actions| ==> Covered(ActAll(m, actions[..k]))
  }

  ghost predicate NothingUncovered(m: Many, actions: seq<Action>) {
    forall k :: 0 <= k < |actions| ==> !Uncovers(ActAll(m, actions[..k]), actions[k])
  }

  lemma {:induction false} CoveredUpTo(m: Many, actions: seq<Action>, k: nat)
    requires Covered(m) && NothingUncovered(m, actions) && k <= |actions|
    ensures Covered(ActAll(m, actions[..k]))
  {
    if k > 0 {
      CoveredUpTo(m, actions, k - 1);
      ActNext(m, actions, k - 1);
      ActCoveredIff(ActAll(m, actions[..k - 1]), actions[k - 1]);
    }
  }

  /**
   However any number of primes interleave, with each other and with what pages do: every
   stored document has its assets, or a prime still to fetch them or that answered it could
   not, throughout, exactly when no pruning drops an asset of a stored document that nothing
   is to fetch again, and no navigation stores a document whose assets nothing has or fetches.
   */
  lemma CoveredThroughoutIff(m: Many, actions: seq<Action>)
    requires Covered(m)
    ensures CoveredThroughout(m, actions) <==> NothingUncovered(m, actions)
  {
    if NothingUncovered(m, actions) {
      forall k | 0 <= k <= |actions| ensures Covered(ActAll(m, actions[..k])) {
        CoveredUpTo(m, actions, k);
      }
    }
    if CoveredThroughout(m, actions) {
      forall k | 0 <= k < |actions| ensures !Uncovers(ActAll(m, actions[..k]), actions[k]) {
        ActNext(m, actions, k);
        assert Covered(ActAll(m, actions[..k + 1]));
        ActCoveredIff(ActAll(m, actions[..k]), actions[k]);
      }
    }
  }

  // ---------------------------------------------------------------- primes of one build

  /** All stored and all primes' documents name assets of `build` only, and all prunings keep those. */
  ghost predicate OneBuild(m: Many, build: set<Url>) {
    && (forall path :: path in m.view.documents ==> m.view.documents[path].document.assets <= build)
    && (forall id :: id in m.primes ==> Named(m.primes[id].world, OFFLINE_PATHS) <= build <= Kept(m.primes[id]))
  }

  ghost predicate OfOneBuild(a: Action, build: set<Url>) {
    && (a.Begin? ==> Named(a.world, OFFLINE_PATHS) <= build <= Named(a.world, OFFLINE_PATHS) + a.supplementary)
    && !StoresDocument(a)
  }

  lemma ActOneBuild(m: Many, a: Action, build: set<Url>)
    requires OneBuild(m, build) && OfOneBuild(a, build)
    ensures OneBuild(Act(m, a), build) && !Uncovers(m, a)
  {
    if a.Advance? && a.id in m.primes {
      var p := m.primes[a.id];
      if p.stage.Storing? && p.stage.next < |OFFLINE_PATHS| && Fetchable(p.world, OFFLINE_PATHS[p.stage.next]) {
        NamedIncludes(p.world, OFFLINE_PATHS, OFFLINE_PATHS[p.stage.next]);
      }
    }
  }

  lemma {:induction false} RunOneBuild(m: Many, actions: seq<Action>, build: set<Url>)
    requires OneBuild(m, build) && Covered(m)
    requires forall k :: 0 <= k < |actions| ==> OfOneBuild(actions[k], build)
    ensures OneBuild(ActAll(m, actions), build) && Covered(ActAll(m, actions))
  {
    if actions != [] {
      var before, last := ActAll(m, actions[..|actions| - 1]), actions[|actions| - 1];
      RunOneBuild(m, actions[..|actions| - 1], build);
      ActOneBuild(before, last, build);
      ActCoveredIff(before, last);
    }
  }

  /** No prime is fetching assets, and none failed to. */
  predicate Settled(m: Many) {
    forall id :: id in m.primes ==> !m.primes[id].stage.Caching? && !m.primes[id].stage.WithoutAssets?
  }

  /**
   Between two deploys, any number of primes that interleave in any way, and with pages served
   from the caches meanwhile, leave these closed whenever none is fetching assets or has failed to.
   */
  lemma OneBuildCloses(v: View, actions: seq<Action>, build: set<Url>)
    requires Closed(v) && OneBuild(Many(v, map[]), build)
    requires forall k :: 0 <= k < |actions| ==> OfOneBuild(actions[k], build)
    requires Settled(ActAll(Many(v, map[]), actions))
    ensures Closed(ActAll(Many(v, map[]), actions).view)
  {
    RunOneBuild(Many(v, map[]), actions, build);
  }
}
