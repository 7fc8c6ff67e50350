/**
 The offline service worker's caches: priming the allow-listed documents with every asset
 they name, pruning, and serving a document for at most a day.

 The network, the clock and the reading of asset URLs out of a document's markup are
 parameters: a document comes with the assets it names.
 */
module ServiceWorker {
  import opened Wrappers

  type Path = string
  type Url = string
  type Time = int

  /** The only paths whose documents may be cached. */
  const OFFLINE_PATHS: seq<Path> := ["/estimates/capture", "/my-tasks"]

  const DOCUMENT_MAX_AGE: Time := 24 * 60 * 60 * 1000

  datatype Document = Document(body: nat, assets: set<Url>)

  /** A response, and the moment it would be stored. */
  datatype Response = Response(ok: bool, redirected: bool, html: bool, document: Document, at: Time)

  /** A stored document, with the moment it was stored. */
  datatype Stored = Stored(document: Document, at: Time)

  /** The document cache, the stamps beside it, and the static cache. */
  datatype View = View(documents: map<Path, Stored>, stamps: map<Path, Time>, assets: set<Url>)

  datatype Failure = NoDocument(path: Path) | NoAsset(path: Path)

  /** What a prime meets: the documents as fetched, and the assets that can be fetched. */
  datatype World = World(documents: map<Path, Response>, assets: set<Url>)

  predicate IsCacheableDocument(r: Response) {
    r.ok && !r.redirected && r.html
  }

  predicate Fetchable(w: World, path: Path) {
    path in w.documents && IsCacheableDocument(w.documents[path])
  }

  /** `putDocument`: the document, and its stamp. */
  function WithDocument(v: View, path: Path, r: Response): View {
    v.(documents := v.documents[path := Stored(r.document, r.at)], stamps := v.stamps[path := r.at])
  }

  /** All fetches are started, and those that succeed are stored, even when another fails. */
  function WithAssets(v: View, urls: set<Url>, server: set<Url>): View {
    v.(assets := v.assets + urls * server)
  }

  predicate Stale(v: View, path: Path, now: Time)
    requires path in v.documents
  {
    path !in v.stamps || now - v.stamps[path] > DOCUMENT_MAX_AGE
  }

  /** `freshCachedDocument`: serve, or forget. */
  function Fresh(v: View, path: Path, now: Time): (View, Option<Stored>) {
    if path !in v.documents then (v, None)
    else if Stale(v, path, now) then (v.(documents := v.documents - {path}, stamps := v.stamps - {path}), None)
    else (v, Some(v.documents[path]))
  }

  /** Network first; the cache only when the network fails. */
  function Navigated(v: View, path: Path, network: Option<Response>, now: Time): (View, Option<Stored>) {
    if path !in OFFLINE_PATHS then (v, None)
    else if network.None? then Fresh(v, path, now)
    else if IsCacheableDocument(network.value) then (WithDocument(v, path, network.value), None)
    else (v, None)
  }

  /** The prime's loop over `paths`; after a failure it does nothing more. */
  function Primed(v: View, w: World, paths: seq<Path>): (View, Option<Failure>) {
    if paths == [] then (v, None)
    else
      var (u, failure) := Primed(v, w, paths[..|paths| - 1]);
      var path := paths[|paths| - 1];
      if failure.Some? then (u, failure)
      else if !Fetchable(w, path) then (u, Some(NoDocument(path)))
      else
        var n := WithAssets(WithDocument(u, path, w.documents[path]), w.documents[path].document.assets, w.assets);
        (n, if w.documents[path].document.assets <= n.assets then None else Some(NoAsset(path)))
  }

  /** The assets named by the documents of these paths. */
  function Named(w: World, paths: seq<Path>): set<Url> {
    if paths == [] then {} else
      var path := paths[|paths| - 1];
      Named(w, paths[..|paths| - 1]) + if path in w.documents then w.documents[path].document.assets else {}
  }

  /** Every asset a stored document names is in the static cache. */
  ghost predicate Closed(v: View) {
    forall path :: path in v.documents ==> v.documents[path].document.assets <= v.assets
  }

  /** The path is stored and stamped as the world just gave it, with all its assets. */
  predicate Ready(v: View, w: World, path: Path) {
    && Fetchable(w, path)
    && path in v.documents && v.documents[path] == Stored(w.documents[path].document, w.documents[path].at)
    && path in v.stamps && v.stamps[path] == w.documents[path].at
    && v.documents[path].document.assets <= v.assets
  }

  lemma {:induction false} PrimedKeeps(v: View, w: World, paths: seq<Path>)
    ensures var n := Primed(v, w, paths).0;
            && v.assets <= n.assets <= v.assets + w.assets
            && forall path :: path !in paths ==>
                 && (path in n.documents <==> path in v.documents)
                 && (path in n.documents ==> n.documents[path] == v.documents[path])
  {
    if paths != [] {
      var init := paths[..|paths| - 1];
      PrimedKeeps(v, w, init);
      assert paths == init + [paths[|paths| - 1]];
    }
  }

  lemma {:induction false} PrimedOk(v: View, w: World, paths: seq<Path>)
    requires Primed(v, w, paths).1.None?
    ensures var n := Primed(v, w, paths).0;
            && (forall path :: path in paths ==> Ready(n, w, path))
            && n.assets == v.assets + Named(w, paths)
  {
    if paths != [] {
      var init, last := paths[..|paths| - 1], paths[|paths| - 1];
      PrimedOk(v, w, init);
      var u, n := Primed(v, w, init).0, Primed(v, w, paths).0;
      assert paths == init + [last];
      forall path | path in paths ensures Ready(n, w, path) {
        assert path != last ==> Ready(u, w, path);
      }
    }
  }

  /**
   Where a prime stops, everything stored before is intact and complete if it was a document
   that was refused; if an asset was, a document now lies in the cache without it.
   */
  lemma {:induction false} FailureCloses(v: View, w: World, paths: seq<Path>)
    requires Closed(v)
    ensures var (n, failure) := Primed(v, w, paths);
            Closed(n) <==> failure.None? || failure.value.NoDocument?
  {
    if paths != [] {
      FailureCloses(v, w, paths[..|paths| - 1]);
      var path, u, n := paths[|paths| - 1], Primed(v, w, paths[..|paths| - 1]), Primed(v, w, paths).0;
      if u.1.None? && Fetchable(w, path) {
        assert n.documents[path].document == w.documents[path].document;
        forall other | other in n.documents && other != path ensures n.documents[other].document.assets <= n.assets {
          assert other in u.0.documents;
        }
      }
    }
  }

  lemma {:induction false} StaysFailed(v: View, w: World, paths: seq<Path>, k: nat)
    requires k <= |paths| && Primed(v, w, paths[..k]).1.Some?
    ensures Primed(v, w, paths) == Primed(v, w, paths[..k])
  {
    if k < |paths| {
      assert paths[..|paths| - 1][..k] == paths[..k];
      StaysFailed(v, w, paths[..|paths| - 1], k);
    } else {
      assert paths[..k] == paths;
    }
  }

  lemma StopsAt(v: View, w: World, paths: seq<Path>, k: nat)
    requires k <= |paths| && Primed(v, w, paths[..k]).1.Some?
    ensures Primed(v, w, paths) == Primed(v, w, paths[..k]) && v.assets <= Primed(v, w, paths).0.assets
  {
    StaysFailed(v, w, paths, k);
    PrimedKeeps(v, w, paths);
  }

  lemma {:induction false} NamedIncludes(w: World, paths: seq<Path>, path: Path)
    requires path in paths && path in w.documents
    ensures w.documents[path].document.assets <= Named(w, paths)
  {
    if path != paths[|paths| - 1] {
      assert paths == paths[..|paths| - 1] + [paths[|paths| - 1]];
      NamedIncludes(w, paths[..|paths| - 1], path);
    }
  }

  /** The end of a prime whose loop met world `w`: the page's list, and pruning to its own names. */
  function Pruned(v: View, w: World, supplementary: set<Url>): View {
    v.(assets := (v.assets + supplementary * w.assets) * (Named(w, OFFLINE_PATHS) + supplementary))
  }

  /** The whole of PRIME_DOCUMENTS; only after success does it add the page's list and prune. */
  function PrimedAndPruned(v: View, w: World, supplementary: set<Url>): View {
    var (n, failure) := Primed(v, w, OFFLINE_PATHS);
    if failure.Some? then n else Pruned(n, w, supplementary)
  }

  // ---------------------------------------------------------------- the worker

  class Worker {
    var documents: map<Path, Stored>
    var stamps: map<Path, Time>
    var assets: set<Url>

    function Value(): View
      reads this
    {
      View(documents, stamps, assets)
    }

    constructor ()
      ensures Value() == View(map[], map[], {})
    {
      documents, stamps, assets := map[], map[], {};
    }

    method PutDocument(path: Path, response: Response)
      modifies this
      ensures Value() == WithDocument(old(Value()), path, response)
    {
      documents := documents[path := Stored(response.document, response.at)];
      stamps := stamps[path := response.at];
    }

    /** False if one could not be stored. */
    method CacheAssets(urls: set<Url>, server: set<Url>) returns (ok: bool)
      modifies this
      ensures Value() == WithAssets(old(Value()), urls, server)
      ensures ok <==> urls <= assets
    {
      var todo := urls;
      ok := true;
      while todo != {}
        invariant todo <= urls
        invariant Value() == WithAssets(old(Value()), urls - todo, server)
        invariant ok <==> urls - todo <= assets
        decreases todo
      {
        var url :| url in todo;
        todo := todo - {url};
        if url !in assets {
          if url in server {
            assets := assets + {url};
          } else {
            ok := false;
          }
        }
      }
      assert urls - todo == urls;
    }

    method PruneStaticCache(keep: set<Url>)
      modifies this
      ensures Value() == old(Value()).(assets := old(assets) * keep)
    {
      var stored := assets;
      while stored != {}
        invariant stored <= old(assets)
        invariant Value() == old(Value()).(assets := old(assets) * keep + stored)
        decreases stored
      {
        var url :| url in stored;
        stored := stored - {url};
        if url !in keep {
          assets := assets - {url};
        }
      }
    }

    method FreshCachedDocument(path: Path, now: Time) returns (cached: Option<Stored>)
      modifies this
      ensures (Value(), cached) == Fresh(old(Value()), path, now)
    {
      if path !in documents {
        return None;
      }
      cached := Some(documents[path]);
      if path !in stamps || now - stamps[path] > DOCUMENT_MAX_AGE {
        documents := documents - {path};
        stamps := stamps - {path};
        cached := None;
      }
    }

    /** A navigation; `served` is the document taken from the cache, if it came to that. */
    method HandleNavigation(path: Path, network: Option<Response>, now: Time) returns (served: Option<Stored>)
      modifies this
      ensures (Value(), served) == Navigated(old(Value()), path, network, now)
    {
      served := None;
      if path !in OFFLINE_PATHS {
        return;
      }
      if network.None? {
        served := FreshCachedDocument(path, now);
      } else if IsCacheableDocument(network.value) {
        PutDocument(path, network.value);
      }
    }

    /**
     PRIME_DOCUMENTS. After `ok`, every allow-listed path is stored as just fetched and
     stamped, and the static cache holds every asset those documents name; pruning left
     nothing but those and the page's own list. A failed prime removes no asset.
     */
    method PrimeDocuments(w: World, supplementary: set<Url>) returns (failure: Option<Failure>)
      modifies this
      ensures failure == Primed(old(Value()), w, OFFLINE_PATHS).1
      ensures Value() == PrimedAndPruned(old(Value()), w, supplementary)
      ensures failure.Some? ==> old(assets) <= assets
      ensures failure.None? ==>
        && (forall path :: path in OFFLINE_PATHS ==> Ready(Value(), w, path))
        && Named(w, OFFLINE_PATHS) <= assets
        && assets == Named(w, OFFLINE_PATHS) + supplementary * (old(assets) + w.assets)
    {
      ghost var before := Value();
      var primed: set<Url> := {};
      for i := 0 to |OFFLINE_PATHS|
        invariant (Value(), None) == Primed(before, w, OFFLINE_PATHS[..i])
        invariant primed == Named(w, OFFLINE_PATHS[..i])
      {
        assert OFFLINE_PATHS[..i + 1][..i] == OFFLINE_PATHS[..i];
        var path := OFFLINE_PATHS[i];
        if path !in w.documents || !IsCacheableDocument(w.documents[path]) {
          failure := Some(NoDocument(path));
          StopsAt(before, w, OFFLINE_PATHS, i + 1);
          return;
        }
        PutDocument(path, w.documents[path]);
        var ok := CacheAssets(w.documents[path].document.assets, w.assets);
        if !ok {
          failure := Some(NoAsset(path));
          StopsAt(before, w, OFFLINE_PATHS, i + 1);
          return;
        }
        primed := primed + w.documents[path].document.assets;
      }
      assert OFFLINE_PATHS[..|OFFLINE_PATHS|] == OFFLINE_PATHS;
      PrimedOk(before, w, OFFLINE_PATHS);
      PrimedKeeps(before, w, OFFLINE_PATHS);
      ghost var stored := Value();
      var _ := CacheAssets(supplementary, w.assets);
      PruneStaticCache(primed + supplementary);
      forall path | path in OFFLINE_PATHS ensures Ready(Value(), w, path) {
        assert Ready(stored, w, path);
        NamedIncludes(w, OFFLINE_PATHS, path);
      }
      return None;
    }

    method Clear()
      modifies this
      ensures Value() == View(map[], map[], {})
    {
      documents, stamps, assets := map[], map[], {};
    }
  }

  // ---------------------------------------------------------------- one thing at a time

  datatype Event =
    | Prime(world: World, supplementary: set<Url>)
    | Navigate(path: Path, network: Option<Response>, now: Time)
    | FetchAsset(url: Url, ok: bool)     // a page asks for build output
    | Clear

  function Exec(v: View, e: Event): View {
    match e
    case Prime(w, supplementary) => PrimedAndPruned(v, w, supplementary)
    case Navigate(path, network, now) => Navigated(v, path, network, now).0
    case FetchAsset(url, ok) => if ok then v.(assets := v.assets + {url}) else v
    case Clear => View(map[], map[], {})
  }

  function Run(v: View, events: seq<Event>): View {
    if events == [] then v else Exec(Run(v, events[..|events| - 1]), events[|events| - 1])
  }

  /** Only allow-listed documents are stored, each with the stamp of the moment it was stored. */
  ghost predicate Inv(v: View) {
    && (forall path :: path in v.documents ==> path in OFFLINE_PATHS)
    && (forall path :: path in v.documents ==> path in v.stamps && v.stamps[path] == v.documents[path].at)
  }

  lemma {:induction false} PrimedStamps(v: View, w: World, paths: seq<Path>)
    requires Inv(v) && forall path :: path in paths ==> path in OFFLINE_PATHS
    ensures Inv(Primed(v, w, paths).0)
  {
    if paths != [] {
      PrimedStamps(v, w, paths[..|paths| - 1]);
      assert paths[|paths| - 1] in paths;
    }
  }

  lemma {:induction false} RunKeeps(v: View, events: seq<Event>)
    requires Inv(v)
    ensures Inv(Run(v, events))
  {
    if events != [] {
      var before, e := Run(v, events[..|events| - 1]), events[|events| - 1];
      RunKeeps(v, events[..|events| - 1]);
      if e.Prime? {
        PrimedStamps(before, e.world, OFFLINE_PATHS);
      }
    }
  }

  /**
   With the worker's events taken one at a time, after any run: what a navigation is served
   from the cache is an allow-listed document stored no more than a day before.
   */
  lemma ServedWithinADay(events: seq<Event>, path: Path, network: Option<Response>, now: Time)
    ensures var served := Navigated(Run(View(map[], map[], {}), events), path, network, now).1;
            served.Some? ==>
              && network.None? && (path == "/estimates/capture" || path == "/my-tasks")
              && now - served.value.at <= 86_400_000
  {
    RunKeeps(View(map[], map[], {}), events);
  }

  /** Online, a navigation stores what it got exactly if that is a document as it was asked for. */
  lemma NavigationStores(v: View, path: Path, r: Response, now: Time)
    ensures var stores := (path == "/estimates/capture" || path == "/my-tasks") && r.ok && !r.redirected && r.html;
            var stored := View(v.documents[path := Stored(r.document, r.at)], v.stamps[path := r.at], v.assets);
            Navigated(v, path, Some(r), now) == (if stores then stored else v, None)
  {
  }

  /** What was stored is served offline for a day, and forgotten by the first navigation after that. */
  lemma StoredForADay(v: View, path: Path, r: Response, later: Time, now: Time)
    requires path in OFFLINE_PATHS && IsCacheableDocument(r)
    ensures var n := Navigated(v, path, Some(r), now).0;
            var (m, served) := Navigated(n, path, None, later);
            if later - r.at <= 86_400_000 then m == n && served == Some(Stored(r.document, r.at))
            else path !in m.documents && path !in m.stamps && served == None && m.assets == v.assets
  {
  }

  /** A prime succeeds exactly if both documents come as asked for, with every asset stored or to be had. */
  lemma PrimeSucceedsIff(v: View, w: World)
    ensures Primed(v, w, OFFLINE_PATHS).1.None? <==>
              && Offers(v, w, "/estimates/capture") && Offers(v, w, "/my-tasks")
  {
    var one := OFFLINE_PATHS[..1];
    assert one[..0] == [] && OFFLINE_PATHS[..|OFFLINE_PATHS| - 1] == one;
    assert Primed(v, w, []) == (v, None);
    PrimedKeeps(v, w, one);
    PrimedKeeps(v, w, OFFLINE_PATHS);
  }

  predicate Offers(v: View, w: World, path: Path) {
    && path in w.documents
    && w.documents[path].ok && !w.documents[path].redirected && w.documents[path].html
    && w.documents[path].document.assets <= v.assets + w.assets
  }

  /** Build output a page asked for is kept if it could be had; clearing forgets everything. */
  lemma PagesKeepAssets(v: View, url: Url, ok: bool)
    ensures url in Exec(v, FetchAsset(url, ok)).assets <==> ok || url in v.assets
    ensures Exec(v, FetchAsset(url, ok)).documents == v.documents && v.assets <= Exec(v, FetchAsset(url, ok)).assets
    ensures Exec(v, Event.Clear).documents == map[] && Exec(v, Event.Clear).assets == {}
  {
  }

  /** A successful prime leaves the caches closed, whatever state they were in. */
  lemma PrimeCloses(events: seq<Event>, w: World, supplementary: set<Url>)
    requires Primed(Run(View(map[], map[], {}), events), w, OFFLINE_PATHS).1.None?
    ensures Closed(Exec(Run(View(map[], map[], {}), events), Prime(w, supplementary)))
  {
    var v := Run(View(map[], map[], {}), events);
    RunKeeps(View(map[], map[], {}), events);
    PrimedStamps(v, w, OFFLINE_PATHS);
    PrimedOk(v, w, OFFLINE_PATHS);
    var u, n := Primed(v, w, OFFLINE_PATHS).0, Exec(v, Prime(w, supplementary));
    forall path | path in n.documents ensures n.documents[path].document.assets <= n.assets {
      assert Ready(u, w, path);
      NamedIncludes(w, OFFLINE_PATHS, path);
    }
  }

  /** And a prime that failed keeps closed caches closed exactly if no asset was the reason. */
  lemma FailedPrimeCloses(v: View, w: World, supplementary: set<Url>)
    requires Closed(v) && Primed(v, w, OFFLINE_PATHS).1.Some?
    ensures v.assets <= Exec(v, Prime(w, supplementary)).assets
    ensures Closed(Exec(v, Prime(w, supplementary))) <==> Primed(v, w, OFFLINE_PATHS).1.value.NoDocument?
  {
    FailureCloses(v, w, OFFLINE_PATHS);
    PrimedKeeps(v, w, OFFLINE_PATHS);
  }

  /**
   A navigation that stores its document keeps closed caches closed exactly if they already
   hold every asset it names; one that stores nothing always does.
   */
  lemma NavigationClosesIff(v: View, path: Path, network: Option<Response>, now: Time)
    requires Closed(v)
    ensures var stores := path in OFFLINE_PATHS && network.Some? && IsCacheableDocument(network.value);
            Closed(Navigated(v, path, network, now).0) <==> (stores ==> network.value.document.assets <= v.assets)
  {
    var n := Navigated(v, path, network, now).0;
    if path in OFFLINE_PATHS && network.Some? && IsCacheableDocument(network.value) {
      assert n.documents[path].document == network.value.document;
      forall other | other in n.documents && other != path ensures n.documents[other].document.assets <= n.assets {
        assert other in v.documents;
      }
    }
  }

  // ---------------------------------------------------------------- primes that overlap

  /** Pruning keeps closed caches closed exactly if it keeps every asset a stored document names. */
  lemma PruningClosesIff(v: View, w: World, supplementary: set<Url>)
    requires Closed(v)
    ensures Closed(Pruned(v, w, supplementary)) <==>
              forall path :: path in v.documents ==>
                v.documents[path].document.assets <= Named(w, OFFLINE_PATHS) + supplementary
  {
    var n := Pruned(v, w, supplementary);
    forall path | path in v.documents
      ensures v.documents[path].document.assets <= n.assets <==>
                v.documents[path].document.assets <= Named(w, OFFLINE_PATHS) + supplementary
    {
    }
  }

  lemma {:induction false} NamedWithin(w: World, paths: seq<Path>, keep: set<Url>)
    requires forall path :: path in paths && path in w.documents ==> w.documents[path].document.assets <= keep
    ensures Named(w, paths) <= keep
  {
    if paths != [] {
      assert paths == paths[..|paths| - 1] + [paths[|paths| - 1]];
      NamedWithin(w, paths[..|paths| - 1], keep);
    }
  }

  /**
   A whole prime that falls between another's loop and its pruning. Both answer ok. The
   caches end closed exactly if the outer prime keeps every asset the inner one's documents
   name: always when the two met one build, never when a deploy renamed an asset between.
   */
  lemma OverlappingPrimesCloseIff(v: View, outer: World, outerList: set<Url>, inner: World, innerList: set<Url>)
    requires Inv(v) && Primed(v, outer, OFFLINE_PATHS).1.None?
    requires Primed(Primed(v, outer, OFFLINE_PATHS).0, inner, OFFLINE_PATHS).1.None?
    ensures var between := PrimedAndPruned(Primed(v, outer, OFFLINE_PATHS).0, inner, innerList);
            Closed(Pruned(between, outer, outerList)) <==>
              Named(inner, OFFLINE_PATHS) <= Named(outer, OFFLINE_PATHS) + outerList
  {
    var start := Primed(v, outer, OFFLINE_PATHS).0;
    PrimedStamps(v, outer, OFFLINE_PATHS);
    PrimedStamps(start, inner, OFFLINE_PATHS);
    PrimedOk(start, inner, OFFLINE_PATHS);
    var primed, between := Primed(start, inner, OFFLINE_PATHS).0, PrimedAndPruned(start, inner, innerList);
    forall path | path in between.documents
      ensures path in OFFLINE_PATHS && Ready(between, inner, path)
    {
      assert Ready(primed, inner, path);
      NamedIncludes(inner, OFFLINE_PATHS, path);
    }
    assert forall path :: path in OFFLINE_PATHS ==> Ready(primed, inner, path);
    PruningClosesIff(between, outer, outerList);
    var keep := Named(outer, OFFLINE_PATHS) + outerList;
    if Named(inner, OFFLINE_PATHS) <= keep {
      forall path | path in between.documents ensures between.documents[path].document.assets <= keep {
        assert Ready(between, inner, path);
        NamedIncludes(inner, OFFLINE_PATHS, path);
      }
    } else if forall path :: path in between.documents ==> between.documents[path].document.assets <= keep {
      forall path | path in OFFLINE_PATHS && path in inner.documents
        ensures inner.documents[path].document.assets <= keep
      {
        assert Ready(primed, inner, path) && path in between.documents && Ready(between, inner, path);
      }
      NamedWithin(inner, OFFLINE_PATHS, keep);
    }
  }

  // ---------------------------------------------------------------- events that overlap

  /**
   One path of the caches, with the steps of `putDocument` and `freshCachedDocument` that
   other events can come between.
   */
  datatype Shared = Shared(
    stored: Option<Stored>,
    stamp: Option<Time>,
    now: Time,
    found: map<nat, Stored>,      // serves that have matched a document and not yet its stamp
    served: map<nat, Stored>)

  datatype Step =
    | Put(document: Document)
    | Stamp
    | Match(id: nat)
    | Check(id: nat)
    | Tick(ms: nat)
    | Wipe

  predicate Expired(s: Shared) {
    s.stamp.None? || s.now - s.stamp.value > DOCUMENT_MAX_AGE
  }

  function StepOnce(s: Shared, step: Step): Shared {
    match step
    case Put(document) => s.(stored := Some(Stored(document, s.now)))
    case Stamp => s.(stamp := Some(s.now))
    case Match(id) => if s.stored.Some? then s.(found := s.found[id := s.stored.value]) else s
    case Check(id) =>
      if id !in s.found then s
      else if Expired(s) then s.(found := s.found - {id}, stored := None, stamp := None)
      else s.(found := s.found - {id}, served := s.served[id := s.found[id]])
    case Tick(ms) => s.(now := s.now + ms)
    case Wipe => s.(stored := None, stamp := None)
  }

  function Steps(s: Shared, steps: seq<Step>): Shared {
    if steps == [] then s else StepOnce(Steps(s, steps[..|steps| - 1]), steps[|steps| - 1])
  }

  /** Any steps but those of serve `id` itself. */
  predicate Others(steps: seq<Step>, id: nat) {
    forall i :: 0 <= i < |steps| ==> steps[i] != Match(id) && steps[i] != Check(id)
  }

  /** Step `i` wrote the stamp there is in the end, and no more than a day ago. */
  ghost predicate Restamped(s: Shared, steps: seq<Step>, i: nat) {
    && i < |steps| && steps[i] == Stamp
    && Steps(s, steps).stamp == Some(Steps(s, steps[..i]).now)
    && Steps(s, steps).now - Steps(s, steps[..i]).now <= DOCUMENT_MAX_AGE
  }

  /** With nothing between its two steps, a serve gives its document out within a day of its stamp, or forgets it. */
  lemma MatchThenCheck(s: Shared, id: nat)
    requires s.stored.Some? && id !in s.found
    ensures var n := StepOnce(StepOnce(s, Match(id)), Check(id));
            n == if s.stamp.Some? && s.now - s.stamp.value <= 86_400_000
                 then s.(served := s.served[id := s.stored.value])
                 else s.(stored := None, stamp := None)
  {
    assert s.found[id := s.stored.value] - {id} == s.found;
  }

  /** Step by step too, a document is served for a day after it was stored, and not after the caches were cleared. */
  lemma StoredThenServed(s: Shared, id: nat, document: Document, ms: nat)
    requires id !in s.found && id !in s.served
    ensures var stored := StepOnce(StepOnce(StepOnce(s, Put(document)), Stamp), Tick(ms));
            var n := StepOnce(StepOnce(stored, Match(id)), Check(id));
            && n.now == s.now + ms
            && (ms <= 86_400_000 ==> id in n.served && n.served[id] == Stored(document, s.now))
            && (ms > 86_400_000 ==> id !in n.served && n.stored.None? && n.stamp.None?)
    ensures var wiped := StepOnce(s, Wipe);
            StepOnce(StepOnce(wiped, Match(id)), Check(id)) == wiped && wiped.stored.None? && wiped.stamp.None?
  {
  }

  lemma {:induction false} StepsFound(s: Shared, id: nat, steps: seq<Step>)
    requires id in s.found && id !in s.served && Others(steps, id)
    ensures var n := Steps(s, steps); id in n.found && n.found[id] == s.found[id] && id !in n.served
  {
    if steps != [] {
      StepsFound(s, id, steps[..|steps| - 1]);
      var last := steps[|steps| - 1];
      assert last != Match(id) && last != Check(id);
    }
  }

  /** A stamp that is there in the end was there at the start, or a step wrote it. */
  lemma {:induction false} StampFrom(s: Shared, steps: seq<Step>) returns (i: nat)
    ensures var n := Steps(s, steps);
            || n.stamp.None? || n.stamp == s.stamp
            || (i < |steps| && steps[i] == Stamp && n.stamp == Some(Steps(s, steps[..i]).now))
  {
    i := 0;
    if steps != [] {
      var init := steps[..|steps| - 1];
      i := StampFrom(s, init);
      if steps[|steps| - 1] == Stamp {
        i := |steps| - 1;
      } else if i < |init| {
        assert steps[..i] == init[..i];
      }
    }
  }

  /**
   A serve gives out a document more than a day after the stamp it had when matched exactly
   if a stamping no more than a day old came between, and still stands.
   */
  lemma ServedTooOldIff(s: Shared, id: nat, steps: seq<Step>)
    requires s.stored.Some? && s.stamp.Some? && id !in s.served
    requires Others(steps, id)
    ensures var found := StepOnce(s, Match(id));
            var n := Steps(found, steps);
            var done := StepOnce(n, Check(id));
            id in done.served ==> done.served[id] == s.stored.value
    ensures var found := StepOnce(s, Match(id));
            var n := Steps(found, steps);
            var done := StepOnce(n, Check(id));
            (id in done.served && done.now - s.stamp.value > DOCUMENT_MAX_AGE)
              <==> (n.now - s.stamp.value > DOCUMENT_MAX_AGE && exists i: nat :: Restamped(found, steps, i))
  {
    var found := StepOnce(s, Match(id));
    StepsFound(found, id, steps);
    var n := Steps(found, steps);
    if n.stamp.Some? && n.now - n.stamp.value <= DOCUMENT_MAX_AGE && n.now - s.stamp.value > DOCUMENT_MAX_AGE {
      var i := StampFrom(found, steps);
      assert Restamped(found, steps, i);
    }
  }

  /** Steps without a stamping, and without those of serve `id` itself. */
  predicate Unstamped(steps: seq<Step>, id: nat) {
    forall i :: 0 <= i < |steps| ==> steps[i] != Stamp && steps[i] != Match(id) && steps[i] != Check(id)
  }

  /**
   A serve that no stamping comes between gives out its document within a day of the stamp
   it had when matched, however the other steps of the worker fall.
   */
  lemma ServedFreshUnlessRestamped(s: Shared, id: nat, steps: seq<Step>)
    requires s.stored.Some? && s.stamp.Some? && id !in s.served
    requires Unstamped(steps, id)
    ensures var n := Steps(StepOnce(s, Match(id)), steps);
            var done := StepOnce(n, Check(id));
            id in done.served ==> done.served[id] == s.stored.value && done.now - s.stamp.value <= DOCUMENT_MAX_AGE
  {
    ServedTooOldIff(s, id, steps);
  }

  /**
   But with a `putDocument` between the match and the reading of the stamp, the OLD document
   is served under the new one's stamp, whatever its age.
   */
  lemma OldDocumentServedUnderNewStamp(s: Shared, id: nat, document: Document)
    requires s.stored.Some?
    ensures var n := Steps(s, [Match(id)] + [Put(document)] + [Stamp] + [Check(id)]);
            id in n.served && n.served[id] == s.stored.value && n.now == s.now
  {
    StepsSnoc(s, [], Match(id));
    StepsSnoc(s, [Match(id)], Put(document));
    StepsSnoc(s, [Match(id)] + [Put(document)], Stamp);
    StepsSnoc(s, [Match(id)] + [Put(document)] + [Stamp], Check(id));
    assert [] + [Match(id)] == [Match(id)];
  }

  lemma StepsSnoc(s: Shared, steps: seq<Step>, last: Step)
    ensures Steps(s, steps + [last]) == StepOnce(Steps(s, steps), last)
  {
    assert (steps + [last])[..|steps|] == steps;
  }
}
