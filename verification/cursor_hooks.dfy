/**
 The browser's two cursor loaders: one walks every page and shows the whole list, the other
 shows a page and appends more on request. Responses arrive in any order, each from the
 table as it stood when it was served.
 */
module CursorHooks {
  import opened Wrappers
  import opened Pagination

  // ---------------------------------------------------------------- useLatestOnly

  /** The supersession counter. */
  class LatestOnly {
    var latest: nat

    constructor ()
      ensures latest == 0
    {
      latest := 0;
    }

    /** Begins a load: it is current, and every ticket handed out before is not. */
    method Begin() returns (mine: nat)
      modifies this
      ensures mine == latest == old(latest) + 1
      ensures IsCurrent(mine) && forall earlier: nat :: earlier <= old(latest) ==> !IsCurrent(earlier)
    {
      latest := latest + 1;
      return latest;
    }

    predicate IsCurrent(mine: nat)
      reads this
    {
      mine == latest
    }
  }

  // ---------------------------------------------------------------- useCursorAll

  /** What a request comes back with. */
  datatype Response =
    | Page(fetch: Fetch)   // 200
    | NotOk(leaves: bool)  // any other status; for a 401 the page may leave instead of reporting
    | Broken               // no response, or a body that does not parse

  datatype Failure = ServerSaid | CannotReach

  datatype Shown = Shown(items: seq<Row>, error: Option<Failure>, loading: bool)

  /** A walk, with the pages it has so far; it is live until it returns. */
  datatype Walk = Walk(pages: seq<Fetch>, live: bool)

  datatype All = All(
    shown: Shown,
    latest: nat,
    walks: map<nat, Walk>,
    source: nat)      // the walk the shown items come from; 0 before any

  datatype AllEvent = BeginWalk | Arrives(walk: nat, response: Response)

  function AllInit(enabled: bool): All {
    All(Shown([], None, enabled), 0, map[], 0)
  }

  /** The server answers the cursor this walk sent. */
  ghost predicate Answers(pages: seq<Fetch>, r: Response, limit: nat) {
    r.Page? ==> IsWalk(pages + [r.fetch], limit)
  }

  ghost predicate AllEnabled(s: All, e: AllEvent, limit: nat) {
    e.Arrives? ==> e.walk in s.walks && s.walks[e.walk].live && Answers(s.walks[e.walk].pages, e.response, limit)
  }

  /** What the current walk, with the rows `all` so far, shows after a response. */
  function ShownAfter(v: Shown, all: seq<Row>, r: Response): Shown {
    match r
    case NotOk(_) => v.(error := Some(ServerSaid), loading := false)
    case Broken => v.(error := Some(CannotReach), loading := false)
    case Page(fetch) => if fetch.next.Some? then v else Shown(all + fetch.page, None, false)
  }

  /** One turn of the walk loop, from `await` to `await`. A superseded walk just returns. */
  function Turn(s: All, mine: nat, r: Response): All
    requires mine in s.walks
  {
    var w := s.walks[mine];
    if mine != s.latest then s.(walks := s.walks[mine := w.(live := false)])
    else
      var pages := if r.Page? then w.pages + [r.fetch] else w.pages;
      s.(walks := s.walks[mine := Walk(pages, r.Page? && r.fetch.next.Some?)],
         shown := ShownAfter(s.shown, Emitted(w.pages), r),
         source := if r.Page? && r.fetch.next.None? then mine else s.source)
  }

  ghost function AllExec(s: All, e: AllEvent, limit: nat): All {
    if !AllEnabled(s, e, limit) then s
    else match e
      case BeginWalk =>
        All(s.shown.(loading := true), s.latest + 1, s.walks[s.latest + 1 := Walk([], true)], s.source)
      case Arrives(mine, r) => Turn(s, mine, r)
  }

  ghost function AllRun(s: All, events: seq<AllEvent>, limit: nat): All {
    if events == [] then s else AllExec(AllRun(s, events[..|events| - 1], limit), events[|events| - 1], limit)
  }

  /** Walk `k` ran to its end. */
  ghost predicate Complete(s: All, k: nat) {
    k in s.walks && !s.walks[k].live && Finished(s.walks[k].pages)
  }

  ghost predicate WalkSound(s: All, k: nat, limit: nat)
    requires k in s.walks
  {
    && 0 < k <= s.latest
    && IsWalk(s.walks[k].pages, limit)
    && (s.walks[k].live ==> !Finished(s.walks[k].pages))
    && (!s.walks[k].live && Finished(s.walks[k].pages) ==> k <= s.source)
  }

  ghost predicate AllInv(s: All, limit: nat) {
    && (forall k :: k in s.walks ==> WalkSound(s, k, limit))
    && s.source <= s.latest
    && (s.source == 0 ==> s.shown.items == [])
    && (s.source > 0 ==> Complete(s, s.source) && s.shown.items == Emitted(s.walks[s.source].pages))
    && (s.latest > 0 ==> s.latest in s.walks && (s.shown.loading <==> s.walks[s.latest].live))
    && (s.source == s.latest ==> s.shown.error.None?)
  }

  lemma SupersededTurnKeeps(s: All, mine: nat, r: Response, limit: nat)
    requires AllInv(s, limit) && mine in s.walks && s.walks[mine].live && mine != s.latest
    ensures AllInv(Turn(s, mine, r), limit)
  {
    var n := Turn(s, mine, r);
    forall k | k in n.walks ensures WalkSound(n, k, limit) {
      assert WalkSound(s, k, limit);
    }
    assert s.source > 0 ==> n.walks[s.source] == s.walks[s.source];
  }

  /** The current walk's own entry after a turn. */
  lemma OwnTurn(s: All, mine: nat, r: Response, limit: nat)
    requires mine in s.walks && s.walks[mine].live && mine == s.latest && WalkSound(s, mine, limit)
    requires Answers(s.walks[mine].pages, r, limit)
    ensures var n := Turn(s, mine, r);
            && WalkSound(n, mine, limit)
            && (n.source == mine > s.source ==> Complete(n, mine) && n.shown.items == Emitted(n.walks[mine].pages))
  {
    if r.Page? {
      Extended(s.walks[mine].pages, r.fetch);
    }
  }

  lemma CurrentTurnKeeps(s: All, mine: nat, r: Response, limit: nat)
    requires AllInv(s, limit) && mine in s.walks && s.walks[mine].live && mine == s.latest
    requires Answers(s.walks[mine].pages, r, limit)
    ensures AllInv(Turn(s, mine, r), limit)
  {
    var n := Turn(s, mine, r);
    assert WalkSound(s, mine, limit);
    OwnTurn(s, mine, r, limit);
    forall k | k in n.walks && k != mine ensures WalkSound(n, k, limit) {
      assert WalkSound(s, k, limit);
    }
    assert s.source > 0 ==> Complete(s, s.source) && s.source != mine;
  }

  lemma AllStepKeeps(s: All, e: AllEvent, limit: nat)
    requires AllInv(s, limit)
    ensures AllInv(AllExec(s, e, limit), limit)
    ensures AllExec(s, e, limit).source >= s.source
  {
    if AllEnabled(s, e, limit) {
      match e
      case Arrives(mine, r) =>
        if mine == s.latest {
          CurrentTurnKeeps(s, mine, r, limit);
        } else {
          SupersededTurnKeeps(s, mine, r, limit);
        }
      case BeginWalk =>
        var n := AllExec(s, e, limit);
        forall k | k in n.walks ensures WalkSound(n, k, limit) {
          assert k != n.latest ==> WalkSound(s, k, limit);
        }
        if s.source > 0 {
          assert WalkSound(s, s.source, limit);
        }
    }
  }

  lemma {:induction false} AllRunKeeps(s: All, events: seq<AllEvent>, limit: nat)
    requires AllInv(s, limit)
    ensures AllInv(AllRun(s, events, limit), limit) && AllRun(s, events, limit).source >= s.source
  {
    if events != [] {
      AllRunKeeps(s, events[..|events| - 1], limit);
      AllStepKeeps(AllRun(s, events[..|events| - 1], limit), events[|events| - 1], limit);
    }
  }

  /**
   In every interleaving of overlapping walks, what is shown is nothing yet or one walk's
   complete page concatenation, and it is the latest walk's as soon as that has completed.
   Hence an older walk never replaces a newer one's list, and a row that was in the table
   at every request of the shown walk is shown, exactly once.
   */
  lemma ShowsOneWholeWalk(enabled: bool, events: seq<AllEvent>, limit: nat, key: Key)
    ensures var s := AllRun(AllInit(enabled), events, limit);
            && (s.source == 0 ==> s.shown.items == [])
            && (s.source > 0 ==>
                  && s.source in s.walks
                  && var pages := s.walks[s.source].pages;
                  && s.shown.items == Emitted(pages) && Increasing(s.shown.items)
                  && ((forall i :: 0 <= i < |pages| ==> Has(pages[i].table, key)) ==>
                        exists i: nat :: OnlyAt(s.shown.items, i, key)))
            && (Complete(s, s.latest) ==> s.source == s.latest && s.shown.error.None?)
            && (s.latest > 0 ==> s.latest in s.walks && (s.shown.loading <==> s.walks[s.latest].live))
  {
    AllRunKeeps(AllInit(enabled), events, limit);
    var s := AllRun(AllInit(enabled), events, limit);
    if s.source > 0 {
      assert WalkSound(s, s.source, limit);
      var pages := s.walks[s.source].pages;
      WalkIncreases(pages, limit);
      if forall i :: 0 <= i < |pages| ==> Has(pages[i].table, key) {
        PresentThroughoutOnce(pages, limit, key);
      }
    }
    if Complete(s, s.latest) {
      assert WalkSound(s, s.latest, limit);
    }
  }

  /** A superseded walk writes nothing, whatever it is answered; the shown list never goes back. */
  lemma OnlyTheLatestWrites(enabled: bool, before: seq<AllEvent>, mine: nat, r: Response, limit: nat)
    ensures var s := AllRun(AllInit(enabled), before, limit); var n := AllExec(s, Arrives(mine, r), limit);
            && (n.shown != s.shown ==> mine == s.latest)
            && n.source >= s.source
  {
    AllRunKeeps(AllInit(enabled), before, limit);
    AllStepKeeps(AllRun(AllInit(enabled), before, limit), Arrives(mine, r), limit);
  }

  /** The responses of walk `mine`, one after another. */
  ghost function Delivered(s: All, mine: nat, fs: seq<Fetch>, limit: nat): All {
    if fs == [] then s else AllExec(Delivered(s, mine, Init(fs), limit), Arrives(mine, Page(Last(fs))), limit)
  }

  /** A walk no other begins beside: nothing is shown of it until its last page, and then all of it. */
  lemma {:induction false} WalkLands(s: All, fs: seq<Fetch>, limit: nat)
    requires IsWalk(fs, limit)
    ensures var begun := AllExec(s, BeginWalk, limit);
            var n := Delivered(begun, begun.latest, fs, limit);
            && n.latest == begun.latest && n.latest in n.walks && n.walks[n.latest] == Walk(fs, !Finished(fs))
            && n.shown == if Finished(fs) then Shown(Emitted(fs), None, false) else s.shown.(loading := true)
  {
    if fs != [] {
      WalkLands(s, Init(fs), limit);
      assert Init(fs) + [Last(fs)] == fs;
    }
  }

  /** A response that is no page ends the walk: the list shown stays, with what went wrong beside it. */
  lemma FailureShows(s: All, mine: nat, r: Response, limit: nat)
    requires mine in s.walks && s.walks[mine].live && !r.Page?
    ensures var n := AllExec(s, Arrives(mine, r), limit);
            && !n.walks[mine].live && n.shown.items == s.shown.items
            && (mine == s.latest ==>
                  !n.shown.loading && n.shown.error == Some(if r.NotOk? then ServerSaid else CannotReach))
  {
  }

  /** A superseded walk asks for one page more at most, and is never heard of again. */
  lemma SupersededReturns(s: All, mine: nat, r: Response, later: Response, limit: nat)
    requires mine in s.walks && s.walks[mine].live && mine != s.latest && Answers(s.walks[mine].pages, r, limit)
    ensures var n := AllExec(s, Arrives(mine, r), limit);
            n.shown == s.shown && !n.walks[mine].live && AllExec(n, Arrives(mine, later), limit) == n
  {
  }

  /** One request of a walk. */
  method FetchPage(ghost pages: seq<Fetch>, table: seq<Row>, cursor: Option<Key>, limit: nat)
    returns (items: seq<Row>, next: Option<Key>, ghost longer: seq<Fetch>)
    requires limit >= 1 && Table(table) && IsWalk(pages, limit) && !Finished(pages) && cursor == InHand(pages)
    ensures IsPage(table, cursor, limit, items, next)
    ensures IsWalk(longer, limit) && longer == pages + [Fetch(table, cursor, items, next)]
    ensures Emitted(longer) == Emitted(pages) + items && InHand(longer) == next
  {
    items, next := Paginate(table, cursor, limit);
    longer := pages + [Fetch(table, cursor, items, next)];
    WalkExtends(pages, Fetch(table, cursor, items, next), limit);
    Extended(pages, Fetch(table, cursor, items, next));
  }

  /** The walk loop itself, undisturbed: `tables[i]` is the table at its request number i. */
  method WalkAll(tables: seq<seq<Row>>, limit: nat)
    returns (all: seq<Row>, cursor: Option<Key>, ghost pages: seq<Fetch>)
    requires limit >= 1 && tables != []
    requires forall i {:trigger Table(tables[i])} :: 0 <= i < |tables| ==> Table(tables[i])
    ensures IsWalk(pages, limit) && all == Emitted(pages) && cursor == InHand(pages) && pages != []
    ensures forall i :: 0 <= i < |pages| <= |tables| ==> pages[i].table == tables[i]
    ensures cursor.None? || |pages| == |tables|
    ensures Increasing(all)
    ensures cursor.None? && (forall i :: 0 <= i < |tables| ==> tables[i] == tables[0]) ==> all == OrderBy(tables[0])
  {
    all, cursor, pages := [], None, [];
    var i := 0;
    while i == 0 || (cursor.Some? && i < |tables|)
      invariant |pages| == i <= |tables|
      invariant IsWalk(pages, limit) && all == Emitted(pages) && cursor == InHand(pages)
      invariant forall k :: 0 <= k < i ==> pages[k].table == tables[k]
      decreases |tables| - i
    {
      assert Table(tables[i]);
      var items, next, longer := FetchPage(pages, tables[i], cursor, limit);
      all, cursor, pages := all + items, next, longer;
      i := i + 1;
    }
    WalkIncreases(pages, limit);
    if cursor.None? && forall i :: 0 <= i < |tables| ==> tables[i] == tables[0] {
      assert Table(tables[0]);
      StillWalkIsSortedTable(pages, limit, tables[0]);
    }
  }

  /** The hook's state, and the two halves of `load` around each `await`. */
  class CursorAll {
    var items: seq<Row>
    var error: Option<Failure>
    var loading: bool
    const beginLoad: LatestOnly

    function Value(): Shown
      reads this
    {
      Shown(items, error, loading)
    }

    constructor (enabled: bool)
      ensures Value() == AllInit(enabled).shown && fresh(beginLoad) && beginLoad.latest == 0
    {
      items, error, loading := [], None, enabled;
      beginLoad := new LatestOnly();
    }

    method LoadBegins() returns (mine: nat)
      modifies this, beginLoad
      ensures Value() == old(Value()).(loading := true) && mine == beginLoad.latest == old(beginLoad.latest) + 1
    {
      mine := beginLoad.Begin();
      loading := true;
    }

    /** `more` is whether the loop goes round again, then with `all'` and the cursor given. */
    method ResponseArrives(mine: nat, all: seq<Row>, r: Response) returns (all': seq<Row>, more: bool)
      modifies this
      ensures beginLoad.IsCurrent(mine) ==> Value() == ShownAfter(old(Value()), all, r)
      ensures !beginLoad.IsCurrent(mine) ==> Value() == old(Value())
      ensures more <==> beginLoad.IsCurrent(mine) && r.Page? && r.fetch.next.Some?
      ensures more ==> all' == all + r.fetch.page
    {
      all', more := all, false;
      if !beginLoad.IsCurrent(mine) {
        return;
      }
      match r {
        case NotOk(_) => error := Some(ServerSaid);
        case Broken => error := Some(CannotReach);
        case Page(fetch) =>
          all' := all + fetch.page;
          if fetch.next.Some? {
            return all', true;
          }
          items, error := all', None;
      }
      loading := false;
    }
  }

  // ---------------------------------------------------------------- useCursorListCore

  datatype Load = Load(replace: bool, cursor: Option<Key>, generation: nat)

  /** The hook's own state. */
  datatype Listed = Listed(
    items: seq<Row>,
    nextCursor: Option<Key>,
    loading: bool,
    error: Option<Failure>,
    generation: nat)

  datatype List = List(
    view: Listed,
    enabled: bool,
    ready: bool,               // the credential is there
    loads: map<nat, Load>,     // requests in flight
    pages: seq<Fetch>)         // the responses the items were put together from

  datatype ListEvent =
    | Configure(enabled: bool, ready: bool, id: nat)   // the effect, on mount and on every change
    | Reload(id: nat)
    | LoadMore(id: nat)
    | Responds(id: nat, response: Response)

  function ListInit(enabled: bool): List {
    List(Listed([], None, enabled, None, 0), enabled, false, map[], [])
  }

  function Disabled(v: Listed): Listed {
    Listed([], None, false, None, v.generation + 1)
  }

  function Began(v: Listed, replace: bool): Listed {
    v.(generation := if replace then v.generation + 1 else v.generation, loading := true, error := None)
  }

  function Landed(v: Listed, load: Load, r: Response): Listed {
    if load.generation != v.generation then v
    else match r
      case NotOk(leaves) => v.(error := if leaves then v.error else Some(ServerSaid), loading := false)
      case Broken => v.(error := Some(CannotReach), loading := false)
      case Page(fetch) =>
        v.(items := if load.replace then fetch.page else v.items + fetch.page,
           nextCursor := fetch.next, loading := false)
  }

  class CursorList {
    var items: seq<Row>
    var nextCursor: Option<Key>
    var loading: bool
    var error: Option<Failure>
    var generationRef: nat

    function Value(): Listed
      reads this
    {
      Listed(items, nextCursor, loading, error, generationRef)
    }

    constructor (enabled: bool)
      ensures Value() == ListInit(enabled).view
    {
      items, nextCursor, loading, error, generationRef := [], None, enabled, None, 0;
    }

    /** `load` up to its `await`, once past the `ready` and `enabled` checks. */
    method LoadBegins(replace: bool) returns (generation: nat)
      modifies this
      ensures Value() == Began(old(Value()), replace) && generation == generationRef
    {
      if replace {
        generationRef := generationRef + 1;
      }
      loading, error := true, None;
      return generationRef;
    }

    /** The rest of `load`. */
    method ResponseArrives(load: Load, r: Response)
      modifies this
      ensures Value() == Landed(old(Value()), load, r)
    {
      if load.generation != generationRef {
        return;
      }
      match r {
        case NotOk(leaves) =>
          if !leaves {
            error := Some(ServerSaid);
          }
        case Broken => error := Some(CannotReach);
        case Page(fetch) =>
          items := if load.replace then fetch.page else items + fetch.page;
          nextCursor := fetch.next;
      }
      loading := false;
    }

    method Disable()
      modifies this
      ensures Value() == Disabled(old(Value()))
    {
      generationRef := generationRef + 1;
      items, nextCursor, error, loading := [], None, None, false;
    }
  }

  /** `load(cursor, replace)`: nothing at all unless ready and enabled. */
  function Issued(s: List, id: nat, cursor: Option<Key>, replace: bool): List {
    if !s.ready || !s.enabled then s
    else
      var view := Began(s.view, replace);
      s.(view := view, loads := s.loads[id := Load(replace, cursor, view.generation)])
  }

  ghost predicate ListEnabled(s: List, e: ListEvent, limit: nat) {
    match e
    case Responds(id, r) =>
      && id in s.loads
      && (r.Page? ==>
            && r.fetch.cursor == s.loads[id].cursor && Table(r.fetch.table)
            && IsPage(r.fetch.table, r.fetch.cursor, limit, r.fetch.page, r.fetch.next))
    case _ => e.id !in s.loads
  }

  function ListApply(s: List, e: ListEvent): List
    requires e.Responds? ==> e.id in s.loads
  {
    match e
    case Configure(enabled, ready, id) =>
      var now := s.(enabled := enabled, ready := ready);
      if !enabled then now.(view := Disabled(s.view), pages := []) else Issued(now, id, None, true)
    case Reload(id) => Issued(s, id, None, true)
    case LoadMore(id) => if s.view.nextCursor.None? then s else Issued(s, id, s.view.nextCursor, false)
    case Responds(id, r) =>
      var load := s.loads[id];
      s.(view := Landed(s.view, load, r),
         loads := s.loads - {id},
         pages := if load.generation == s.view.generation && r.Page?
                  then (if load.replace then [] else s.pages) + [r.fetch] else s.pages)
  }

  ghost function ListExec(s: List, e: ListEvent, limit: nat): List {
    if ListEnabled(s, e, limit) then ListApply(s, e) else s
  }

  ghost function ListRun(s: List, events: seq<ListEvent>, limit: nat): List {
    if events == [] then s else ListExec(ListRun(s, events[..|events| - 1], limit), events[|events| - 1], limit)
  }

  /** What the view is after the response to a load of its own generation. */
  ghost predicate Shows(before: Listed, n: Listed, replace: bool, r: Response) {
    && !n.loading && n.generation == before.generation
    && match r
       case Page(fetch) =>
         && n.items == (if replace then [] else before.items) + fetch.page
         && n.nextCursor == fetch.next && n.error == before.error
       case NotOk(leaves) =>
         && n.items == before.items && n.nextCursor == before.nextCursor
         && n.error == if leaves then before.error else Some(ServerSaid)
       case Broken =>
         n.items == before.items && n.nextCursor == before.nextCursor && n.error == Some(CannotReach)
  }

  /**
   A reload, and a "load more", with nothing in between: the rows stay while it loads and an
   earlier error goes; then the page replaces them or comes after them, or the rows stay with
   what went wrong. Without a next page, a credential or a reason to load, nothing happens.
   */
  lemma LoadShows(s: List, id: nat, r: Response, limit: nat)
    requires id !in s.loads
    ensures !s.ready || !s.enabled ==>
              ListExec(s, Reload(id), limit) == s == ListExec(s, LoadMore(id), limit)
    ensures s.view.nextCursor.None? ==> ListExec(s, LoadMore(id), limit) == s
    ensures s.ready && s.enabled ==>
              var begun := ListExec(s, Reload(id), limit);
              && begun.view == Listed(s.view.items, s.view.nextCursor, true, None, s.view.generation + 1)
              && begun.loads == s.loads[id := Load(true, None, s.view.generation + 1)]
              && (ListEnabled(begun, Responds(id, r), limit) ==>
                    Shows(begun.view, ListExec(begun, Responds(id, r), limit).view, true, r))
    ensures s.ready && s.enabled && s.view.nextCursor.Some? ==>
              var begun := ListExec(s, LoadMore(id), limit);
              && begun.view == Listed(s.view.items, s.view.nextCursor, true, None, s.view.generation)
              && begun.loads == s.loads[id := Load(false, s.view.nextCursor, s.view.generation)]
              && (ListEnabled(begun, Responds(id, r), limit) ==>
                    Shows(begun.view, ListExec(begun, Responds(id, r), limit).view, false, r))
  {
  }

  /** Turning the list off empties it, whatever is under way; turning it on is a reload. */
  lemma ConfigureShows(s: List, ready: bool, id: nat, limit: nat)
    requires id !in s.loads
    ensures ListExec(s, Configure(false, ready, id), limit).view == Listed([], None, false, None, s.view.generation + 1)
    ensures var on := s.(enabled := true, ready := ready);
            ListExec(s, Configure(true, ready, id), limit) == ListExec(on, Reload(id), limit)
  {
  }

  // ---------------------------------------------------------------- stale loads

  /** An event that starts the list over. */
  predicate StartsOver(s: List, e: ListEvent) {
    (e.Reload? && s.ready && s.enabled) || (e.Configure? && (e.ready || !e.enabled))
  }

  ghost predicate Stale(s: List, id: nat) {
    id in s.loads ==> s.loads[id].generation < s.view.generation
  }

  lemma {:induction false} StaleStays(s: List, events: seq<ListEvent>, limit: nat, id: nat)
    requires Stale(s, id) && id in s.loads
    requires forall e :: e in events ==> !(e.Responds? && e.id == id)
    ensures var n := ListRun(s, events, limit); id in n.loads && Stale(n, id)
  {
    if events != [] {
      StaleStays(s, events[..|events| - 1], limit, id);
    }
  }

  /**
   A load, appending or not, that was issued before the list started over is dropped when it
   lands, however late and whatever else happened in between.
   */
  lemma StaleLoadChangesNothing(s: List, id: nat, over: ListEvent, after: seq<ListEvent>, r: Response, limit: nat)
    requires id in s.loads && s.loads[id].generation <= s.view.generation
    requires ListEnabled(s, over, limit) && StartsOver(s, over)
    requires forall e :: e in after ==> !(e.Responds? && e.id == id)
    ensures var n := ListRun(ListExec(s, over, limit), after, limit);
            ListExec(n, Responds(id, r), limit).view == n.view
  {
    var started := ListExec(s, over, limit);
    assert Stale(started, id) && id in started.loads;
    StaleStays(started, after, limit, id);
  }

  // ---------------------------------------------------------------- a contiguous list

  /** The items are what one walk from the first page would have given so far. */
  ghost predicate Contiguous(s: List, limit: nat) {
    && IsWalk(s.pages, limit)
    && s.view.items == Emitted(s.pages)
    && s.view.nextCursor == InHand(s.pages)
  }

  predicate Current(s: List, id: nat) {
    id in s.loads && s.loads[id].generation == s.view.generation
  }

  ghost predicate ListInv(s: List, limit: nat) {
    && Contiguous(s, limit)
    && (forall id :: id in s.loads ==> s.loads[id].generation <= s.view.generation)
    && (forall id :: Current(s, id) ==> s.view.loading && Fits(s, s.loads[id]))
    && (forall i, j :: Current(s, i) && Current(s, j) ==> i == j)
    && (s.view.loading && s.ready && s.enabled ==> exists id :: Current(s, id))
  }

  /** A load that will leave the list contiguous. */
  predicate Fits(s: List, load: Load) {
    if load.replace then load.cursor.None? else load.cursor.Some? && load.cursor == s.view.nextCursor
  }

  /** The "Load more" button is disabled while the list is loading. */
  ghost predicate Guarded(s: List, e: ListEvent) {
    e.LoadMore? ==> !s.view.loading
  }

  lemma StaleResponseKeeps(s: List, id: nat, r: Response, limit: nat)
    requires ListInv(s, limit) && id in s.loads && !Current(s, id)
    ensures ListInv(ListApply(s, Responds(id, r)), limit)
  {
    var n := ListApply(s, Responds(id, r));
    assert n.view == s.view && n.pages == s.pages;
    forall k | Current(n, k) ensures Current(s, k) && Fits(n, n.loads[k]) { }
    if s.view.loading && s.ready && s.enabled {
      var k :| Current(s, k);
      assert Current(n, k);
    }
  }

  lemma CurrentResponseExtends(s: List, id: nat, r: Response, limit: nat)
    requires Contiguous(s, limit) && Current(s, id) && Fits(s, s.loads[id])
    requires ListEnabled(s, Responds(id, r), limit)
    ensures Contiguous(ListApply(s, Responds(id, r)), limit)
  {
    if r.Page? {
      var before := if s.loads[id].replace then [] else s.pages;
      WalkExtends(before, r.fetch, limit);
      Extended(before, r.fetch);
    }
  }

  lemma CurrentResponseKeeps(s: List, id: nat, r: Response, limit: nat)
    requires ListInv(s, limit) && Current(s, id) && ListEnabled(s, Responds(id, r), limit)
    ensures ListInv(ListApply(s, Responds(id, r)), limit)
  {
    CurrentResponseExtends(s, id, r, limit);
    var n := ListApply(s, Responds(id, r));
    assert !n.view.loading && n.view.generation == s.view.generation;
    forall k ensures !Current(n, k) {
      assert Current(s, k) ==> k == id;
    }
  }

  lemma IssueKeeps(s: List, id: nat, cursor: Option<Key>, replace: bool, limit: nat)
    requires ListInv(s, limit) && id !in s.loads
    requires if replace then cursor.None? else !s.view.loading && cursor.Some? && cursor == s.view.nextCursor
    ensures ListInv(Issued(s, id, cursor, replace), limit)
  {
    var n := Issued(s, id, cursor, replace);
    if n.loads != s.loads {
      assert Current(n, id);
      forall k | Current(n, k) ensures k == id && Fits(n, n.loads[k]) {
        assert k != id ==> k in s.loads && (replace || Current(s, k));
      }
    }
  }

  lemma ConfigureKeeps(s: List, e: ListEvent, limit: nat)
    requires ListInv(s, limit) && e.Configure? && e.id !in s.loads
    ensures ListInv(ListApply(s, e), limit)
  {
    var n := ListApply(s, e);
    if !e.enabled {
      forall k ensures !Current(n, k) { }
    } else if e.ready {
      var id := e.id;
      assert Current(n, id);
      forall k | Current(n, k) ensures k == id && Fits(n, n.loads[k]) { }
    } else {
      forall k | Current(n, k) ensures Current(s, k) && Fits(n, n.loads[k]) { }
    }
  }

  lemma ListStepKeeps(s: List, e: ListEvent, limit: nat)
    requires ListInv(s, limit) && Guarded(s, e)
    ensures ListInv(ListExec(s, e, limit), limit)
  {
    if ListEnabled(s, e, limit) {
      match e
      case Responds(id, r) =>
        if Current(s, id) {
          CurrentResponseKeeps(s, id, r, limit);
        } else {
          StaleResponseKeeps(s, id, r, limit);
        }
      case Configure(_, _, _) => ConfigureKeeps(s, e, limit);
      case Reload(id) => IssueKeeps(s, id, None, true, limit);
      case LoadMore(id) => if s.view.nextCursor.Some? { IssueKeeps(s, id, s.view.nextCursor, false, limit); }
    }
  }

  /** Every "Load more" of the run is pressed while the button is enabled. */
  ghost predicate AllGuarded(s: List, events: seq<ListEvent>, limit: nat) {
    events != [] ==>
      && AllGuarded(s, events[..|events| - 1], limit)
      && Guarded(ListRun(s, events[..|events| - 1], limit), events[|events| - 1])
  }

  lemma {:induction false} ListRunKeeps(s: List, events: seq<ListEvent>, limit: nat)
    requires ListInv(s, limit) && AllGuarded(s, events, limit)
    ensures ListInv(ListRun(s, events, limit), limit)
  {
    if events != [] {
      ListRunKeeps(s, events[..|events| - 1], limit);
      ListStepKeeps(ListRun(s, events[..|events| - 1], limit), events[|events| - 1], limit);
    }
  }

  /**
   With the button disabled while loading, the list is at all times what one walk from the
   first page gives: in key order, no row twice, and no row passed over that a request
   answered for.
   */
  lemma GuardedListIsAWalk(enabled: bool, events: seq<ListEvent>, limit: nat)
    requires AllGuarded(ListInit(enabled), events, limit)
    ensures var s := ListRun(ListInit(enabled), events, limit);
            Contiguous(s, limit) && Increasing(s.view.items)
  {
    ListRunKeeps(ListInit(enabled), events, limit);
    WalkIncreases(ListRun(ListInit(enabled), events, limit).pages, limit);
  }

  function Next(k: Key): Key {
    if k.Composite? then Composite(k.createdAt, k.id + 1) else IdOnly(k.id + 1)
  }

  /** The only row there is, served as the last page. */
  function OnlyRow(cursor: Option<Key>, key: Key): Fetch {
    Fetch([Row(key, "")], cursor, [Row(key, "")], None)
  }

  /** Answers that put the list out of order: first the load already under way, then the append. */
  function BothAnswers(s: List, under: nat, more: nat): seq<ListEvent>
    requires under in s.loads && s.view.nextCursor.Some?
  {
    var c := s.view.nextCursor.value;
    [Responds(under, Page(OnlyRow(s.loads[under].cursor, Next(Next(c)))))]
      + [Responds(more, Page(OnlyRow(Some(c), Next(c))))]
  }

  lemma LastTwoOutOfOrder(items: seq<Row>, a: Row, b: Row)
    requires Less(b.key, a.key)
    ensures !Increasing(items + [a] + [b])
  {
    var all := items + [a] + [b];
    assert all[|items|] == a && all[|items| + 1] == b;
    assert Increasing(all) ==> Less(a.key, b.key);
  }

  lemma ListRunTwo(s: List, a: ListEvent, b: ListEvent, limit: nat)
    ensures ListRun(s, [a] + [b], limit) == ListExec(ListExec(s, a, limit), b, limit)
  {
    assert ([a] + [b])[..1] == [a] && ([a] + [b])[1] == b;
    assert ListRun(s, [], limit) == s && ListRun(s, [a], limit) == ListExec(s, a, limit);
  }

  lemma PressedWhileLoading(s: List, more: nat, under: nat, limit: nat)
    requires limit >= 1 && ListInv(s, limit) && s.ready && s.enabled
    requires Current(s, under) && more !in s.loads && s.view.nextCursor.Some?
    ensures var n := ListExec(s, LoadMore(more), limit);
            !Increasing(ListRun(n, BothAnswers(s, under, more), limit).view.items)
  {
    var c := s.view.nextCursor.value;
    var n := ListExec(s, LoadMore(more), limit);
    var first, second := Page(OnlyRow(s.loads[under].cursor, Next(Next(c)))), Page(OnlyRow(Some(c), Next(c)));
    ListRunTwo(n, Responds(under, first), Responds(more, second), limit);
    assert Fits(s, s.loads[under]);
    assert n.loads[under] == s.loads[under] && n.loads[more] == Load(false, Some(c), s.view.generation);
    assert ListEnabled(n, Responds(under, first), limit);
    var n1 := ListExec(n, Responds(under, first), limit);
    assert ListEnabled(n1, Responds(more, second), limit);
    var before := if s.loads[under].replace then [] else s.view.items;
    assert n1.view.items == before + [Row(Next(Next(c)), "")];
    LastTwoOutOfOrder(before, Row(Next(Next(c)), ""), Row(Next(c), ""));
  }

  /** Pressing "Load more" can never spoil the list exactly when nothing is loading. */
  lemma LoadMoreSafeIff(s: List, more: nat, limit: nat)
    requires limit >= 1 && ListInv(s, limit) && s.ready && s.enabled
    requires more !in s.loads && s.view.nextCursor.Some?
    ensures (forall events ::
               var n := ListExec(s, LoadMore(more), limit);
               AllGuarded(n, events, limit) ==> Increasing(ListRun(n, events, limit).view.items))
       <==> !s.view.loading
  {
    var n := ListExec(s, LoadMore(more), limit);
    if s.view.loading {
      var under :| Current(s, under);
      PressedWhileLoading(s, more, under, limit);
      var events := BothAnswers(s, under, more);
      assert events[..1] == [events[0]] && events[..0] == [];
      assert AllGuarded(n, [], limit) && AllGuarded(n, events[..1], limit) && AllGuarded(n, events, limit);
    } else {
      ListStepKeeps(s, LoadMore(more), limit);
      forall events | AllGuarded(n, events, limit) ensures Increasing(ListRun(n, events, limit).view.items) {
        ListRunKeeps(n, events, limit);
        WalkIncreases(ListRun(n, events, limit).pages, limit);
      }
    }
  }
}
