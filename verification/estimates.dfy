/**
 An estimate from draft to signature, over every run of requests taken one at a time.
 Amounts are in cents; how a request body becomes lines is in LineItems.
 */
module Estimates {
  import opened Wrappers
  import opened Money
  import opened LineItems

  type ProfileId = nat

  /** A markup profile's percentages. */
  datatype Markup = Markup(overhead: real, profit: real)

  type Profiles = map<ProfileId, Markup>

  datatype Status = Draft | Sent | Approved | Rejected

  datatype State = State(
    present: bool,             // not deleted
    status: Status,
    lines: seq<Line>,
    subtotal: Option<int>,
    total: Option<int>,
    profile: ProfileId,
    snapshotted: bool,
    esignature: Option<nat>,
    approvals: nat,            // ESTIMATE_APPROVED events published; each drafts a deposit invoice
    profiles: Profiles)        // the tenant's markup profiles

  datatype Request =
    | Replace(items: seq<Input>, catalog: Catalog)
    | Calculate
    | SetProfile(profile: ProfileId, stale: bool)
    | Delete
    | Send
    | Approve(esignature: nat, signerIsCaller: bool)
    | Reject
    | CreateProfile(id: ProfileId, markup: Markup)
    | EditProfile(id: ProfileId, overhead: Option<real>, profit: Option<real>)
    | DeleteProfile(id: ProfileId, usedElsewhere: bool)

  datatype Answer = Done | NotFound | Conflict | Unprocessable | Forbidden | ServerError

  function Created(profile: ProfileId, profiles: Profiles): State {
    State(true, Draft, [], None, None, profile, false, None, 0, profiles)
  }

  // ---------------------------------------------------------------- the handlers

  /** The row a resolved line becomes at index `k`. */
  function RowOf(item: Input, k: nat, catalog: Catalog): Line
    requires Resolves(item, catalog)
  {
    var rate := RateOf(item, catalog);
    Line(k, item, rate, HalfUp(Price(item, rate)))
  }

  function Rows(items: seq<Input>, catalog: Catalog): seq<Line>
    requires AllResolve(items, catalog)
  {
    seq(|items|, k requires 0 <= k < |items| => RowOf(items[k], k, catalog))
  }

  function Subtotal(lines: seq<Line>): int {
    if lines == [] then 0 else Subtotal(lines[..|lines| - 1]) + lines[|lines| - 1].total
  }

  /** The subtotal with overhead and then profit on it, rounded once. */
  function WithMarkup(subtotal: int, m: Markup): int {
    HalfUp(Marked(Stored(subtotal), 1.0 + m.overhead / 100.0, 1.0 + m.profit / 100.0))
  }

  function Marked(subtotal: real, overhead: real, profit: real): real {
    subtotal * overhead * profit
  }

  lemma MarkupsCommute(x: real, a: real, b: real)
    ensures Marked(x, a, b) == Marked(x, b, a)
  {
    assert x * a * b == x * (a * b) == x * (b * a) == x * b * a;
  }

  lemma WithoutMarkup(subtotal: int)
    ensures WithMarkup(subtotal, Markup(0.0, 0.0)) == subtotal
  {
    var x := Stored(subtotal);
    assert Marked(x, 1.0, 1.0) == x;
    HalfUpLaws(0.0, 0.0, subtotal);
  }

  lemma EitherWayRound(subtotal: int, m: Markup)
    ensures WithMarkup(subtotal, Markup(m.profit, m.overhead)) == WithMarkup(subtotal, m)
  {
    MarkupsCommute(Stored(subtotal), 1.0 + m.overhead / 100.0, 1.0 + m.profit / 100.0);
  }

  /**
   The total is the nearest cent to the exact product, rounded once; without markup it is the
   subtotal, and which percentage is called overhead makes no difference.
   */
  lemma TotalIsNearestCent(subtotal: int, m: Markup, exact: real)
    requires exact == (subtotal as real / 100.0) * (1.0 + m.overhead / 100.0) * (1.0 + m.profit / 100.0)
    ensures IsHalfUp(exact, WithMarkup(subtotal, m))
    ensures WithMarkup(subtotal, Markup(0.0, 0.0)) == subtotal
    ensures WithMarkup(subtotal, Markup(m.profit, m.overhead)) == WithMarkup(subtotal, m)
  {
    WithoutMarkup(subtotal);
    EitherWayRound(subtotal, m);
    assert Marked(Stored(subtotal), 1.0 + m.overhead / 100.0, 1.0 + m.profit / 100.0) == exact;
    HalfUpExact(exact, HalfUp(exact));
  }

  /** A PATCH changes the percentages it names. */
  function Patched(m: Markup, overhead: Option<real>, profit: Option<real>): Markup {
    Markup(if overhead.Some? then overhead.value else m.overhead, if profit.Some? then profit.value else m.profit)
  }

  /** The profile routes: what they leave, and answer. `used` is whether an estimate refers to it. */
  function HandleProfile(profiles: Profiles, r: Request, used: bool): (Profiles, Answer)
    requires r.CreateProfile? || r.EditProfile? || r.DeleteProfile?
  {
    match r
    case CreateProfile(id, markup) =>
      if id in profiles then (profiles, Conflict) else (profiles[id := markup], Done)
    case EditProfile(id, overhead, profit) =>
      if id !in profiles then (profiles, NotFound)
      else (profiles[id := Patched(profiles[id], overhead, profit)], Done)
    case DeleteProfile(id, _) =>
      if id !in profiles then (profiles, NotFound)
      else if used then (profiles, Conflict)
      else (profiles - {id}, Done)
  }

  predicate Uses(e: State, r: Request) {
    r.DeleteProfile? && (r.usedElsewhere || (e.present && e.profile == r.id))
  }

  function Handle(e: State, r: Request): (State, Answer) {
    if r.CreateProfile? || r.EditProfile? || r.DeleteProfile? then
      var (profiles, answer) := HandleProfile(e.profiles, r, Uses(e, r));
      (e.(profiles := profiles), answer)
    else if !e.present then (e, NotFound)
    else match r
      case Replace(items, catalog) =>
        if e.snapshotted || e.status == Sent then (e, Conflict)
        else if !AllResolve(items, catalog) then (e, Unprocessable)
        else if Conflicts(items, catalog) != [] then (e, Conflict)
        else (e.(lines := Rows(items, catalog)), Done)
      case Calculate =>
        if e.snapshotted || e.status == Sent then (e, Conflict)
        else if e.profile !in e.profiles then (e, ServerError)
        else
          var subtotal := Subtotal(e.lines);
          (e.(subtotal := Some(subtotal), total := Some(WithMarkup(subtotal, e.profiles[e.profile]))), Done)
      case SetProfile(profile, stale) =>
        if stale || e.status != Draft then (e, Conflict)
        else if profile !in e.profiles then (e, NotFound)
        else (e.(profile := profile), Done)
      case Delete => if e.status != Draft then (e, Conflict) else (e.(present := false), Done)
      case Send => if e.total.None? then (e, Conflict) else (e.(status := Sent), Done)
      case Approve(esignature, signerIsCaller) =>
        if e.status != Sent then (e, Conflict)
        else if !signerIsCaller then (e, Forbidden)
        else (e.(esignature := Some(esignature), status := Approved, snapshotted := true,
                 approvals := e.approvals + 1), Done)
      case Reject => if e.status != Sent then (e, Conflict) else (e.(status := Rejected), Done)
  }

  function Exec(e: State, r: Request): State {
    Handle(e, r).0
  }

  function Run(e: State, requests: seq<Request>): State {
    if requests == [] then e else Exec(Run(e, requests[..|requests| - 1]), requests[|requests| - 1])
  }

  // ---------------------------------------------------------------- what each request comes to

  /** Line `k` names an item the catalog has not; or was made out for another rate than it has. */
  predicate Unknown(line: Input, catalog: Catalog) {
    line.Catalogued? && line.item !in catalog
  }

  predicate Outdated(line: Input, catalog: Catalog) {
    line.Catalogued? && line.item in catalog && line.expectedRate.Some? && line.expectedRate.value != catalog[line.item]
  }

  /** A new estimate is an empty draft: it can be priced or deleted, but not sent before it is priced. */
  lemma FreshEstimate(profile: ProfileId, profiles: Profiles)
    requires profile in profiles
    ensures var e := Created(profile, profiles);
            && e.lines == [] && !e.snapshotted && e.approvals == 0
            && Handle(e, Calculate).1 == Done && Handle(e, Delete).1 == Done
            && Handle(e, Send) == (e, Conflict) && Handle(Exec(e, Calculate), Send).1 == Done
  {
  }

  lemma AbsentIsNotFound(e: State, r: Request)
    requires !e.present && !r.CreateProfile? && !r.EditProfile? && !r.DeleteProfile?
    ensures Handle(e, r) == (e, NotFound)
  {
  }

  /**
   A replace is refused with 409 on a snapshotted or sent estimate, else with 422 for an item
   unknown, else with 409 for a rate that changed; and otherwise only the lines change, to the
   request's, in its order, each at its rate and rounded.
   */
  lemma ReplaceOutcome(e: State, items: seq<Input>, catalog: Catalog)
    requires e.present
    ensures var (n, answer) := Handle(e, Replace(items, catalog));
            if e.snapshotted || e.status == Sent then n == e && answer == Conflict
            else if exists k :: 0 <= k < |items| && Unknown(items[k], catalog) then n == e && answer == Unprocessable
            else if exists k :: 0 <= k < |items| && Outdated(items[k], catalog) then n == e && answer == Conflict
            else
              && answer == Done && n == e.(lines := n.lines) && |n.lines| == |items|
              && forall k :: 0 <= k < |items| ==> IsRowOf(n.lines[k], items[k], k, catalog)
  {
    if AllResolve(items, catalog) {
      NoConflicts(items, catalog);
      assert forall k :: 0 <= k < |items| ==> (Conflicting(items[k], catalog) <==> Outdated(items[k], catalog));
      forall k | 0 <= k < |items| ensures IsRowOf(Rows(items, catalog)[k], items[k], k, catalog) {
        HalfUpExact(Price(items[k], RateOf(items[k], catalog)), Rows(items, catalog)[k].total);
      }
    }
    assert AllResolve(items, catalog) <==> forall k :: 0 <= k < |items| ==> !Unknown(items[k], catalog);
  }

  /** A calculation is refused on the same estimates, and otherwise changes the two totals alone. */
  lemma CalculateOutcome(e: State)
    requires e.present
    ensures var (n, answer) := Handle(e, Calculate);
            if e.snapshotted || e.status == Sent then n == e && answer == Conflict
            else if e.profile !in e.profiles then n == e && answer == ServerError
            else
              && answer == Done && n == e.(subtotal := n.subtotal, total := n.total)
              && n.subtotal == Some(Subtotal(e.lines))
              && n.total == Some(WithMarkup(Subtotal(e.lines), e.profiles[e.profile]))
  {
  }

  /** The subtotal is the sum of the lines' totals, whichever way they are split. */
  lemma {:induction false} SubtotalAdds(a: seq<Line>, b: seq<Line>)
    ensures Subtotal(a + b) == Subtotal(a) + Subtotal(b)
    ensures |a| == 1 ==> Subtotal(a) == a[0].total
  {
    assert |a| == 1 ==> a[..0] == [];
    if b == [] {
      assert a + b == a;
    } else {
      SubtotalAdds(a, b[..|b| - 1]);
      assert (a + b)[..|a + b| - 1] == a + b[..|b| - 1];
    }
  }

  /** A draft that is not out of date takes a profile there is; a draft alone is deleted. */
  lemma DraftOutcomes(e: State, profile: ProfileId, stale: bool)
    requires e.present
    ensures Handle(e, SetProfile(profile, stale)) ==
              if stale || e.status != Draft then (e, Conflict)
              else if profile !in e.profiles then (e, NotFound)
              else (e.(profile := profile), Done)
    ensures e.status != Draft ==> Handle(e, Delete) == (e, Conflict)
    ensures e.status == Draft ==>
              var (n, answer) := Handle(e, Delete); !n.present && answer == Done && n.lines == e.lines
  {
  }

  /** The signing requests: what each asks for, what it answers otherwise, and all it changes. */
  lemma SigningOutcomes(e: State, esignature: nat, signerIsCaller: bool)
    requires e.present
    ensures Handle(e, Send) == match e.total case None => (e, Conflict) case Some(_) => (e.(status := Sent), Done)
    ensures e.status != Sent ==>
              Handle(e, Approve(esignature, signerIsCaller)) == (e, Conflict) == Handle(e, Reject)
    ensures e.status == Sent ==> Handle(e, Reject) == (e.(status := Rejected), Done)
    ensures e.status == Sent && !signerIsCaller ==> Handle(e, Approve(esignature, signerIsCaller)) == (e, Forbidden)
    ensures e.status == Sent && signerIsCaller ==>
              var (n, answer) := Handle(e, Approve(esignature, signerIsCaller));
              && answer == Done && n.status == Approved && n.snapshotted && n.esignature == Some(esignature)
              && n.approvals == e.approvals + 1 && n.lines == e.lines && n.total == e.total && n.present
  {
  }

  /** The profile routes touch one profile and no estimate; one in use is not deleted. */
  lemma ProfileOutcomes(e: State, id: ProfileId, overhead: Option<real>, profit: Option<real>, usedElsewhere: bool)
    ensures var (n, answer) := Handle(e, EditProfile(id, overhead, profit));
            if id !in e.profiles then n == e && answer == NotFound
            else
              && answer == Done && n == e.(profiles := n.profiles)
              && n.profiles.Keys == e.profiles.Keys
              && (forall other :: other in e.profiles && other != id ==> n.profiles[other] == e.profiles[other])
              && n.profiles[id].overhead == (match overhead case Some(x) => x case None => e.profiles[id].overhead)
              && n.profiles[id].profit == (match profit case Some(x) => x case None => e.profiles[id].profit)
    ensures var (n, answer) := Handle(e, DeleteProfile(id, usedElsewhere));
            if id !in e.profiles then n == e && answer == NotFound
            else if usedElsewhere || (e.present && e.profile == id) then n == e && answer == Conflict
            else n == e.(profiles := e.profiles - {id}) && answer == Done
  {
  }

  /** A new profile is added as it was sent. */
  lemma NewProfile(e: State, id: ProfileId, markup: Markup)
    requires id !in e.profiles
    ensures Handle(e, CreateProfile(id, markup)) == (e.(profiles := e.profiles[id := markup]), Done)
  {
  }

  // ---------------------------------------------------------------- the calculation

  /** The catalog's category of each item, and the name for lines without an item. */
  datatype Categories = Categories(items: map<ItemId, string>, miscellaneous: string)

  /** The outer join: a line without a catalog item is miscellaneous. */
  function CategoryOf(line: Line, categories: Categories): string {
    if line.input.Catalogued? && line.input.item in categories.items
    then categories.items[line.input.item] else categories.miscellaneous
  }

  function CategoryTotal(lines: seq<Line>, categories: Categories, category: string): int {
    if lines == [] then 0 else
      var last := lines[|lines| - 1];
      CategoryTotal(lines[..|lines| - 1], categories, category)
        + if CategoryOf(last, categories) == category then last.total else 0
  }

  /** A line counts for its item's category; free-form, or with an item that has none, as miscellaneous. */
  lemma {:induction false} CategoryTotalAdds(lines: seq<Line>, categories: Categories, category: string, last: Line)
    ensures var counts := match last.input
                          case Catalogued(item, _, _) =>
                            if item in categories.items then category == categories.items[item]
                            else category == categories.miscellaneous
                          case FreeForm(_, _, _, _) => category == categories.miscellaneous;
            CategoryTotal(lines + [last], categories, category)
              == CategoryTotal(lines, categories, category) + if counts then last.total else 0
    ensures CategoryTotal([], categories, category) == 0
  {
    assert (lines + [last])[..|lines|] == lines;
  }

  /** What the named categories sum to. */
  function SumOver(names: seq<string>, sums: map<string, int>): int {
    if names == [] then 0 else
      var last := names[|names| - 1];
      SumOver(names[..|names| - 1], sums) + if last in sums then sums[last] else 0
  }

  ghost predicate Distinct(names: seq<string>) {
    forall i, j :: 0 <= i < j < |names| ==> names[i] != names[j]
  }

  /** A new value for one name changes the sum by the difference, if the name is among them. */
  lemma {:induction false} SumOverUpdated(names: seq<string>, sums: map<string, int>, name: string, value: int)
    requires Distinct(names)
    ensures SumOver(names, sums[name := value])
         == SumOver(names, sums) + if name in names then value - (if name in sums then sums[name] else 0) else 0
  {
    if names != [] {
      var init := names[..|names| - 1];
      assert names == init + [names[|names| - 1]];
      SumOverUpdated(init, sums, name, value);
    }
  }

  ghost predicate HasCategory(lines: seq<Line>, categories: Categories, category: string) {
    exists i :: 0 <= i < |lines| && CategoryOf(lines[i], categories) == category
  }

  /** Every category of the lines once, each with its own lines' sum. */
  ghost predicate Breakdown(lines: seq<Line>, categories: Categories, names: seq<string>, sums: map<string, int>) {
    && Distinct(names) && (forall n :: n in names <==> n in sums)
    && (forall n {:trigger HasCategory(lines, categories, n)} :: n in sums <==> HasCategory(lines, categories, n))
    && (forall n {:trigger CategoryTotal(lines, categories, n)} ::
          (if n in sums then sums[n] else 0) == CategoryTotal(lines, categories, n))
  }

  lemma HasCategorySnoc(init: seq<Line>, last: Line, categories: Categories, n: string)
    ensures HasCategory(init + [last], categories, n)
       <==> HasCategory(init, categories, n) || CategoryOf(last, categories) == n
  {
    var lines := init + [last];
    if i :| 0 <= i < |init| && CategoryOf(init[i], categories) == n {
      assert CategoryOf(lines[i], categories) == n;
    }
    if i :| 0 <= i < |lines| && CategoryOf(lines[i], categories) == n {
      assert i < |init| ==> CategoryOf(init[i], categories) == n;
    }
    assert lines[|init|] == last;
  }

  /** One more line, in the accumulators. */
  function Counted(last: Line, categories: Categories, names: seq<string>, sums: map<string, int>)
    : (seq<string>, map<string, int>)
  {
    var c := CategoryOf(last, categories);
    if c in sums then (names, sums[c := sums[c] + last.total]) else (names + [c], sums[c := last.total])
  }

  lemma BreakdownStep(init: seq<Line>, last: Line, categories: Categories, names: seq<string>, sums: map<string, int>)
    requires Breakdown(init, categories, names, sums)
    ensures var (names', sums') := Counted(last, categories, names, sums);
            Breakdown(init + [last], categories, names', sums')
  {
    var lines := init + [last];
    var (names', sums') := Counted(last, categories, names, sums);
    forall n ensures n in sums' <==> HasCategory(lines, categories, n) {
      HasCategorySnoc(init, last, categories, n);
      assert n in sums <==> HasCategory(init, categories, n);
    }
    forall n ensures (if n in sums' then sums'[n] else 0) == CategoryTotal(lines, categories, n) {
      assert lines[..|lines| - 1] == init;
      assert (if n in sums then sums[n] else 0) == CategoryTotal(init, categories, n);
    }
  }

  /** The accumulators over these lines; what the breakdown gives out adds up to the subtotal. */
  ghost predicate Tally(lines: seq<Line>, categories: Categories,
                        subtotal: int, names: seq<string>, sums: map<string, int>) {
    subtotal == Subtotal(lines) && Breakdown(lines, categories, names, sums) && SumOver(names, sums) == subtotal
  }

  lemma SumOverAppended(names: seq<string>, sums: map<string, int>, name: string, value: int)
    requires Distinct(names) && name !in names
    ensures SumOver(names + [name], sums[name := value]) == SumOver(names, sums) + value
  {
    SumOverUpdated(names, sums, name, value);
    assert (names + [name])[..|names|] == names;
  }

  lemma SumOverAdded(names: seq<string>, sums: map<string, int>, name: string, amount: int)
    requires Distinct(names) && (name in names <==> name in sums)
    ensures name in sums ==> SumOver(names, sums[name := sums[name] + amount]) == SumOver(names, sums) + amount
    ensures name !in sums ==> SumOver(names + [name], sums[name := amount]) == SumOver(names, sums) + amount
  {
    if name in sums {
      SumOverUpdated(names, sums, name, sums[name] + amount);
    } else {
      SumOverAppended(names, sums, name, amount);
    }
  }

  lemma CountedIs(last: Line, categories: Categories, names: seq<string>, sums: map<string, int>, name: string)
    requires name == CategoryOf(last, categories)
    ensures name in sums ==> Counted(last, categories, names, sums) == (names, sums[name := sums[name] + last.total])
    ensures name !in sums ==> Counted(last, categories, names, sums) == (names + [name], sums[name := last.total])
  {
  }

  lemma CountedSums(last: Line, categories: Categories, names: seq<string>, sums: map<string, int>,
                    names': seq<string>, sums': map<string, int>)
    requires Distinct(names) && (CategoryOf(last, categories) in names <==> CategoryOf(last, categories) in sums)
    requires (names', sums') == Counted(last, categories, names, sums)
    ensures SumOver(names', sums') == SumOver(names, sums) + last.total
  {
    SumOverAdded(names, sums, CategoryOf(last, categories), last.total);
    CountedIs(last, categories, names, sums, CategoryOf(last, categories));
  }

  lemma TallyStep(init: seq<Line>, last: Line, categories: Categories,
                  subtotal: int, names: seq<string>, sums: map<string, int>)
    requires Tally(init, categories, subtotal, names, sums)
    ensures var (names', sums') := Counted(last, categories, names, sums);
            Tally(init + [last], categories, subtotal + last.total, names', sums')
  {
    BreakdownStep(init, last, categories, names, sums);
    var (names', sums') := Counted(last, categories, names, sums);
    CountedSums(last, categories, names, sums, names', sums');
    assert (init + [last])[..|init|] == init;
  }

  /** The loop's body: add the line to its category, new or not. */
  method CountLine(line: Line, categories: Categories, names: seq<string>, sums: map<string, int>)
    returns (names': seq<string>, sums': map<string, int>)
    ensures (names', sums') == Counted(line, categories, names, sums)
  {
    var category := CategoryOf(line, categories);
    if category !in sums {
      return names + [category], sums[category := line.total];
    }
    return names, sums[category := sums[category] + line.total];
  }

  /** The accumulating loop. */
  method CalculateEstimate(lines: seq<Line>, categories: Categories, m: Markup)
    returns (subtotal: int, total: int, names: seq<string>, sums: map<string, int>)
    ensures Tally(lines, categories, subtotal, names, sums) && total == WithMarkup(subtotal, m)
  {
    subtotal, names, sums := 0, [], map[];
    for i := 0 to |lines|
      invariant Tally(lines[..i], categories, subtotal, names, sums)
    {
      assert lines[..i + 1] == lines[..i] + [lines[i]];
      TallyStep(lines[..i], lines[i], categories, subtotal, names, sums);
      names, sums := CountLine(lines[i], categories, names, sums);
      subtotal := subtotal + lines[i].total;
    }
    assert lines[..|lines|] == lines;
    total := WithMarkup(subtotal, m);
  }

  /** The exact price of every line, before any rounding. */
  function Prices(lines: seq<Line>): seq<real> {
    seq(|lines|, i requires 0 <= i < |lines| => Price(lines[i].input, lines[i].rate))
  }

  /** Every line's total is its own price, rounded: true of whatever a replace stores. */
  predicate RoundedLines(lines: seq<Line>) {
    forall i :: 0 <= i < |lines| ==> lines[i].total == HalfUp(Price(lines[i].input, lines[i].rate))
  }

  lemma {:induction false} RoundedSumInit(xs: seq<real>, x: real)
    ensures RoundedSum(xs + [x]) == RoundedSum(xs) + HalfUp(x)
  {
    if xs == [] {
      assert xs + [x] == [x];
    } else {
      RoundedSumInit(xs[1..], x);
      assert (xs + [x])[1..] == xs[1..] + [x];
    }
  }

  lemma {:induction false} SubtotalIsRoundedSum(lines: seq<Line>)
    requires RoundedLines(lines)
    ensures Subtotal(lines) == RoundedSum(Prices(lines))
  {
    if lines != [] {
      var init := lines[..|lines| - 1];
      SubtotalIsRoundedSum(init);
      var last := lines[|lines| - 1];
      assert Prices(lines) == Prices(init) + [Price(last.input, last.rate)];
      RoundedSumInit(Prices(init), Price(last.input, last.rate));
    }
  }

  /** The subtotal of n lines is within n/2 cents of their exact price. */
  lemma SubtotalDrift(lines: seq<Line>)
    requires RoundedLines(lines)
    ensures -(|lines| as real) / 2.0
         <= ExactSum(Prices(lines)) * 100.0 - Subtotal(lines) as real
         <= |lines| as real / 2.0
  {
    SubtotalIsRoundedSum(lines);
    RoundedSumDrift(Prices(lines));
  }

  // ---------------------------------------------------------------- the row

  /** The tenant's profiles. */
  class MarkupProfiles {
    var table: Profiles

    constructor ()
      ensures table == map[]
    {
      table := map[];
    }

    method Create(id: ProfileId, markup: Markup) returns (answer: Answer)
      modifies this
      ensures (table, answer) == HandleProfile(old(table), CreateProfile(id, markup), false)
    {
      if id in table {
        return Conflict;
      }
      table := table[id := markup];
      return Done;
    }

    method Patch(id: ProfileId, overhead: Option<real>, profit: Option<real>) returns (answer: Answer)
      modifies this
      ensures (table, answer) == HandleProfile(old(table), EditProfile(id, overhead, profit), false)
    {
      if id !in table {
        return NotFound;
      }
      var profile := table[id];
      if overhead.Some? {
        profile := profile.(overhead := overhead.value);
      }
      if profit.Some? {
        profile := profile.(profit := profit.value);
      }
      table := table[id := profile];
      return Done;
    }

    /** `used` is what the query for a referring estimate found. */
    method Remove(id: ProfileId, used: bool) returns (answer: Answer)
      modifies this
      ensures (table, answer) == HandleProfile(old(table), DeleteProfile(id, used), used)
    {
      if id !in table {
        return NotFound;
      }
      if used {
        return Conflict;
      }
      table := table - {id};
      return Done;
    }
  }

  class Estimate {
    const profiles: MarkupProfiles
    var present: bool
    var status: Status
    var lines: seq<Line>
    var subtotal: Option<int>
    var total: Option<int>
    var profile: ProfileId
    var snapshotted: bool
    var esignature: Option<nat>
    var approvals: nat

    function Value(): State
      reads this, profiles
    {
      State(present, status, lines, subtotal, total, profile, snapshotted, esignature, approvals, profiles.table)
    }

    constructor (profile: ProfileId, profiles: MarkupProfiles)
      ensures Value() == Created(profile, profiles.table)
    {
      this.profiles := profiles;
      present, status, lines, subtotal, total := true, Draft, [], None, None;
      this.profile, snapshotted, esignature, approvals := profile, false, None, 0;
    }

    method ReplaceLines(items: seq<Input>, catalog: Catalog) returns (answer: Answer)
      modifies this
      ensures (Value(), answer) == Handle(old(Value()), Replace(items, catalog))
    {
      if !present {
        return NotFound;
      }
      if snapshotted || status == Sent {
        return Conflict;
      }
      var resolved := Resolve(items, catalog);
      if resolved.Err? {
        return if resolved.error.Unresolved? then Unprocessable else Conflict;
      }
      lines := resolved.value;
      forall k | 0 <= k < |items| ensures lines[k] == RowOf(items[k], k, catalog) {
        HalfUpExact(Price(items[k], lines[k].rate), lines[k].total);
      }
      assert lines == Rows(items, catalog);
      return Done;
    }

    method CalculateTotals(categories: Categories) returns (answer: Answer)
      modifies this
      ensures (Value(), answer) == Handle(old(Value()), Calculate)
    {
      if !present {
        return NotFound;
      }
      if snapshotted || status == Sent {
        return Conflict;
      }
      if profile !in profiles.table {
        return ServerError;
      }
      var s, t, names, sums := CalculateEstimate(lines, categories, profiles.table[profile]);
      subtotal, total := Some(s), Some(t);
      return Done;
    }

    method UpdateProfile(newProfile: ProfileId, stale: bool) returns (answer: Answer)
      modifies this
      ensures (Value(), answer) == Handle(old(Value()), SetProfile(newProfile, stale))
    {
      if !present {
        return NotFound;
      }
      if stale || status != Draft {
        return Conflict;
      }
      if newProfile !in profiles.table {
        return NotFound;
      }
      profile := newProfile;
      return Done;
    }

    method DeleteRow() returns (answer: Answer)
      modifies this
      ensures (Value(), answer) == Handle(old(Value()), Delete)
    {
      if !present {
        return NotFound;
      }
      if status != Draft {
        return Conflict;
      }
      present := false;
      return Done;
    }

    method SendForSignature() returns (answer: Answer)
      modifies this
      ensures (Value(), answer) == Handle(old(Value()), Send)
    {
      if !present {
        return NotFound;
      }
      if total.None? {
        return Conflict;
      }
      status := Sent;
      return Done;
    }

    method ApproveWith(signature: nat, signerIsCaller: bool) returns (answer: Answer)
      modifies this
      ensures (Value(), answer) == Handle(old(Value()), Approve(signature, signerIsCaller))
    {
      if !present {
        return NotFound;
      }
      if status != Sent {
        return Conflict;
      }
      if !signerIsCaller {
        return Forbidden;
      }
      esignature := Some(signature);
      status := Approved;
      snapshotted := true;
      approvals := approvals + 1;
      return Done;
    }

    method RejectIt() returns (answer: Answer)
      modifies this
      ensures (Value(), answer) == Handle(old(Value()), Reject)
    {
      if !present {
        return NotFound;
      }
      if status != Sent {
        return Conflict;
      }
      status := Rejected;
      return Done;
    }
  }

  // ---------------------------------------------------------------- every run

  predicate Inv(e: State) {
    && (e.present ==> e.profile in e.profiles)
    && (e.snapshotted <==> e.esignature.Some?)
    && (e.snapshotted <==> e.approvals > 0)
    && (e.status == Approved ==> e.snapshotted)
    && (e.status == Draft ==> !e.snapshotted)
    && (e.status != Draft ==> e.present && e.total.Some?)
    && (e.total.Some? <==> e.subtotal.Some?)
    && RoundedLines(e.lines)
    && (forall i :: 0 <= i < |e.lines| ==> e.lines[i].position == i)
  }

  lemma StepKeeps(e: State, r: Request)
    requires Inv(e)
    ensures Inv(Exec(e, r))
  {
    if r.Replace? && Handle(e, r).1 == Done {
      var rows := Rows(r.items, r.catalog);
      assert RoundedLines(rows) && forall i :: 0 <= i < |rows| ==> rows[i].position == i;
    } else {
      assert Exec(e, r).lines == e.lines;
    }
  }

  lemma {:induction false} RunKeeps(e: State, requests: seq<Request>)
    requires Inv(e)
    ensures Inv(Run(e, requests))
  {
    if requests != [] {
      RunKeeps(e, requests[..|requests| - 1]);
      StepKeeps(Run(e, requests[..|requests| - 1]), requests[|requests| - 1]);
    }
  }

  /** Created on a profile there is, and then any requests. */
  ghost predicate Reached(e: State) {
    exists profile, profiles, requests :: ReachedBy(e, profile, profiles, requests)
  }

  ghost predicate ReachedBy(e: State, profile: ProfileId, profiles: Profiles, requests: seq<Request>) {
    profile in profiles && e == Run(Created(profile, profiles), requests)
  }

  lemma ReachedKeeps(e: State)
    requires Reached(e)
    ensures Inv(e)
  {
    var profile, profiles, requests :| ReachedBy(e, profile, profiles, requests);
    RunKeeps(Created(profile, profiles), requests);
  }

  /**
   From creation, over every run of estimate and profile requests: an e-signature is linked
   exactly when the estimate is snapshotted; only priced estimates leave draft, and those are
   never deleted; the profile of one that is there is never deleted either, so a calculation
   always finds it; and the subtotal it would store is within half a cent a line of the exact
   price.
   */
  lemma EveryRun(e: State)
    requires Reached(e)
    ensures e.snapshotted <==> e.esignature.Some?
    ensures e.status == Approved ==> e.snapshotted
    ensures e.status != Draft ==> e.present && e.total.Some?
    ensures e.present ==> e.profile in e.profiles && Handle(e, Calculate).1 != ServerError
    ensures -(|e.lines| as real) / 2.0 <= ExactSum(Prices(e.lines)) * 100.0 - Subtotal(e.lines) as real
                                       <= |e.lines| as real / 2.0
  {
    ReachedKeeps(e);
    SubtotalDrift(e.lines);
  }

  /** What a client signs. */
  predicate SameOffer(a: State, b: State) {
    && a.present == b.present && a.lines == b.lines
    && a.subtotal == b.subtotal && a.total == b.total && a.profile == b.profile
  }

  lemma {:induction false} FrozenFrom(e: State, requests: seq<Request>)
    requires Inv(e) && e.snapshotted
    ensures Inv(Run(e, requests)) && Run(e, requests).snapshotted && SameOffer(e, Run(e, requests))
  {
    if requests != [] {
      FrozenFrom(e, requests[..|requests| - 1]);
    }
  }

  /**
   Once an estimate is snapshotted, whatever is requested afterwards, it stays so, and its
   lines, subtotal, total and markup profile never change and it is never deleted.
   */
  lemma SnapshotIsForEver(e: State, after: seq<Request>)
    requires Reached(e) && e.snapshotted
    ensures var n := Run(e, after);
            && n.present && n.snapshotted && n.lines == e.lines && n.profile == e.profile
            && n.subtotal == e.subtotal && n.total == e.total
  {
    ReachedKeeps(e);
    FrozenFrom(e, after);
  }

  /** Request `k` is the send that put the estimate in front of the client. */
  ghost predicate SentAt(e: State, requests: seq<Request>, k: nat) {
    && k < |requests| && requests[k] == Send
    && Handle(Run(e, requests[..k]), Send).1 == Done
  }

  /** ... and the last such send: since then it has stayed there. */
  ghost predicate LastSentAt(e: State, requests: seq<Request>, k: nat) {
    && SentAt(e, requests, k)
    && (forall j: nat :: k < j < |requests| ==> !SentAt(e, requests, j))
    && (forall j: nat :: k < j <= |requests| ==> Run(e, requests[..j]).status == Sent)
  }

  lemma LastSentLater(e: State, requests: seq<Request>, last: Request, k: nat)
    requires LastSentAt(e, requests, k) && Run(e, requests + [last]).status == Sent
    requires !SentAt(e, requests + [last], |requests|)
    ensures LastSentAt(e, requests + [last], k)
  {
    var all := requests + [last];
    assert all[..|all|] == all;
    forall j: nat | j <= |requests| ensures all[..j] == requests[..j] { }
    forall j: nat | k < j < |all| ensures !SentAt(e, all, j) {
      if j < |requests| { assert !SentAt(e, requests, j); }
    }
  }

  /** Only an accepted send puts an estimate at sent; while it is there the offer stands. */
  lemma SentOnlyBySend(e: State, last: Request)
    requires Exec(e, last).status == Sent
    ensures (last == Send && Handle(e, Send).1 == Done) || e.status == Sent
    ensures SameOffer(e, Exec(e, last))
  {
  }

  lemma {:induction false} OfferedBySend(e: State, requests: seq<Request>) returns (k: nat)
    requires e.status != Sent && Run(e, requests).status == Sent
    ensures LastSentAt(e, requests, k) && SameOffer(Run(e, requests[..k]), Run(e, requests))
  {
    var n := |requests| - 1;
    var before, last := requests[..n], requests[n];
    SentOnlyBySend(Run(e, before), last);
    assert requests[..|requests|] == requests;
    if SentAt(e, requests, n) {
      k := n;
    } else {
      k := OfferedBySend(e, before);
      assert requests == before + [last];
      LastSentLater(e, before, last, k);
      assert before[..k] == requests[..k];
    }
  }

  /**
   A client approves exactly what was sent by THE preceding send, after which the estimate
   was never anything but sent: the lines, the total and the profile then.
   */
  lemma ApprovedAsSent(profile: ProfileId, profiles: Profiles, requests: seq<Request>, esignature: nat)
    returns (k: nat)
    requires Handle(Run(Created(profile, profiles), requests), Approve(esignature, true)).1 == Done
    ensures LastSentAt(Created(profile, profiles), requests, k)
    ensures SameOffer(Run(Created(profile, profiles), requests[..k]),
                      Exec(Run(Created(profile, profiles), requests), Approve(esignature, true)))
  {
    k := OfferedBySend(Created(profile, profiles), requests);
  }

  // ---------------------------------------------------------------- what does not hold

  /** Both stored totals are those of the current lines, the current profile and its percentages. */
  predicate Priced(e: State) {
    && e.profile in e.profiles
    && e.subtotal == Some(Subtotal(e.lines))
    && e.total == Some(WithMarkup(Subtotal(e.lines), e.profiles[e.profile]))
  }

  /** The total the lines would have under a markup is not the one stored. */
  predicate OtherTotal(e: State, m: Markup) {
    e.total != Some(WithMarkup(Subtotal(e.lines), m))
  }

  /**
   Three requests put the stored totals out of date, and nothing notices: a replace, exactly
   when the new lines come to another subtotal; a change to another profile, and an edit of
   the profile's own percentages, exactly when the new markup gives another total. The edit
   is accepted at every status. (A profile is deleted only once its estimate is gone.)
   */
  lemma OutOfDateExactlyWhen(e: State, r: Request)
    requires Priced(e)
    ensures !Priced(Exec(e, r)) <==>
              && Handle(e, r).1 == Done
              && (match r
                  case Replace(items, catalog) => Subtotal(Rows(items, catalog)) != Subtotal(e.lines)
                  case SetProfile(profile, _) => OtherTotal(e, e.profiles[profile])
                  case EditProfile(id, overhead, profit) =>
                    id == e.profile && OtherTotal(e, Patched(e.profiles[id], overhead, profit))
                  case DeleteProfile(id, _) => id == e.profile
                  case _ => false)
    ensures e.present && r.DeleteProfile? && r.id == e.profile ==> Handle(e, r).1 != Done
  {
  }

  /** A calculation that is accepted brings them up to date again. */
  lemma CalculatePrices(e: State)
    requires Handle(e, Calculate).1 == Done
    ensures Priced(Exec(e, Calculate))
  {
  }

  lemma RunThree(e: State, a: Request, b: Request, c: Request)
    ensures Run(e, [a, b, c]) == Exec(Exec(Exec(e, a), b), c)
  {
    assert [a, b, c][..2] == [a, b] && [a, b][..1] == [a];
    assert Run(e, [a]) == Exec(e, a);
  }

  /** Any priced lines can be taken out again before the client signs their total. */
  lemma StaleTotalCanBeSigned(e: State, esignature: nat)
    requires e.present && e.status == Draft && !e.snapshotted && e.profile in e.profiles
    ensures var n := Exec(Run(e, [Calculate, Replace([], map[]), Send]), Approve(esignature, true));
            n.status == Approved && n.lines == [] && n.subtotal == Some(Subtotal(e.lines))
  {
    RunThree(e, Calculate, Replace([], map[]), Send);
    assert AllResolve([], map[]) && Rows([], map[]) == [];
    var e1 := Exec(e, Calculate);
    var e2 := Exec(e1, Replace([], map[]));
    assert e2 == e1.(lines := []);
    var e3 := Exec(e2, Send);
    assert e3 == e2.(status := Sent);
  }

  /** So can the profile be changed: any priced draft can be signed at the old profile's total. */
  lemma OldMarkupCanBeSigned(e: State, profile: ProfileId, esignature: nat)
    requires e.present && e.status == Draft && Priced(e) && profile in e.profiles
    ensures var n := Exec(Exec(Exec(e, SetProfile(profile, false)), Send), Approve(esignature, true));
            && n.status == Approved && n.profile == profile && n.lines == e.lines && n.total == e.total
            && (Priced(n) <==> !OtherTotal(e, e.profiles[profile]))
  {
  }

  /**
   And the profile's percentages be edited, before the send, between send and approval or
   after: the client has then signed a total that is not that of the profile, exactly if the
   new percentages give another.
   */
  lemma EditedMarkupCanBeSigned(e: State, overhead: Option<real>, profit: Option<real>, esignature: nat)
    requires e.present && e.status == Draft && Priced(e)
    ensures var edit, approve := EditProfile(e.profile, overhead, profit), Approve(esignature, true);
            var n := Exec(Exec(Exec(e, edit), Send), approve);
            && n == Exec(Exec(Exec(e, Send), edit), approve) == Exec(Exec(Exec(e, Send), approve), edit)
            && n.status == Approved && n.profile == e.profile && n.lines == e.lines && n.total == e.total
            && (Priced(n) <==> !OtherTotal(e, Patched(e.profiles[e.profile], overhead, profit)))
  {
  }

  // ---------------------------------------------------------------- approved is not final

  /** Everything but the tenant's profiles. */
  function Row(e: State): State {
    e.(profiles := map[])
  }

  /** Past an approval: approved no more, or approved again. */
  predicate MovedOn(e: State, approvals: nat) {
    Inv(e) && e.approvals >= approvals > 0 && (e.status == Approved ==> e.approvals > approvals)
  }

  lemma {:induction false} MovedOnStays(e: State, requests: seq<Request>, approvals: nat)
    requires MovedOn(e, approvals)
    ensures MovedOn(Run(e, requests), approvals)
  {
    if requests != [] {
      MovedOnStays(e, requests[..|requests| - 1], approvals);
      StepKeeps(Run(e, requests[..|requests| - 1]), requests[|requests| - 1]);
    }
  }

  /** Of all requests, a send alone moves an approved estimate; it does not ask the status. */
  lemma OnlySendMovesApproved(e: State, r: Request)
    requires Inv(e) && e.status == Approved
    ensures Row(Exec(e, r)) == Row(e) <==> r != Send
    ensures r == Send ==> MovedOn(Exec(e, r), e.approvals)
  {
    StepKeeps(e, r);
  }

  lemma {:induction false} RunFromApproved(e: State, requests: seq<Request>)
    requires Inv(e) && e.status == Approved
    ensures Inv(Run(e, requests))
    ensures if Send in requests then MovedOn(Run(e, requests), e.approvals) else Row(Run(e, requests)) == Row(e)
  {
    if requests != [] {
      var before, last := requests[..|requests| - 1], requests[|requests| - 1];
      assert requests == before + [last];
      RunFromApproved(e, before);
      StepKeeps(Run(e, before), last);
      if Send in before {
        MovedOnStays(Run(e, before), [last], e.approvals);
        assert Run(Run(e, before), []) == Run(e, before);
      } else {
        OnlySendMovesApproved(Run(e, before), last);
      }
    }
  }

  /** Over whole runs: an approved estimate ends as it was exactly if nobody sends it. */
  lemma ApprovedStaysIff(e: State, requests: seq<Request>)
    requires Reached(e) && e.status == Approved
    ensures Row(Run(e, requests)) == Row(e) <==> Send !in requests
  {
    ReachedKeeps(e);
    RunFromApproved(e, requests);
  }

  /**
   `approved` is not final: sent again, an approved estimate can be rejected, its snapshot
   and signature notwithstanding, or approved anew, which publishes ESTIMATE_APPROVED a
   second time and replaces the signature.
   */
  lemma ApprovedIsNotFinal(e: State, esignature: nat)
    requires Reached(e) && e.status == Approved
    ensures var resent := Exec(e, Send);
            && Exec(resent, Reject) == e.(status := Rejected)
            && Exec(resent, Approve(esignature, true))
                 == e.(esignature := Some(esignature), approvals := e.approvals + 1)
  {
    ReachedKeeps(e);
  }
}
