/**
 How a batch line replace turns its request body into rows: resolve every line, refuse
 the request or number the lines in the order they were sent.
 */
module LineItems {
  import opened Wrappers
  import opened Money

  type ItemId = int

  /** One entry of the request: priced by the catalog, or priced by the estimator. */
  datatype Input =
    | Catalogued(item: ItemId, quantity: real, expectedRate: Option<real>)
    | FreeForm(description: string, unit: string, quantity: real, rate: real)

  /** One stored line; `total` is in cents. */
  datatype Line = Line(position: nat, input: Input, rate: real, total: int)

  /** A catalogued line whose author saw another rate than the catalog holds now. */
  datatype RateConflict = RateConflict(item: ItemId, expected: real, current: real)

  datatype Refusal =
    | Unresolved(item: ItemId)              // 422
    | RatesChanged(conflicts: seq<RateConflict>)  // 409

  type Catalog = map<ItemId, real>

  predicate Resolves(line: Input, catalog: Catalog) {
    line.Catalogued? ==> line.item in catalog
  }

  function RateOf(line: Input, catalog: Catalog): real
    requires Resolves(line, catalog)
  {
    if line.Catalogued? then catalog[line.item] else line.rate
  }

  predicate Conflicting(line: Input, catalog: Catalog)
    requires Resolves(line, catalog)
  {
    line.Catalogued? && line.expectedRate.Some? && line.expectedRate.value != catalog[line.item]
  }

  predicate AllResolve(items: seq<Input>, catalog: Catalog) {
    forall k :: 0 <= k < |items| ==> Resolves(items[k], catalog)
  }

  /** Every conflict, in the order of the request. */
  function Conflicts(items: seq<Input>, catalog: Catalog): seq<RateConflict>
    requires AllResolve(items, catalog)
  {
    if items == [] then [] else
      var last := items[|items| - 1];
      Conflicts(items[..|items| - 1], catalog) +
      if Conflicting(last, catalog)
      then [RateConflict(last.item, last.expectedRate.value, catalog[last.item])]
      else []
  }

  lemma {:induction false} NoConflicts(items: seq<Input>, catalog: Catalog)
    requires AllResolve(items, catalog)
    ensures Conflicts(items, catalog) == []
       <==> forall k :: 0 <= k < |items| ==> !Conflicting(items[k], catalog)
  {
    if items != [] {
      var init := items[..|items| - 1];
      NoConflicts(init, catalog);
      assert forall k :: 0 <= k < |init| ==> init[k] == items[k];
    }
  }

  /** The exact, unrounded price of a line. */
  function Price(line: Input, rate: real): real {
    line.quantity * rate
  }

  /** The row a line becomes at index `k` of the request. */
  ghost predicate IsRowOf(row: Line, line: Input, k: nat, catalog: Catalog) {
    && row.position == k
    && row.input == line
    && Resolves(line, catalog) && row.rate == RateOf(line, catalog)
    && IsHalfUp(Price(line, row.rate), row.total)
  }

  /**
   A row has the catalog's rate for an item and the estimator's own otherwise, and for total
   the nearest cents to quantity times rate.
   */
  lemma RowMeans(row: Line, line: Input, k: nat, catalog: Catalog)
    requires IsRowOf(row, line, k, catalog)
    ensures row.position == k && row.input == line
    ensures match line
            case Catalogued(item, quantity, _) =>
              item in catalog && row.rate == catalog[item] && IsHalfUp(quantity * catalog[item], row.total)
            case FreeForm(_, _, quantity, rate) => row.rate == rate && IsHalfUp(quantity * rate, row.total)
  {
  }

  /** The line shows a rate its catalog no longer has. */
  ghost predicate Shows(line: Input, c: RateConflict, catalog: Catalog) {
    && line.Catalogued? && line.item == c.item && line.expectedRate == Some(c.expected)
    && c.item in catalog && catalog[c.item] == c.current != c.expected
  }

  /** The conflicts are those of the lines that show another rate, no more and no fewer. */
  lemma {:induction false} ConflictsAreChangedRates(items: seq<Input>, catalog: Catalog, c: RateConflict)
    requires AllResolve(items, catalog)
    ensures c in Conflicts(items, catalog) <==> exists k :: 0 <= k < |items| && Shows(items[k], c, catalog)
    ensures |Conflicts(items, catalog)| <= |items|
  {
    if items != [] {
      var init, last := items[..|items| - 1], items[|items| - 1];
      ConflictsAreChangedRates(init, catalog, c);
      assert forall k :: 0 <= k < |init| ==> init[k] == items[k];
      assert Shows(last, c, catalog) <==>
          Conflicting(last, catalog) && c == RateConflict(last.item, last.expectedRate.value, catalog[last.item]);
    }
  }

  /** The numbering loop: a line's index in the request becomes its position. */
  method NumberLines(items: seq<Input>, catalog: Catalog) returns (rows: seq<Line>)
    requires AllResolve(items, catalog)
    ensures |rows| == |items|
    ensures forall k :: 0 <= k < |items| ==> IsRowOf(rows[k], items[k], k, catalog)
  {
    rows := [];
    for position := 0 to |items|
      invariant |rows| == position
      invariant forall k :: 0 <= k < position ==> IsRowOf(rows[k], items[k], k, catalog)
    {
      var line := items[position];
      var rate := if line.Catalogued? then catalog[line.item] else line.rate;
      var total := HalfUp(Price(line, rate));
      HalfUpExact(Price(line, rate), total);
      rows := rows + [Line(position, line, rate, total)];
    }
  }

  /**
   The replace handler up to its first write. The FIRST unresolvable line refuses the
   request, even if rates had changed before it; changed rates are collected.
   */
  method Resolve(items: seq<Input>, catalog: Catalog) returns (out: Result<seq<Line>, Refusal>)
    ensures out.Ok? <==> AllResolve(items, catalog) && Conflicts(items, catalog) == []
    ensures out.Ok? ==>
      && |out.value| == |items|
      && forall k :: 0 <= k < |items| ==> IsRowOf(out.value[k], items[k], k, catalog)
    ensures out.Err? && out.error.RatesChanged? ==>
      AllResolve(items, catalog) && out.error.conflicts == Conflicts(items, catalog)
    ensures out.Err? && out.error.Unresolved? <==>
              exists k :: 0 <= k < |items| && items[k].Catalogued? && items[k].item !in catalog
    ensures out.Err? && out.error.Unresolved? ==>
      exists k :: 0 <= k < |items| && AllResolve(items[..k], catalog) &&
                  items[k].Catalogued? && items[k].item == out.error.item && !Resolves(items[k], catalog)
  {
    var conflicts := [];
    for i := 0 to |items|
      invariant AllResolve(items[..i], catalog)
      invariant conflicts == Conflicts(items[..i], catalog)
    {
      var line := items[i];
      assert items[..i + 1][..i] == items[..i];
      if line.Catalogued? {
        if line.item !in catalog {
          return Err(Unresolved(line.item));
        }
        if line.expectedRate.Some? && line.expectedRate.value != catalog[line.item] {
          conflicts := conflicts + [RateConflict(line.item, line.expectedRate.value, catalog[line.item])];
        }
      }
    }
    assert items[..|items|] == items;
    if conflicts != [] {
      return Err(RatesChanged(conflicts));
    }
    var rows := NumberLines(items, catalog);
    return Ok(rows);
  }
}
