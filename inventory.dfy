/**
 * The Inventory page: the per-location summary behind the bar chart and the three
 * headline figures (rows, units in stock, distinct locations).
 */
module Inventory {
  import opened Wrappers
  import opened Seqs

  /** One inventory row as the page receives it. */
  datatype InventoryItem = InventoryItem(id: int, name: string, sku: string, inStock: int, location: string)

  /** One bar of the chart: how many rows and how many units a location holds. */
  datatype LocationSummary = LocationSummary(location: string, count: int, totalItems: int)

  /** What is being added up: rows (`count`) or units (`totalItems`). */
  datatype Measure = Rows | Units

  function Weight(x: InventoryItem, m: Measure): int {
    match m
    case Rows => 1
    case Units => x.inStock
  }

  /** The measure summed over all rows, first to last. */
  function Total(data: seq<InventoryItem>, m: Measure): int {
    if data == [] then 0 else Total(data[..|data| - 1], m) + Weight(data[|data| - 1], m)
  }

  /** Counting rows gives the number of rows. */
  lemma {:induction false} TotalRowsIsLength(data: seq<InventoryItem>)
    ensures Total(data, Rows) == |data|
  {
    if data != [] {
      TotalRowsIsLength(data[..|data| - 1]);
    }
  }

  /** The measure summed over the rows at `loc`, first to last. */
  function Tally(data: seq<InventoryItem>, loc: string, m: Measure): int {
    if data == [] then 0
    else Tally(data[..|data| - 1], loc, m) + (if data[|data| - 1].location == loc then Weight(data[|data| - 1], m) else 0)
  }

  /** The column of locations, one per row. */
  function LocationColumn(data: seq<InventoryItem>): (r: seq<string>)
    ensures |r| == |data| && forall i :: 0 <= i < |data| ==> r[i] == data[i].location
  {
    seq(|data|, i requires 0 <= i < |data| => data[i].location)
  }

  /** A location's row count is the number of times it occurs in the location column. */
  lemma {:induction false} CountIsMultiplicity(data: seq<InventoryItem>, loc: string)
    ensures Tally(data, loc, Rows) == multiset(LocationColumn(data))[loc]
  {
    if data != [] {
      var init := data[..|data| - 1];
      CountIsMultiplicity(init, loc);
      assert LocationColumn(data) == LocationColumn(init) + [data[|data| - 1].location];
    }
  }

  /** The distinct locations, in order of first appearance. */
  function Locations(data: seq<InventoryItem>): seq<string> {
    if data == [] then []
    else
      var prev := Locations(data[..|data| - 1]);
      var loc := data[|data| - 1].location;
      if loc in prev then prev else prev + [loc]
  }

  /** Each location is listed once, every row's location is listed, and only rows' locations are. */
  lemma {:induction false} LocationsSpec(data: seq<InventoryItem>)
    ensures Distinct(Locations(data))
    ensures forall i :: 0 <= i < |data| ==> data[i].location in Locations(data)
    ensures forall l :: l in Locations(data) ==> exists i :: 0 <= i < |data| && data[i].location == l
  {
    if data != [] {
      var init := data[..|data| - 1];
      LocationsSpec(init);
      assert forall i :: 0 <= i < |init| ==> init[i] == data[i];
    }
  }

  /** A location that occurs in no row tallies to zero. */
  lemma {:induction false} TallyAbsent(data: seq<InventoryItem>, loc: string, m: Measure)
    requires loc !in Locations(data)
    ensures Tally(data, loc, m) == 0
  {
    if data != [] {
      var init := data[..|data| - 1];
      assert forall i :: 0 <= i < |init| ==> init[i] == data[i];
      TallyAbsent(init, loc, m);
    }
  }

  /** One entry per location of `locs`, in that order. */
  function EntriesFor(data: seq<InventoryItem>, locs: seq<string>): (r: seq<LocationSummary>)
    ensures |r| == |locs|
    ensures forall i :: 0 <= i < |locs| ==>
      r[i] == LocationSummary(locs[i], Tally(data, locs[i], Rows), Tally(data, locs[i], Units))
  {
    if locs == [] then []
    else [LocationSummary(locs[0], Tally(data, locs[0], Rows), Tally(data, locs[0], Units))] + EntriesFor(data, locs[1..])
  }

  /** The summary the chart shows: one entry per distinct location, in order of first appearance. */
  function SummaryOf(data: seq<InventoryItem>): (r: seq<LocationSummary>)
    ensures |r| == |Locations(data)|
  {
    EntriesFor(data, Locations(data))
  }

  /** Some row holds `first` before any row holds `second`. */
  ghost predicate FirstAppearsBefore(data: seq<InventoryItem>, first: string, second: string) {
    exists a :: 0 <= a < |data| && data[a].location == first &&
      (forall b :: 0 <= b <= a ==> data[b].location != second)
  }

  /**
   * The locations are listed in order of first appearance: for two listed locations, the
   * earlier one occurs in some row before any row holds the later one.
   */
  lemma {:induction false} LocationsFirstAppearance(data: seq<InventoryItem>)
    ensures var locs := Locations(data);
      forall i, j :: 0 <= i < j < |locs| ==> FirstAppearsBefore(data, locs[i], locs[j])
  {
    if data != [] {
      var init, x := data[..|data| - 1], data[|data| - 1];
      assert data == init + [x];
      LocationsFirstAppearance(init);
      LocationsSnoc(init, x);
      var prev, locs := Locations(init), Locations(data);
      forall i, j | 0 <= i < j < |locs| ensures FirstAppearsBefore(data, locs[i], locs[j]) {
        if j < |prev| {
          FirstAppearsBeforeSnoc(init, x, prev[i], prev[j]);
        } else {
          FirstAppearsBeforeNew(init, x, prev[i]);
        }
      }
    }
  }

  /** A later row does not undo an earlier first appearance. */
  lemma FirstAppearsBeforeSnoc(init: seq<InventoryItem>, x: InventoryItem, first: string, second: string)
    requires FirstAppearsBefore(init, first, second)
    ensures FirstAppearsBefore(init + [x], first, second)
  {
    var a :| 0 <= a < |init| && init[a].location == first &&
      (forall b :: 0 <= b <= a ==> init[b].location != second);
    var data := init + [x];
    assert data[a] == init[a];
    assert forall b :: 0 <= b <= a ==> data[b] == init[b];
  }

  /** A location seen for the first time in the last row appears after every location listed before it. */
  lemma FirstAppearsBeforeNew(init: seq<InventoryItem>, x: InventoryItem, first: string)
    requires first in Locations(init) && x.location !in Locations(init)
    ensures FirstAppearsBefore(init + [x], first, x.location)
  {
    LocationsSpec(init);
    var a :| 0 <= a < |init| && init[a].location == first;
    var data := init + [x];
    assert data[a] == init[a];
    forall b | 0 <= b <= a ensures data[b].location != x.location {
      assert data[b] == init[b];
    }
  }

  /** Appending a row adds its weight to its own location's tally and to no other. */
  lemma TallySnoc(data: seq<InventoryItem>, x: InventoryItem, loc: string, m: Measure)
    ensures Tally(data + [x], loc, m) == Tally(data, loc, m) + (if x.location == loc then Weight(x, m) else 0)
  {
    assert (data + [x])[..|data|] == data;
  }

  /** Appending a row adds its location at the end, unless it was already listed. */
  lemma LocationsSnoc(data: seq<InventoryItem>, x: InventoryItem)
    ensures Locations(data + [x]) == if x.location in Locations(data) then Locations(data) else Locations(data) + [x.location]
  {
    assert (data + [x])[..|data|] == data;
  }

  /** The accumulator of the fold after the rows `done`: its keys in insertion order, and each entry's tallies. */
  ghost predicate Folded(acc: map<string, LocationSummary>, keys: seq<string>, done: seq<InventoryItem>) {
    && keys == Locations(done)
    && (forall k :: k in acc <==> k in keys)
    && (forall k :: k in acc ==> acc[k] == LocationSummary(k, Tally(done, k, Rows), Tally(done, k, Units)))
  }

  /** One step of the fold: opening the row's entry if it is new, then counting the row in it. */
  lemma FoldedStep(acc: map<string, LocationSummary>, keys: seq<string>, data: seq<InventoryItem>, i: nat,
                   acc': map<string, LocationSummary>, keys': seq<string>)
    requires i < |data|
    requires Folded(acc, keys, data[..i])
    requires keys' == if data[i].location in acc then keys else keys + [data[i].location]
    requires var item := data[i];
      var entry := if item.location in acc then acc[item.location] else LocationSummary(item.location, 0, 0);
      acc' == acc[item.location := entry.(count := entry.count + 1, totalItems := entry.totalItems + item.inStock)]
    ensures Folded(acc', keys', data[..i + 1])
  {
    var done, item := data[..i], data[i];
    assert data[..i + 1] == done + [item];
    LocationsSnoc(done, item);
    FoldedEntries(acc, done, item, acc');
  }

  /** The entries after one step of the fold hold the tallies over one more row. */
  lemma FoldedEntries(acc: map<string, LocationSummary>, done: seq<InventoryItem>, item: InventoryItem,
                      acc': map<string, LocationSummary>)
    requires forall k :: k in acc ==> k in Locations(done)
    requires forall k :: k in acc ==> acc[k] == LocationSummary(k, Tally(done, k, Rows), Tally(done, k, Units))
    requires item.location !in acc ==> item.location !in Locations(done)
    requires var entry := if item.location in acc then acc[item.location] else LocationSummary(item.location, 0, 0);
      acc' == acc[item.location := entry.(count := entry.count + 1, totalItems := entry.totalItems + item.inStock)]
    ensures forall k :: k in acc' ==> acc'[k] == LocationSummary(k, Tally(done + [item], k, Rows), Tally(done + [item], k, Units))
  {
    if item.location !in acc {
      TallyAbsent(done, item.location, Rows);
      TallyAbsent(done, item.location, Units);
    }
    forall k | k in acc'
      ensures acc'[k] == LocationSummary(k, Tally(done + [item], k, Rows), Tally(done + [item], k, Units))
    {
      TallySnoc(done, item, k, Rows);
      TallySnoc(done, item, k, Units);
    }
  }

  /** The `reduce` of `getInventorySummaryByLocation`: fold the rows into a map keyed by location. */
  method FoldByLocation(data: seq<InventoryItem>) returns (acc: map<string, LocationSummary>, keys: seq<string>)
    ensures Folded(acc, keys, data)
  {
    acc := map[];
    keys := [];  // the map's keys in insertion order, as `Object.values` lists them
    var i := 0;
    while i < |data|
      invariant 0 <= i <= |data|
      invariant Folded(acc, keys, data[..i])
    {
      var item := data[i];
      // a location seen for the first time gets a zero entry and a place at the end of the keys
      var entry := if item.location in acc then acc[item.location] else LocationSummary(item.location, 0, 0);
      var keys' := if item.location in acc then keys else keys + [item.location];
      var acc' := acc[item.location := entry.(count := entry.count + 1, totalItems := entry.totalItems + item.inStock)];
      FoldedStep(acc, keys, data, i, acc', keys');
      acc, keys := acc', keys';
      i := i + 1;
    }
    assert data[..i] == data;
  }

  /** `getInventorySummaryByLocation`: the fold, then `Object.values` of the map in key insertion order. */
  method SummarizeByLocation(data: seq<InventoryItem>) returns (summary: seq<LocationSummary>)
    ensures summary == SummaryOf(data)
  {
    var acc, keys := FoldByLocation(data);
    ghost var entries := EntriesFor(data, keys);
    summary := [];
    var j := 0;
    while j < |keys|
      invariant 0 <= j <= |keys|
      invariant summary == entries[..j]
    {
      FoldedEntry(acc, keys, data, j);
      PrefixSnoc(entries, j);
      summary := summary + [acc[keys[j]]];
      j := j + 1;
    }
    assert entries[..j] == entries;
  }

  /** After the fold, the map's entry for the `j`-th key is the `j`-th entry of the summary. */
  lemma FoldedEntry(acc: map<string, LocationSummary>, keys: seq<string>, data: seq<InventoryItem>, j: nat)
    requires Folded(acc, keys, data)
    requires j < |keys|
    ensures keys[j] in acc && acc[keys[j]] == EntriesFor(data, keys)[j]
  {
  }

  /** The measure summed over the tallies of the locations in `locs`. */
  function SumTally(data: seq<InventoryItem>, locs: seq<string>, m: Measure): int {
    if locs == [] then 0 else Tally(data, locs[0], m) + SumTally(data, locs[1..], m)
  }

  /** The measure summed over summary entries. */
  function SummaryTotal(entries: seq<LocationSummary>, m: Measure): int {
    if entries == [] then 0
    else (match m case Rows => entries[0].count case Units => entries[0].totalItems) + SummaryTotal(entries[1..], m)
  }

  lemma {:induction false} SummaryTotalOfEntries(data: seq<InventoryItem>, locs: seq<string>, m: Measure)
    ensures SummaryTotal(EntriesFor(data, locs), m) == SumTally(data, locs, m)
  {
    if locs != [] {
      SummaryTotalOfEntries(data, locs[1..], m);
      assert EntriesFor(data, locs)[1..] == EntriesFor(data, locs[1..]);
    }
  }

  /** Appending a row adds its weight to exactly one location of a repeat-free list, if present. */
  lemma {:induction false} SumTallySnoc(data: seq<InventoryItem>, x: InventoryItem, locs: seq<string>, m: Measure)
    requires Distinct(locs)
    ensures SumTally(data + [x], locs, m) == SumTally(data, locs, m) + (if x.location in locs then Weight(x, m) else 0)
  {
    if locs != [] {
      assert Distinct(locs[1..]);
      SumTallySnoc(data, x, locs[1..], m);
      assert (data + [x])[..|data + [x]| - 1] == data;
      assert x.location in locs <==> x.location == locs[0] || x.location in locs[1..];
      assert x.location == locs[0] ==> x.location !in locs[1..];
    }
  }

  /** Tallies over a repeat-free list covering every row's location add up to the grand total. */
  lemma {:induction false} SumTallyPartition(data: seq<InventoryItem>, locs: seq<string>, m: Measure)
    requires Distinct(locs)
    requires forall i :: 0 <= i < |data| ==> data[i].location in locs
    ensures SumTally(data, locs, m) == Total(data, m)
  {
    if data == [] {
      SumTallyEmpty(locs, m);
    } else {
      var init, last := data[..|data| - 1], data[|data| - 1];
      SumTallyPartition(init, locs, m);
      SumTallySnoc(init, last, locs, m);
      assert init + [last] == data;
    }
  }

  lemma {:induction false} SumTallyEmpty(locs: seq<string>, m: Measure)
    ensures SumTally([], locs, m) == 0
  {
    if locs != [] {
      SumTallyEmpty(locs[1..], m);
    }
  }

  /** The entries' counts add up to the number of rows, and their unit totals to the units in stock. */
  lemma SummaryTotalsMatch(data: seq<InventoryItem>)
    ensures SummaryTotal(SummaryOf(data), Rows) == |data|
    ensures SummaryTotal(SummaryOf(data), Units) == Total(data, Units)
  {
    SummaryTotalOfEntries(data, Locations(data), Rows);
    SummaryTotalOfEntries(data, Locations(data), Units);
    LocationsSpec(data);
    SumTallyPartition(data, Locations(data), Rows);
    SumTallyPartition(data, Locations(data), Units);
    TotalRowsIsLength(data);
  }

  /** The set of locations, `new Set(data.map(item => item.location))`. */
  function LocationSet(data: seq<InventoryItem>): set<string> {
    set i | 0 <= i < |data| :: data[i].location
  }

  /** A repeat-free sequence has as many elements as its set. */
  lemma {:induction false} DistinctCardinality(s: seq<string>)
    requires Distinct(s)
    ensures |set x | x in s| == |s|
  {
    if s != [] {
      DistinctCardinality(s[1..]);
      assert (set x | x in s) == {s[0]} + (set x | x in s[1..]);
      assert s[0] !in s[1..];
    }
  }

  /** There is one summary entry per distinct location. */
  lemma SummaryLengthIsLocationCount(data: seq<InventoryItem>)
    ensures |SummaryOf(data)| == |LocationSet(data)|
  {
    var locs := Locations(data);
    LocationsSpec(data);
    assert (set x | x in locs) == LocationSet(data);
    DistinctCardinality(locs);
  }

  /** The figures the page shows; `None` is data not (yet) loaded. */

  /** "Total Products": `inventoryData?.length || 0`. */
  function TotalProducts(data: Option<seq<InventoryItem>>): (n: int)
    ensures data.None? ==> n == 0
    ensures data.Some? ==> n == |data.value|
  {
    match data
    case None => 0
    case Some(d) => |d|
  }

  /** "In Stock": the units summed over all rows, or 0. */
  function InStockTotal(data: Option<seq<InventoryItem>>): (n: int)
    ensures data.None? ==> n == 0
    ensures data.Some? ==> n == Total(data.value, Units)
  {
    match data
    case None => 0
    case Some(d) => Total(d, Units)
  }

  /** "Locations": the number of distinct locations, or 0. */
  function LocationCount(data: Option<seq<InventoryItem>>): (n: int)
    ensures data.None? ==> n == 0
    ensures data.Some? ==> n == |LocationSet(data.value)|
  {
    match data
    case None => 0
    case Some(d) => |LocationSet(d)|
  }

  /** The chart data: the summary once rows are loaded, otherwise nothing. */
  method PageSummary(data: Option<seq<InventoryItem>>) returns (summary: seq<LocationSummary>)
    ensures data.None? ==> summary == []
    ensures data.Some? ==> summary == SummaryOf(data.value)
  {
    match data
    case None => summary := [];
    case Some(d) => summary := SummarizeByLocation(d);
  }

  /** The chart agrees with the three headline figures, loaded or not. */
  lemma PageFiguresAgree(data: Option<seq<InventoryItem>>)
    ensures var s := if data.Some? then SummaryOf(data.value) else [];
      && |s| == LocationCount(data)
      && SummaryTotal(s, Rows) == TotalProducts(data)
      && SummaryTotal(s, Units) == InStockTotal(data)
  {
    if data.Some? {
      SummaryTotalsMatch(data.value);
      SummaryLengthIsLocationCount(data.value);
    }
  }

  /** No rows, no entries. */
  lemma SummaryOfEmpty()
    ensures SummaryOf([]) == []
  {
  }

  /**
   * The names every plain JavaScript object inherits from `Object.prototype`. The source's
   * accumulator starts as `{}`, so looking one of them up finds the inherited member, which is
   * truthy, instead of `undefined`.
   */
  const InheritedNames: set<string> := {
    "constructor", "hasOwnProperty", "isPrototypeOf", "propertyIsEnumerable", "toLocaleString",
    "toString", "valueOf", "__proto__", "__defineGetter__", "__defineSetter__",
    "__lookupGetter__", "__lookupSetter__"
  }

  /**
   * The accumulator exactly as the source's `reduce` leaves it: a row whose location is an
   * inherited name passes the `!acc[item.location]` test as "present", so no own entry is
   * created and its count and units are added onto the inherited member, outside the map.
   */
  function AsWrittenFold(data: seq<InventoryItem>): (r: (map<string, LocationSummary>, seq<string>))
    ensures forall k :: k in r.0 <==> k in r.1
    ensures forall k :: k in r.1 ==> k !in InheritedNames
    ensures forall k :: k in r.0 ==> r.0[k].location == k
  {
    if data == [] then (map[], [])
    else
      var (acc, keys) := AsWrittenFold(data[..|data| - 1]);
      var item := data[|data| - 1];
      if item.location in acc then
        var e := acc[item.location];
        (acc[item.location := e.(count := e.count + 1, totalItems := e.totalItems + item.inStock)], keys)
      else if item.location in InheritedNames then
        (acc, keys)
      else
        (acc[item.location := LocationSummary(item.location, 1, item.inStock)], keys + [item.location])
  }

  /** `Object.values` of the as-written accumulator: only its own keys, in insertion order. */
  function AsWrittenSummaryOf(data: seq<InventoryItem>): (r: seq<LocationSummary>)
    ensures forall e :: e in r ==> e.location !in InheritedNames
  {
    var (acc, keys) := AsWrittenFold(data);
    seq(|keys|, i requires 0 <= i < |keys| => acc[keys[i]])
  }

  /**
   * A single row stored at a location called "constructor": the page shows one location and
   * five units in stock, but the chart as written has no bar at all. The corrected summary has
   * the bar.
   */
  lemma AsWrittenDropsInheritedLocation()
    ensures var data := [InventoryItem(1, "T-Shirt Basic", "TS-001", 5, "constructor")];
      && AsWrittenSummaryOf(data) == []
      && LocationCount(Some(data)) == 1
      && InStockTotal(Some(data)) == 5
      && SummaryOf(data) == [LocationSummary("constructor", 1, 5)]
  {
    var data := [InventoryItem(1, "T-Shirt Basic", "TS-001", 5, "constructor")];
    assert data[..0] == [];
    assert data[0].location in LocationSet(data);
    assert LocationSet(data) == {"constructor"};
    assert Locations(data) == ["constructor"];
  }
}
