/** The histogram over the requested buckets, its debugger labels, and the heatmap projected from it. */
module AddressHeatmap {
  import opened Outcomes
  import opened Prefixes
  import opened Sums
  import opened SamplingBuckets
  import opened Texts

  const REFINEMENT_BYTES := 4
  const MAX_LOCATIONS := 10
  const MAX_TEXT_BYTES := 256

  datatype Bucket = Bucket(start: int, end: int, hits: int)

  /** A debugger-reported label for one bucket. */
  datatype Location = Location(
    start: int, end: int, hits: int,
    dominantStart: int, dominantEnd: int, dominantHits: int,
    functionName: Option<string>, sourceFile: Option<string>, sourceLine: Option<int>)

  /** `trusted` says that source, trust and firmware status have their one accepted value. */
  datatype Symbolization = Symbolization(trusted: bool, refinement: int, locations: seq<Location>)

  datatype Histogram = Histogram(buckets: seq<Bucket>, inScopeHits: int, symbols: Option<Symbolization>)

  function Hits(b: Bucket): int { b.hits }

  // ---------------------------------------------------------------- the histogram

  predicate BucketFits(b: Bucket, expected: Range) {
    b.start == expected.start && b.end == expected.end && 0 <= b.hits
  }

  ghost predicate ValidHistogram(h: Histogram, expected: seq<Range>) {
    && |h.buckets| == |expected|
    && (forall i :: 0 <= i < |expected| ==> BucketFits(h.buckets[i], expected[i]))
    && h.inScopeHits == Sum(h.buckets, Hits)
  }

  method CheckHistogram(h: Histogram, expected: seq<Range>) returns (accepted: bool)
    ensures accepted <==> ValidHistogram(h, expected)
  {
    if |h.buckets| != |expected| { return false; }
    var total := 0;
    for i := 0 to |expected|
      invariant forall k :: 0 <= k < i ==> BucketFits(h.buckets[k], expected[k])
      invariant total == Sum(h.buckets[..i], Hits)
    {
      assert h.buckets[..i + 1][..i] == h.buckets[..i];
      if !BucketFits(h.buckets[i], expected[i]) { return false; }
      total := total + h.buckets[i].hits;
    }
    assert h.buckets[..|expected|] == h.buckets;
    return h.inScopeHits == total;
  }

  // ---------------------------------------------------------------- debugger labels

  predicate SafeText(s: string) {
    && Bounded(s, MAX_TEXT_BYTES)
    && forall i :: 0 <= i < |s| ==> 32 <= s[i] as int && !(127 <= s[i] as int <= 159)
  }

  predicate SafeName(s: string) {
    SafeText(s) && '/' !in s && '\\' !in s
  }

  predicate Labelled(l: Location) {
    && (l.functionName.Some? ==> SafeName(l.functionName.value))
    && (l.sourceFile.Some? <==> l.sourceLine.Some?)
    && (l.sourceFile.Some? ==> SafeName(l.sourceFile.value) && 0 < l.sourceLine.value)
    && (l.functionName.Some? || l.sourceFile.Some?)
  }

  /** The dictionary of buckets by range: a later bucket replaces an earlier one. */
  function BucketAt(buckets: seq<Bucket>, start: int, end: int): Option<Bucket> {
    if buckets == [] then None
    else
      var last := buckets[|buckets| - 1];
      if last.start == start && last.end == end then Some(last) else BucketAt(buckets[..|buckets| - 1], start, end)
  }

  predicate LocationFits(l: Location, buckets: seq<Bucket>) {
    var bucket := BucketAt(buckets, l.start, l.end);
    && bucket.Some?
    && l.hits == bucket.value.hits && 0 < l.hits
    && l.start <= l.dominantStart < l.dominantEnd <= l.end
    && l.dominantEnd - l.dominantStart <= REFINEMENT_BYTES
    && 0 < l.dominantHits <= l.hits
  }

  /** More hits first, then by address. */
  predicate InOrder(a: Location, b: Location) {
    || a.hits > b.hits
    || (a.hits == b.hits && (a.start < b.start || (a.start == b.start && a.end <= b.end)))
  }

  ghost predicate AcceptableLocations(locations: seq<Location>, buckets: seq<Bucket>) {
    && (forall i :: 0 <= i < |locations| ==> LocationFits(locations[i], buckets) && Labelled(locations[i]))
    && (forall i, j :: 0 <= i < j < |locations| ==> BucketOf(locations[i]) != BucketOf(locations[j]))
    && forall i :: 0 < i < |locations| ==> InOrder(locations[i - 1], locations[i])
  }

  function LocationsOf(h: Histogram): seq<Location> {
    if h.symbols.Some? then h.symbols.value.locations else []
  }

  ghost predicate AcceptableSymbols(h: Histogram) {
    h.symbols.Some? ==>
      && AcceptableLocations(LocationsOf(h), h.buckets)
      && h.symbols.value.trusted && h.symbols.value.refinement == REFINEMENT_BYTES
      && |h.symbols.value.locations| <= MAX_LOCATIONS
  }

  method DebuggerLocations(h: Histogram) returns (r: Option<seq<Location>>)
    ensures r.Some? <==> AcceptableSymbols(h)
    ensures r.Some? ==> r.value == LocationsOf(h)
  {
    if h.symbols.None? { return Some([]); }
    var symbols := h.symbols.value;
    if !symbols.trusted || symbols.refinement != REFINEMENT_BYTES || MAX_LOCATIONS < |symbols.locations| { return None; }
    var locations: seq<Location> := [];
    var seen: set<Range> := {};
    var previous: Option<Location> := None;
    for i := 0 to |symbols.locations|
      invariant locations == symbols.locations[..i]
      invariant forall r :: r in seen <==> Names(locations, r)
      invariant previous == if i == 0 then None else Some(locations[i - 1])
      invariant AcceptableLocations(locations, h.buckets)
    {
      var l := symbols.locations[i];
      assert symbols.locations[..i + 1] == locations + [l];
      LocationsAppend(locations, l, h.buckets);
      NamesAppend(locations, l);
      if !LocationFits(l, h.buckets) || BucketOf(l) in seen { return None; }
      if !Labelled(l) { return None; }
      if previous.Some? && !InOrder(previous.value, l) { return None; }
      previous := Some(l);
      seen := seen + {BucketOf(l)};
      locations := locations + [l];
    }
    assert locations == symbols.locations == LocationsOf(h);
    return Some(locations);
  }

  function BucketOf(l: Location): Range {
    Range(l.start, l.end)
  }

  predicate Names(locations: seq<Location>, r: Range) {
    exists i :: 0 <= i < |locations| && BucketOf(locations[i]) == r
  }

  lemma {:induction false} NamesAppend(locations: seq<Location>, l: Location)
    ensures forall r :: Names(locations + [l], r) <==> Names(locations, r) || BucketOf(l) == r
  {
    var all := locations + [l];
    assert all[|locations|] == l;
    assert forall i :: 0 <= i < |locations| ==> all[i] == locations[i];
  }

  lemma {:induction false} LocationsAppend(locations: seq<Location>, l: Location, buckets: seq<Bucket>)
    ensures AcceptableLocations(locations + [l], buckets) <==>
              && AcceptableLocations(locations, buckets)
              && LocationFits(l, buckets) && Labelled(l)
              && !Names(locations, BucketOf(l))
              && (locations != [] ==> InOrder(locations[|locations| - 1], l))
  {
    var all := locations + [l];
    assert all[|locations|] == l;
    assert forall i :: 0 <= i < |locations| ==> all[i] == locations[i];
    if AcceptableLocations(all, buckets) {
      assert all[..|locations|] == locations;
      assert forall i :: 0 <= i < |locations| ==> BucketOf(all[i]) != BucketOf(all[|locations|]);
      assert locations != [] ==> InOrder(all[|locations| - 1], all[|locations|]);
    }
  }

  // ---------------------------------------------------------------- label accounting

  function LocationHits(l: Location): int { l.hits }

  /** Hits of the buckets whose positions are not in `used`. */
  ghost function HitsOutside(buckets: seq<Bucket>, used: set<nat>): int {
    if buckets == [] then 0
    else
      HitsOutside(buckets[..|buckets| - 1], used)
      + if |buckets| - 1 in used then 0 else buckets[|buckets| - 1].hits
  }

  lemma {:induction false} HitsOutsideNone(buckets: seq<Bucket>)
    ensures HitsOutside(buckets, {}) == Sum(buckets, Hits)
  {
    if buckets != [] {
      HitsOutsideNone(buckets[..|buckets| - 1]);
    }
  }

  lemma {:induction false} HitsOutsideOneMore(buckets: seq<Bucket>, used: set<nat>, k: nat)
    requires k !in used
    ensures HitsOutside(buckets, used + {k}) == HitsOutside(buckets, used) - if k < |buckets| then buckets[k].hits else 0
  {
    if buckets != [] {
      HitsOutsideOneMore(buckets[..|buckets| - 1], used, k);
    }
  }

  lemma {:induction false} HitsOutsideNonNegative(buckets: seq<Bucket>, used: set<nat>)
    requires forall i :: 0 <= i < |buckets| ==> 0 <= buckets[i].hits
    ensures 0 <= HitsOutside(buckets, used)
  {
    if buckets != [] {
      HitsOutsideNonNegative(buckets[..|buckets| - 1], used);
    }
  }

  lemma {:induction false} FindBucket(buckets: seq<Bucket>, start: int, end: int) returns (k: nat)
    requires BucketAt(buckets, start, end).Some?
    ensures k < |buckets| && buckets[k] == BucketAt(buckets, start, end).value
    ensures buckets[k].start == start && buckets[k].end == end
  {
    var last := buckets[|buckets| - 1];
    if last.start == start && last.end == end {
      k := |buckets| - 1;
    } else {
      k := FindBucket(buckets[..|buckets| - 1], start, end);
    }
  }

  /** The positions of labelled buckets. */
  ghost predicate Labels(locations: seq<Location>, buckets: seq<Bucket>, used: set<nat>) {
    forall k :: k in used ==> k < |buckets| && Names(locations, Range(buckets[k].start, buckets[k].end))
  }

  lemma {:induction false} BucketIsUnused(locations: seq<Location>, l: Location, buckets: seq<Bucket>, used: set<nat>, k: nat)
    requires Labels(locations, buckets, used) && !Names(locations, BucketOf(l))
    requires k < |buckets| && buckets[k].start == l.start && buckets[k].end == l.end
    ensures k !in used
  {
    assert BucketOf(l) == Range(buckets[k].start, buckets[k].end);
  }

  lemma {:induction false} LabelNext(locations: seq<Location>, l: Location, buckets: seq<Bucket>, used: set<nat>, k: nat)
    requires Labels(locations, buckets, used) && k < |buckets| && buckets[k].start == l.start && buckets[k].end == l.end
    ensures Labels(locations + [l], buckets, used + {k})
  {
    NamesAppend(locations, l);
    assert BucketOf(l) == Range(buckets[k].start, buckets[k].end);
  }

  lemma {:induction false} LabelledSumNext(locations: seq<Location>, l: Location)
    ensures Sum(locations + [l], LocationHits) == Sum(locations, LocationHits) + l.hits
  {
    assert (locations + [l])[..|locations|] == locations;
  }

  lemma {:induction false} LabelsUseOneMore(locations: seq<Location>, l: Location, buckets: seq<Bucket>, before: set<nat>)
    returns (used: set<nat>)
    requires AcceptableLocations(locations + [l], buckets) && Labels(locations, buckets, before)
    requires Sum(locations, LocationHits) + HitsOutside(buckets, before) == Sum(buckets, Hits)
    ensures Labels(locations + [l], buckets, used)
    ensures Sum(locations + [l], LocationHits) + HitsOutside(buckets, used) == Sum(buckets, Hits)
  {
    LocationsAppend(locations, l, buckets);
    var k := FindBucket(buckets, l.start, l.end);
    BucketIsUnused(locations, l, buckets, before, k);
    LabelNext(locations, l, buckets, before, k);
    LabelledSumNext(locations, l);
    HitsOutsideOneMore(buckets, before, k);
    used := before + {k};
  }

  lemma {:induction false} AcceptablePrefix(locations: seq<Location>, l: Location, buckets: seq<Bucket>)
    requires AcceptableLocations(locations + [l], buckets)
    ensures AcceptableLocations(locations, buckets)
  {
    LocationsAppend(locations, l, buckets);
  }

  /** Labels name distinct buckets, so their hits together are part of the in-scope hits. */
  lemma {:induction false} LabelsUseDistinctBuckets(locations: seq<Location>, buckets: seq<Bucket>) returns (used: set<nat>)
    requires AcceptableLocations(locations, buckets)
    ensures Sum(locations, LocationHits) + HitsOutside(buckets, used) == Sum(buckets, Hits)
    ensures forall k :: k in used ==> k < |buckets| && Names(locations, Range(buckets[k].start, buckets[k].end))
  {
    if locations == [] {
      used := {};
      HitsOutsideNone(buckets);
    } else {
      var init, last := locations[..|locations| - 1], locations[|locations| - 1];
      assert locations == init + [last];
      AcceptablePrefix(init, last, buckets);
      var before := LabelsUseDistinctBuckets(init, buckets);
      used := LabelsUseOneMore(init, last, buckets, before);
    }
  }

  lemma {:induction false} LabelledHitsAreInScope(h: Histogram, expected: seq<Range>)
    requires ValidHistogram(h, expected) && AcceptableSymbols(h)
    ensures Sum(LocationsOf(h), LocationHits) <= h.inScopeHits
  {
    var used := LabelsUseDistinctBuckets(LocationsOf(h), h.buckets);
    assert forall i :: 0 <= i < |expected| ==> BucketFits(h.buckets[i], expected[i]);
    HitsOutsideNonNegative(h.buckets, used);
  }

  // ---------------------------------------------------------------- the heatmap

  /** `location` is None when the field is absent and Some(None) when it is null. */
  datatype Cell = Cell(start: int, end: int, name: string, hits: int, location: Option<Option<Location>>)

  /** `provenance` says that schema, digests, policy and the other constant fields are as required. */
  datatype Heatmap = Heatmap(provenance: bool, denominator: int, attributed: int, unattributed: int, cells: seq<Cell>)

  function CellHits(c: Cell): int { c.hits }

  const HEX_DIGITS: string := "0123456789abcdef"

  function HexDigits(n: nat): string {
    if n < 16 then [HEX_DIGITS[n]] else HexDigits(n / 16) + [HEX_DIGITS[n % 16]]
  }

  function Hex(n: int): string {
    if 0 <= n then "0x" + HexDigits(n) else "-0x" + HexDigits(-n)
  }

  function RangeName(start: int, end: int): string {
    Hex(start) + ".." + Hex(end)
  }

  function LocationAt(locations: seq<Location>, start: int, end: int): Option<Location> {
    if locations == [] then None
    else
      var last := locations[|locations| - 1];
      if last.start == start && last.end == end then Some(last) else LocationAt(locations[..|locations| - 1], start, end)
  }

  predicate CellFits(c: Cell, b: Bucket, locations: seq<Location>) {
    && c.start == b.start && c.end == b.end && c.hits == b.hits
    && c.name == RangeName(b.start, b.end)
    && c.location == match LocationAt(locations, b.start, b.end) { case None => None case Some(l) => Some(Some(l)) }
  }

  /** Every cell restates its bucket and carries that bucket's label, if any. */
  predicate CellsFit(cells: seq<Cell>, buckets: seq<Bucket>, locations: seq<Location>) {
    && |cells| == |buckets|
    && (cells != [] ==>
          && CellsFit(cells[..|cells| - 1], buckets[..|buckets| - 1], locations)
          && CellFits(cells[|cells| - 1], buckets[|buckets| - 1], locations))
  }

  lemma {:induction false} CellsFitPrefix(cells: seq<Cell>, buckets: seq<Bucket>, locations: seq<Location>, n: nat)
    requires n <= |cells| == |buckets|
    ensures CellsFit(cells, buckets, locations) ==> CellsFit(cells[..n], buckets[..n], locations)
    decreases |cells|
  {
    if n < |cells| {
      assert cells[..|cells| - 1][..n] == cells[..n] && buckets[..|cells| - 1][..n] == buckets[..n];
      CellsFitPrefix(cells[..|cells| - 1], buckets[..|cells| - 1], locations, n);
    } else {
      assert cells[..n] == cells && buckets[..n] == buckets;
    }
  }

  lemma {:induction false} CellsFitNext(cells: seq<Cell>, buckets: seq<Bucket>, locations: seq<Location>, c: Cell, b: Bucket)
    ensures CellsFit(cells + [c], buckets + [b], locations) <==> CellsFit(cells, buckets, locations) && CellFits(c, b, locations)
    ensures Sum(cells + [c], CellHits) == Sum(cells, CellHits) + c.hits
  {
    assert (cells + [c])[..|cells|] == cells && (buckets + [b])[..|buckets|] == buckets;
  }

  ghost predicate AcceptableHeatmap(m: Heatmap, h: Histogram) {
    && m.provenance && m.denominator == h.inScopeHits && m.unattributed == 0
    && AcceptableSymbols(h)
    && CellsFit(m.cells, h.buckets, LocationsOf(h))
    && m.attributed == m.denominator == Sum(m.cells, CellHits)
  }

  method AuditHeatmap(m: Heatmap, h: Histogram) returns (accepted: bool)
    ensures accepted <==> AcceptableHeatmap(m, h)
  {
    if !m.provenance || m.denominator != h.inScopeHits || m.unattributed != 0 { return false; }
    if |m.cells| != |h.buckets| { return false; }
    var locations := DebuggerLocations(h);
    if locations.None? { return false; }
    var attributed := 0;
    for i := 0 to |m.cells|
      invariant CellsFit(m.cells[..i], h.buckets[..i], locations.value)
      invariant attributed == Sum(m.cells[..i], CellHits)
    {
      CellsFitNext(m.cells[..i], h.buckets[..i], locations.value, m.cells[i], h.buckets[i]);
      PrefixGrows(m.cells, i);
      PrefixGrows(h.buckets, i);
      CellsFitPrefix(m.cells, h.buckets, locations.value, i + 1);
      if !CellFits(m.cells[i], h.buckets[i], locations.value) { return false; }
      attributed := attributed + m.cells[i].hits;
    }
    PrefixIsWhole(m.cells);
    PrefixIsWhole(h.buckets);
    return m.attributed == attributed && attributed == m.denominator;
  }

  /** The last comparison of the heatmap audit is implied by the others: over a valid histogram the
      cells always carry exactly the in-scope hits. */
  lemma {:induction false} CellsCarryInScopeHits(cells: seq<Cell>, buckets: seq<Bucket>, locations: seq<Location>)
    requires CellsFit(cells, buckets, locations)
    ensures Sum(cells, CellHits) == Sum(buckets, Hits)
  {
    if cells != [] {
      CellsCarryInScopeHits(cells[..|cells| - 1], buckets[..|buckets| - 1], locations);
    }
  }
}
