/** Row selection and integer geometry of the hotspot drawing made from an audited heatmap. */
module HotspotBars {
  import opened Outcomes
  import opened Division
  import opened Ordering
  import opened Sums
  import opened SamplingBuckets
  import opened AddressHeatmap

  const MAX_ROWS := 25
  const TRACK_WIDTH := 380
  const PER_MILLE := 1000

  // ---------------------------------------------------------------- row selection

  predicate AddressAtMost(a: Cell, b: Cell) {
    a.start < b.start || (a.start == b.start && a.end <= b.end)
  }

  /** The selection key: more hits, then display name, then address. */
  predicate RanksAtMost(a: Cell, b: Cell) {
    || a.hits > b.hits
    || (a.hits == b.hits && (StringLess(a.name, b.name) || (a.name == b.name && AddressAtMost(a, b))))
  }

  lemma {:induction false} RankIsTotal()
    ensures TotalPreorder(RanksAtMost)
  {
    forall a: Cell, b: Cell ensures RanksAtMost(a, b) || RanksAtMost(b, a) {
      StringTrichotomy(a.name, b.name);
    }
    forall a: Cell, b: Cell, c: Cell | RanksAtMost(a, b) && RanksAtMost(b, c) ensures RanksAtMost(a, c) {
      if StringLess(a.name, b.name) && StringLess(b.name, c.name) {
        StringTransitive(a.name, b.name, c.name);
      }
    }
  }

  function Ranked(cells: seq<Cell>): seq<Cell> {
    Sort(cells, RanksAtMost)
  }

  function Shown(cells: seq<Cell>): seq<Cell> {
    var ranked := Ranked(cells);
    if |ranked| <= MAX_ROWS then ranked else ranked[..MAX_ROWS]
  }

  function Omitted(cells: seq<Cell>): seq<Cell> {
    var ranked := Ranked(cells);
    if |ranked| <= MAX_ROWS then [] else ranked[MAX_ROWS..]
  }

  function DrawnCells(cells: seq<Cell>): seq<Cell> {
    Sort(Shown(cells), AddressAtMost)
  }

  lemma {:induction false} RankedIsSorted(cells: seq<Cell>)
    ensures multiset(Ranked(cells)) == multiset(cells) && |Ranked(cells)| == |cells|
    ensures Sorted(Ranked(cells), RanksAtMost)
  {
    RankIsTotal();
    SortSorts(cells, RanksAtMost);
  }

  lemma {:induction false} DrawnIsSorted(cells: seq<Cell>)
    ensures multiset(DrawnCells(cells)) == multiset(Shown(cells)) && |DrawnCells(cells)| == |Shown(cells)|
    ensures Sorted(DrawnCells(cells), AddressAtMost)
  {
    SortSorts(Shown(cells), AddressAtMost);
  }

  /** Shown and omitted rows are all the cells, and at most 25 are shown, fewer only when nothing is
      omitted. */
  lemma {:induction false} SelectionIsComplete(cells: seq<Cell>)
    ensures multiset(Shown(cells)) + multiset(Omitted(cells)) == multiset(cells)
    ensures |Shown(cells)| == if |cells| <= MAX_ROWS then |cells| else MAX_ROWS
  {
    RankedIsSorted(cells);
    assert Shown(cells) + Omitted(cells) == Ranked(cells);
  }

  /** No omitted row ranks before a shown one. */
  lemma {:induction false} SelectionIsBest(cells: seq<Cell>, s: Cell, o: Cell)
    requires s in Shown(cells) && o in Omitted(cells)
    ensures RanksAtMost(s, o) && o.hits <= s.hits
  {
    RankedIsSorted(cells);
    var ranked := Ranked(cells);
    var i :| 0 <= i < |Shown(cells)| && Shown(cells)[i] == s;
    var j :| 0 <= j < |Omitted(cells)| && Omitted(cells)[j] == o;
    assert ranked[i] == s && ranked[MAX_ROWS + j] == o;
  }

  // ---------------------------------------------------------------- the drawn rows

  /** A row with hits has a bar and a per-mille label; a row without has neither. */
  datatype Row = Row(start: int, end: int, hits: int, bar: Option<int>, perMille: Option<int>)

  function RowOf(c: Cell, denominator: int): Row
    requires denominator != 0
  {
    if 0 < c.hits then
      Row(c.start, c.end, c.hits, Some(c.hits * TRACK_WIDTH / denominator), Some(c.hits * PER_MILLE / denominator))
    else Row(c.start, c.end, c.hits, None, None)
  }

  function RowsOf(cells: seq<Cell>, denominator: int): seq<Row>
    requires denominator != 0
  {
    if cells == [] then [] else RowsOf(cells[..|cells| - 1], denominator) + [RowOf(cells[|cells| - 1], denominator)]
  }

  datatype Verdict = DivisionByZero | Refused | Accepted

  /** Compares the drawn rows with the expected ones, cell by cell. */
  method AuditRows(m: Heatmap, drawn: seq<Row>) returns (v: Verdict)
    requires 0 <= m.denominator
    ensures v.DivisionByZero? <==> m.denominator == 0 && m.cells != []
    ensures !v.DivisionByZero? ==>
              (v.Accepted? <==> if m.cells == [] then drawn == [] else drawn == RowsOf(DrawnCells(m.cells), m.denominator))
  {
    var cells := DrawnCells(m.cells);
    SelectionIsComplete(m.cells);
    DrawnIsSorted(m.cells);
    var expected: seq<Row> := [];
    for i := 0 to |cells|
      invariant 0 < i ==> m.denominator != 0
      invariant m.denominator != 0 ==> expected == RowsOf(cells[..i], m.denominator)
      invariant i == 0 ==> expected == []
    {
      if m.denominator == 0 { return DivisionByZero; }
      assert cells[..i + 1][..i] == cells[..i];
      expected := expected + [RowOf(cells[i], m.denominator)];
    }
    assert cells[..|cells|] == cells;
    return if drawn == expected then Accepted else Refused;
  }

  // ---------------------------------------------------------------- bounds

  function BarWidth(r: Row): int { if r.bar.Some? then r.bar.value else 0 }

  function PerMille(r: Row): int { if r.perMille.Some? then r.perMille.value else 0 }

  lemma {:induction false} PartFits(hits: int, scale: int, d: int)
    requires 1 <= d && 0 <= hits && 0 <= scale
    ensures hits * scale / d * d <= hits * scale && 0 <= hits * scale
  {
    QuotientTimesDivisor(hits * scale, d);
    ProductGrows(0, hits, scale);
  }

  lemma {:induction false} PartsAdd(parts: int, part: int, total: int, hits: int, scale: int, d: int)
    requires parts * d <= total * scale && part * d <= hits * scale
    ensures (parts + part) * d <= (total + hits) * scale
  {
    assert (parts + part) * d == parts * d + part * d;
    assert (total + hits) * scale == total * scale + hits * scale;
  }

  lemma {:induction false} RowsNext(cells: seq<Cell>, d: int)
    requires d != 0 && cells != []
    ensures var rows, init, c := RowsOf(cells, d), cells[..|cells| - 1], cells[|cells| - 1];
            && Sum(rows, BarWidth) == Sum(RowsOf(init, d), BarWidth) + BarWidth(RowOf(c, d))
            && Sum(rows, PerMille) == Sum(RowsOf(init, d), PerMille) + PerMille(RowOf(c, d))
            && Sum(cells, CellHits) == Sum(init, CellHits) + c.hits
  {
    var init, row := RowsOf(cells[..|cells| - 1], d), RowOf(cells[|cells| - 1], d);
    assert (init + [row])[..|init|] == init;
  }

  lemma {:induction false} BarsFit(cells: seq<Cell>, d: int)
    requires 1 <= d && forall c :: c in cells ==> 0 <= c.hits
    ensures Sum(RowsOf(cells, d), BarWidth) * d <= Sum(cells, CellHits) * TRACK_WIDTH
  {
    if cells != [] {
      var init, c := cells[..|cells| - 1], cells[|cells| - 1];
      BarsFit(init, d);
      RowsNext(cells, d);
      PartFits(c.hits, TRACK_WIDTH, d);
      PartsAdd(Sum(RowsOf(init, d), BarWidth), BarWidth(RowOf(c, d)), Sum(init, CellHits), c.hits, TRACK_WIDTH, d);
    }
  }

  lemma {:induction false} LabelsFit(cells: seq<Cell>, d: int)
    requires 1 <= d && forall c :: c in cells ==> 0 <= c.hits
    ensures Sum(RowsOf(cells, d), PerMille) * d <= Sum(cells, CellHits) * PER_MILLE
  {
    if cells != [] {
      var init, c := cells[..|cells| - 1], cells[|cells| - 1];
      LabelsFit(init, d);
      RowsNext(cells, d);
      PartFits(c.hits, PER_MILLE, d);
      PartsAdd(Sum(RowsOf(init, d), PerMille), PerMille(RowOf(c, d)), Sum(init, CellHits), c.hits, PER_MILLE, d);
    }
  }

  /** Rounding down row by row never exceeds the scale: the scaled parts of `hits` out of `d` total at
      most `scale * hits / d`. */
  lemma {:induction false} ScaledPartsFit(cells: seq<Cell>, d: int)
    requires 1 <= d && forall c :: c in cells ==> 0 <= c.hits
    ensures Sum(RowsOf(cells, d), BarWidth) * d <= Sum(cells, CellHits) * TRACK_WIDTH
    ensures Sum(RowsOf(cells, d), PerMille) * d <= Sum(cells, CellHits) * PER_MILLE
  {
    BarsFit(cells, d);
    LabelsFit(cells, d);
  }

  lemma {:induction false} CancelFactor(a: int, b: int, d: int)
    requires 1 <= d && a * d <= b * d
    ensures a <= b
  {
    if b < a {
      ProductGrows(b + 1, a, d);
    }
  }

  /** The bars of an accepted drawing fit the track together, and their labels never claim more than
      the whole, whichever rows were selected. */
  lemma {:induction false} DrawingStaysInScale(m: Heatmap, h: Histogram, expected: seq<Range>)
    requires ValidHistogram(h, expected) && AcceptableHeatmap(m, h) && 0 < m.denominator
    ensures var rows := RowsOf(DrawnCells(m.cells), m.denominator);
            Sum(rows, BarWidth) <= TRACK_WIDTH && Sum(rows, PerMille) <= PER_MILLE
  {
    var cells, d := DrawnCells(m.cells), m.denominator;
    SelectionIsComplete(m.cells);
    DrawnIsSorted(m.cells);
    CellsNonNegative(m.cells, h.buckets, LocationsOf(h));
    forall c | c in cells ensures 0 <= c.hits {
      assert c in multiset(cells);
      assert c in multiset(Shown(m.cells)) + multiset(Omitted(m.cells));
    }
    ShownHitsFit(m.cells);
    ScaledPartsFit(cells, d);
    ProductGrows(Sum(cells, CellHits), d, TRACK_WIDTH);
    ProductGrows(Sum(cells, CellHits), d, PER_MILLE);
    CancelFactor(Sum(RowsOf(cells, d), BarWidth), TRACK_WIDTH, d);
    CancelFactor(Sum(RowsOf(cells, d), PerMille), PER_MILLE, d);
  }

  lemma {:induction false} CellsNonNegative(cells: seq<Cell>, buckets: seq<Bucket>, locations: seq<Location>)
    requires CellsFit(cells, buckets, locations) && forall i :: 0 <= i < |buckets| ==> 0 <= buckets[i].hits
    ensures forall c :: c in cells ==> 0 <= c.hits
  {
    if cells != [] {
      CellsNonNegative(cells[..|cells| - 1], buckets[..|buckets| - 1], locations);
    }
  }

  lemma {:induction false} ShownHitsFit(cells: seq<Cell>)
    requires forall c :: c in cells ==> 0 <= c.hits
    ensures Sum(DrawnCells(cells), CellHits) <= Sum(cells, CellHits)
  {
    SelectionIsComplete(cells);
    DrawnIsSorted(cells);
    var all := Shown(cells) + Omitted(cells);
    SumPermutation(DrawnCells(cells), Shown(cells), CellHits);
    SumPermutation(all, cells, CellHits);
    SumConcat(Shown(cells), Omitted(cells), CellHits);
    forall c | c in Omitted(cells) ensures 0 <= CellHits(c) {
      assert c in multiset(Shown(cells)) + multiset(Omitted(cells));
    }
    SumNonNegative(Omitted(cells), CellHits);
  }

  /** More hits never draw a shorter bar or a smaller label. */
  lemma {:induction false} BarsFollowHits(a: Cell, b: Cell, d: int)
    requires 1 <= d && 0 <= a.hits <= b.hits
    ensures BarWidth(RowOf(a, d)) <= BarWidth(RowOf(b, d))
    ensures PerMille(RowOf(a, d)) <= PerMille(RowOf(b, d))
  {
    QuotientTimesDivisor(a.hits * TRACK_WIDTH, d);
    QuotientTimesDivisor(a.hits * PER_MILLE, d);
    QuotientAbove(b.hits * TRACK_WIDTH, d, a.hits * TRACK_WIDTH / d);
    QuotientAbove(b.hits * PER_MILLE, d, a.hits * PER_MILLE / d);
    QuotientAbove(a.hits * TRACK_WIDTH, d, 0);
    QuotientAbove(a.hits * PER_MILLE, d, 0);
    QuotientAbove(b.hits * TRACK_WIDTH, d, 0);
    QuotientAbove(b.hits * PER_MILLE, d, 0);
  }
}
