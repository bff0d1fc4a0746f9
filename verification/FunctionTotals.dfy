/** Merging the hotspot rows of a function, and whether the merged metric could be a native row. */
module FunctionTotals {
  import opened Outcomes
  import opened Sums
  import opened Prefixes
  import opened Ordering
  import opened Division

  datatype Row = Row(id: string, count: int, total: int, self: int, min: int, max: int, average: int)

  datatype Aggregate = Aggregate(count: int, total: int, self: int, min: int, max: int)

  /** What one row must satisfy; `//` on non-negative operands is Dafny's `/`. */
  predicate ValidRow(r: Row) {
    && 0 < r.count && 0 <= r.total && 0 <= r.self && 0 <= r.min && 0 <= r.max && 0 <= r.average
    && r.self <= r.total && r.min <= r.average <= r.max && r.average == r.total / r.count
  }

  predicate ValidRows(rows: seq<Row>) {
    forall r :: r in rows ==> ValidRow(r)
  }

  // ---------------------------------------------------------------- what the merge means

  function Measure(id: string, f: Row -> int): Row -> int {
    (r: Row) => if r.id == id then f(r) else 0
  }

  function CountOf(r: Row): int { r.count }
  function TotalOf(r: Row): int { r.total }
  function SelfOf(r: Row): int { r.self }

  ghost predicate LeastMin(rows: seq<Row>, id: string, m: int) {
    (exists r :: r in rows && r.id == id && r.min == m) && forall r :: r in rows && r.id == id ==> m <= r.min
  }

  ghost predicate GreatestMax(rows: seq<Row>, id: string, m: int) {
    (exists r :: r in rows && r.id == id && r.max == m) && forall r :: r in rows && r.id == id ==> r.max <= m
  }

  predicate Listed(rows: seq<Row>, id: string) {
    exists r :: r in rows && r.id == id
  }

  ghost predicate Aggregates(a: Aggregate, rows: seq<Row>, id: string) {
    && a.count == Sum(rows, Measure(id, CountOf)) && a.total == Sum(rows, Measure(id, TotalOf))
    && a.self == Sum(rows, Measure(id, SelfOf))
    && LeastMin(rows, id, a.min) && GreatestMax(rows, id, a.max)
  }

  ghost predicate Merged(totals: map<string, Aggregate>, rows: seq<Row>) {
    forall id :: MergedAt(totals, rows, id)
  }

  // ---------------------------------------------------------------- the merging loop

  function Min(a: int, b: int): int { if a <= b then a else b }
  function Max(a: int, b: int): int { if a <= b then b else a }

  method MergeFunctions(rows: seq<Row>) returns (totals: Option<map<string, Aggregate>>)
    ensures totals.Some? <==> ValidRows(rows)
    ensures totals.Some? ==> Merged(totals.value, rows)
  {
    var merged: map<string, Aggregate> := map[];
    for i := 0 to |rows|
      invariant ValidRows(rows[..i]) && Merged(merged, rows[..i])
    {
      var row := rows[i];
      PrefixGrows(rows, i);
      MergeNext(merged, rows[..i], row);
      if !ValidRow(row) { return None; }
      var a := if row.id in merged then merged[row.id] else Aggregate(0, 0, 0, row.min, row.max);
      merged := merged[row.id := AddRow(a, row)];
    }
    PrefixIsWhole(rows);
    return Some(merged);
  }

  function AddRow(a: Aggregate, r: Row): Aggregate {
    Aggregate(a.count + r.count, a.total + r.total, a.self + r.self, Min(a.min, r.min), Max(a.max, r.max))
  }

  lemma {:induction false} SumsNext(rows: seq<Row>, row: Row, id: string, f: Row -> int)
    ensures Sum(rows + [row], Measure(id, f)) == Sum(rows, Measure(id, f)) + if row.id == id then f(row) else 0
    ensures !Listed(rows, id) ==> Sum(rows, Measure(id, f)) == 0
  {
    if !Listed(rows, id) { NothingToSum(rows, id, f); }
  }

  lemma {:induction false} NothingToSum(rows: seq<Row>, id: string, f: Row -> int)
    requires !Listed(rows, id)
    ensures Sum(rows, Measure(id, f)) == 0
  {
    if rows != [] {
      var init := rows[..|rows| - 1];
      assert rows == init + [rows[|rows| - 1]];
      assert rows[|rows| - 1] in rows;
      NothingToSum(init, id, f);
    }
  }

  lemma {:induction false} BoundsNext(rows: seq<Row>, row: Row)
    ensures forall id :: Listed(rows + [row], id) <==> Listed(rows, id) || row.id == id
    ensures forall id, m :: row.id != id ==> (LeastMin(rows + [row], id, m) <==> LeastMin(rows, id, m))
    ensures forall id, m :: row.id != id ==> (GreatestMax(rows + [row], id, m) <==> GreatestMax(rows, id, m))
    ensures forall m :: LeastMin(rows, row.id, m) ==> LeastMin(rows + [row], row.id, Min(m, row.min))
    ensures forall m :: GreatestMax(rows, row.id, m) ==> GreatestMax(rows + [row], row.id, Max(m, row.max))
    ensures !Listed(rows, row.id) ==> LeastMin(rows + [row], row.id, row.min) && GreatestMax(rows + [row], row.id, row.max)
  {
    var all := rows + [row];
    assert row in all && forall r :: r in all <==> r in rows || r == row;
  }

  lemma {:induction false} AggregateNext(a: Aggregate, rows: seq<Row>, row: Row, id: string)
    requires Aggregates(a, rows, id)
    ensures Aggregates(if row.id == id then AddRow(a, row) else a, rows + [row], id)
  {
    SumsNext(rows, row, id, CountOf);
    SumsNext(rows, row, id, TotalOf);
    SumsNext(rows, row, id, SelfOf);
    BoundsNext(rows, row);
  }

  lemma {:induction false} AggregateFirst(rows: seq<Row>, row: Row)
    requires !Listed(rows, row.id)
    ensures Aggregates(AddRow(Aggregate(0, 0, 0, row.min, row.max), row), rows + [row], row.id)
  {
    SumsNext(rows, row, row.id, CountOf);
    SumsNext(rows, row, row.id, TotalOf);
    SumsNext(rows, row, row.id, SelfOf);
    BoundsNext(rows, row);
  }

  function AddTo(merged: map<string, Aggregate>, row: Row): map<string, Aggregate> {
    merged[row.id := AddRow(if row.id in merged then merged[row.id] else Aggregate(0, 0, 0, row.min, row.max), row)]
  }

  ghost predicate MergedAt(totals: map<string, Aggregate>, rows: seq<Row>, id: string) {
    (id in totals <==> Listed(rows, id)) && (id in totals ==> Aggregates(totals[id], rows, id))
  }

  lemma {:induction false} MergeNextAt(merged: map<string, Aggregate>, rows: seq<Row>, row: Row, id: string)
    requires MergedAt(merged, rows, id)
    ensures MergedAt(AddTo(merged, row), rows + [row], id)
  {
    if id in merged {
      AggregateNext(merged[id], rows, row, id);
    } else if id == row.id {
      AggregateFirst(rows, row);
    }
  }

  lemma {:induction false} MergeNext(merged: map<string, Aggregate>, rows: seq<Row>, row: Row)
    requires Merged(merged, rows)
    ensures Merged(AddTo(merged, row), rows + [row])
    ensures row in rows + [row]
  {
    forall id ensures MergedAt(AddTo(merged, row), rows + [row], id) {
      MergeNextAt(merged, rows, row, id);
    }
  }

  // ---------------------------------------------------------------- order

  lemma {:induction false} AggregatesInAnyOrder(a: Aggregate, b: Aggregate, rows: seq<Row>, other: seq<Row>, id: string)
    requires multiset(rows) == multiset(other) && Aggregates(a, rows, id) && Aggregates(b, other, id)
    ensures a == b
  {
    SameMembers(rows, other);
    SumPermutation(rows, other, Measure(id, CountOf));
    SumPermutation(rows, other, Measure(id, TotalOf));
    SumPermutation(rows, other, Measure(id, SelfOf));
  }

  /** Row order does not matter. */
  lemma {:induction false} MergeIgnoresOrder(x: map<string, Aggregate>, y: map<string, Aggregate>, rows: seq<Row>, other: seq<Row>)
    requires multiset(rows) == multiset(other) && Merged(x, rows) && Merged(y, other)
    ensures x == y
  {
    SameMembers(rows, other);
    forall id ensures id in x <==> id in y {
      assert MergedAt(x, rows, id) && MergedAt(y, other, id);
      assert Listed(rows, id) <==> Listed(other, id);
    }
    forall id | id in x ensures x[id] == y[id] {
      assert MergedAt(x, rows, id) && MergedAt(y, other, id);
      AggregatesInAnyOrder(x[id], y[id], rows, other, id);
    }
  }

  // ---------------------------------------------------------------- bounds of the merged mean

  /** A floored mean between min and max bounds the total by whole multiples. */
  lemma {:induction false} RowTotalBounds(r: Row)
    requires ValidRow(r)
    ensures r.min * r.count <= r.total < (r.max + 1) * r.count
  {
    var q := r.total / r.count;
    assert r.total == q * r.count + r.total % r.count;
    ProductGrows(r.min, q, r.count);
    ProductGrows(q + 1, r.max + 1, r.count);
    assert (q + 1) * r.count == q * r.count + r.count;
  }

  lemma {:induction false} BoundsAdd(n: int, t: int, r: Row, low: int, high: int)
    requires 0 < r.count && low <= r.min && r.max <= high
    requires low * n <= t && (t < (high + 1) * n || (n == 0 && t == 0))
    requires r.min * r.count <= r.total < (r.max + 1) * r.count
    ensures low * (n + r.count) <= t + r.total < (high + 1) * (n + r.count)
  {
    var c := r.count;
    ProductGrows(low, r.min, c);
    ProductGrows(r.max + 1, high + 1, c);
    assert low * (n + c) == low * n + low * c;
    assert (high + 1) * (n + c) == (high + 1) * n + (high + 1) * c;
  }

  lemma {:induction false} SumsBound(rows: seq<Row>, id: string, low: int, high: int)
    requires ValidRows(rows) && forall r :: r in rows && r.id == id ==> low <= r.min && r.max <= high
    ensures var n, t := Sum(rows, Measure(id, CountOf)), Sum(rows, Measure(id, TotalOf));
            && 0 <= n && low * n <= t && (Listed(rows, id) ==> 0 < n && t < (high + 1) * n) && (!Listed(rows, id) ==> n == 0 && t == 0)
    ensures 0 <= Sum(rows, Measure(id, SelfOf)) <= Sum(rows, Measure(id, TotalOf))
  {
    if rows != [] {
      var init, last := rows[..|rows| - 1], rows[|rows| - 1];
      assert rows == init + [last] && last in rows;
      SumsBound(init, id, low, high);
      SumsNext(init, last, id, CountOf);
      SumsNext(init, last, id, TotalOf);
      SumsNext(init, last, id, SelfOf);
      BoundsNext(init, last);
      assert ValidRow(last);
      var n, t := Sum(init, Measure(id, CountOf)), Sum(init, Measure(id, TotalOf));
      if last.id == id {
        RowTotalBounds(last);
        BoundsAdd(n, t, last, low, high);
      }
    }
  }

  /** The merged mean lies in [min, max + 1), so its floor is at most max, and self time stays within total. */
  lemma {:induction false} MergedMeanBounds(a: Aggregate, rows: seq<Row>, id: string)
    requires ValidRows(rows) && Listed(rows, id) && Aggregates(a, rows, id)
    ensures 0 < a.count && 0 <= a.self <= a.total && 0 <= a.min <= a.max
    ensures a.min as real <= a.total as real / a.count as real < a.max as real + 1.0
    ensures a.min <= a.total / a.count <= a.max
  {
    SumsBound(rows, id, a.min, a.max);
    var r :| r in rows && r.id == id && r.min == a.min;
    assert ValidRow(r);
    assert r.max <= a.max;
    MeanAgainst(a.total, a.count, a.min);
    MeanAgainst(a.total, a.count, a.max + 1);
    QuotientAbove(a.total, a.count, a.min);
    QuotientBelow(a.total, a.count, a.max);
  }

  /** A real mean compares with a bound as its total does with the bound times the count. */
  lemma {:induction false} MeanAgainst(t: int, n: int, bound: int)
    requires 0 < n
    ensures bound as real <= t as real / n as real <==> bound * n <= t
    ensures t as real / n as real <= bound as real <==> t <= bound * n
  {
    var m := bound * n;
    assert bound as real * n as real == m as real;
  }

  // ---------------------------------------------------------------- the merged metric as a native row

  /** What the parser of native rows demands of one metric, whose mean is not floored. */
  predicate NativeRowAccepts(a: Aggregate)
    requires 0 < a.count
  {
    a.self <= a.total && a.min as real <= a.total as real / a.count as real <= a.max as real
  }

  /** Each hotspot row has a floored mean within its bounds, but a merged mean is not floored: the
      metric could be a native row exactly when the rows' totals add up to at most the greatest of their
      maxima times their counts. */
  lemma {:induction false} MergedMetricIsANativeRowIff(a: Aggregate, rows: seq<Row>, id: string, greatest: int)
    requires ValidRows(rows) && Listed(rows, id) && Aggregates(a, rows, id) && GreatestMax(rows, id, greatest)
    ensures 0 < a.count
    ensures NativeRowAccepts(a) <==> Sum(rows, Measure(id, TotalOf)) <= greatest * Sum(rows, Measure(id, CountOf))
  {
    MergedMeanBounds(a, rows, id);
    assert a.max == greatest;
    MeanAgainst(a.total, a.count, a.max);
  }

  /** The mean of the row itself, and not only its floor, is at most its maximum. */
  predicate TrueMeanFits(r: Row) {
    r.total <= r.max * r.count
  }

  /** Rows whose true means fit always merge into a metric that could be a native row; of a function
      with a single row nothing less is enough. */
  lemma {:induction false} TrueMeansMerge(a: Aggregate, rows: seq<Row>, id: string)
    requires ValidRows(rows) && Listed(rows, id) && Aggregates(a, rows, id)
    ensures 0 < a.count
    ensures (forall r :: r in rows && r.id == id ==> TrueMeanFits(r)) ==> NativeRowAccepts(a)
    ensures forall r :: rows == [r] ==> (NativeRowAccepts(a) <==> TrueMeanFits(r))
  {
    MergedMetricIsANativeRowIff(a, rows, id, a.max);
    if forall r :: r in rows && r.id == id ==> TrueMeanFits(r) { TrueMeansAdd(rows, id, a.max); }
    forall r | rows == [r] ensures NativeRowAccepts(a) <==> TrueMeanFits(r) {
      OneRowIsItsAggregate(a, r, id);
      MeanAgainst(a.total, a.count, a.max);
    }
  }

  lemma {:induction false} OneRowIsItsAggregate(a: Aggregate, r: Row, id: string)
    requires Listed([r], id) && Aggregates(a, [r], id)
    ensures r.id == id && a == Aggregate(r.count, r.total, r.self, r.min, r.max)
  {
    OneRowAggregates(r);
    AggregatesInAnyOrder(a, Aggregate(r.count, r.total, r.self, r.min, r.max), [r], [r], id);
  }

  lemma {:induction false} TrueMeansAdd(rows: seq<Row>, id: string, high: int)
    requires forall r :: r in rows && r.id == id ==> TrueMeanFits(r) && r.max <= high && 0 <= r.count
    ensures Sum(rows, Measure(id, TotalOf)) <= high * Sum(rows, Measure(id, CountOf))
  {
    if rows != [] {
      var init, last := rows[..|rows| - 1], rows[|rows| - 1];
      assert rows == init + [last] && last in rows;
      TrueMeansAdd(init, id, high);
      SumsNext(init, last, id, CountOf);
      SumsNext(init, last, id, TotalOf);
      if last.id == id {
        AddWithin(Sum(init, Measure(id, TotalOf)), Sum(init, Measure(id, CountOf)), last.total, last.count, last.max, high);
      }
    }
  }

  lemma {:induction false} AddWithin(total: int, count: int, t: int, n: int, max: int, high: int)
    requires total <= high * count && t <= max * n && max <= high && 0 <= n
    ensures total + t <= high * (count + n)
  {
    ProductGrows(max, high, n);
    assert high * (count + n) == high * count + high * n;
  }

  /** A single row is its own aggregate. */
  lemma {:induction false} OneRowAggregates(r: Row)
    ensures Aggregates(Aggregate(r.count, r.total, r.self, r.min, r.max), [r], r.id)
  {
    AggregateFirst([], r);
    assert [] + [r] == [r];
    assert AddRow(Aggregate(0, 0, 0, r.min, r.max), r) == Aggregate(r.count, r.total, r.self, r.min, r.max);
  }

  lemma {:induction false} NotNative(a: Aggregate)
    requires 0 < a.count && a.max * a.count < a.total
    ensures !NativeRowAccepts(a)
  {
    MeanAgainst(a.total, a.count, a.max);
  }

  /** A valid hotspot row whose total exceeds max * count, because only its floored mean was compared. */
  lemma {:induction false} FlooredMeanCounterexample()
    ensures var row := Row("f", 2, 3, 0, 1, 1, 1);
            ValidRow(row) && !NativeRowAccepts(Aggregate(2, 3, 0, 1, 1)) && Aggregates(Aggregate(2, 3, 0, 1, 1), [row], "f")
  {
    OneRowAggregates(Row("f", 2, 3, 0, 1, 1, 1));
    NotNative(Aggregate(2, 3, 0, 1, 1));
  }
}
