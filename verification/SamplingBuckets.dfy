/** The requested address ranges, their expansion into buckets, and the histogram over them. */
module SamplingBuckets {
  import opened Outcomes
  import opened Prefixes
  import opened Scalars
  import opened Division

  const MAX_ADDRESS := 0xFFFF_FFFF_FFFF_FFFF
  const MAX_BUCKET_SIZE := 0x10_0000
  const MAX_RANGES := 256
  const MAX_BUCKETS := 256

  /** Half-open address interval. */
  datatype Range = Range(start: int, end: int)

  datatype RangeItem = NotARange | RangeItem(start: Json, end: Json)

  datatype Fault = BadBucketSize | BadRangeCount | BadRange | TooManyBuckets

  // ---------------------------------------------------------------- the request

  function ReadRange(item: RangeItem): Option<Range> {
    if item.RangeItem? && item.start.Int? && item.end.Int? then Some(Range(item.start.n, item.end.n)) else None
  }

  function ReadRanges(items: seq<RangeItem>): Option<seq<Range>> {
    if items == [] then Some([])
    else
      var before :- ReadRanges(items[..|items| - 1]);
      var last :- ReadRange(items[|items| - 1]);
      Some(before + [last])
  }

  predicate ValidRange(r: Range) {
    0 <= r.start < r.end <= MAX_ADDRESS
  }

  predicate Ascending(ranges: seq<Range>) {
    forall i :: 0 < i < |ranges| ==> ranges[i - 1].end <= ranges[i].start
  }

  predicate ValidRanges(ranges: seq<Range>) {
    (forall i :: 0 <= i < |ranges| ==> ValidRange(ranges[i])) && Ascending(ranges)
  }

  function BucketsOf(r: Range, size: int): int
    requires 1 <= size
  {
    (r.end - r.start + size - 1) / size
  }

  /** The validator's bucket arithmetic: ceiling division, range by range. */
  function BucketSum(ranges: seq<Range>, size: int): int
    requires 1 <= size
  {
    if ranges == [] then 0
    else
      BucketSum(ranges[..|ranges| - 1], size) + BucketsOf(ranges[|ranges| - 1], size)
  }

  ghost predicate ValidItems(size: int, items: seq<RangeItem>)
    requires 1 <= size
  {
    var read := ReadRanges(items);
    read.Some? && ValidRanges(read.value) && BucketSum(read.value, size) <= MAX_BUCKETS
  }

  ghost predicate ValidRequest(size: Json, items: seq<RangeItem>) {
    && size.Int? && 1 <= size.n <= MAX_BUCKET_SIZE
    && 1 <= |items| <= MAX_RANGES
    && ValidItems(size.n, items)
  }

  method ValidateRequest(size: Json, items: seq<RangeItem>) returns (r: Result<seq<Range>, Fault>)
    ensures r.Ok? <==> ValidRequest(size, items)
    ensures r.Ok? ==> ReadRanges(items) == Some(r.value)
  {
    if !size.Int? || size.n < 1 || MAX_BUCKET_SIZE < size.n { return Raised(BadBucketSize); }
    if |items| < 1 || MAX_RANGES < |items| { return Raised(BadRangeCount); }
    var ranges: seq<Range> := [];
    var previousEnd: Option<int> := None;
    var bucketCount := 0;
    for i := 0 to |items|
      invariant ReadRanges(items[..i]) == Some(ranges) && ValidItems(size.n, items[..i])
      invariant previousEnd == LastEnd(ranges)
      invariant bucketCount == BucketSum(ranges, size.n)
    {
      RequestPrefix(items, i + 1, size.n);
      PrefixGrows(items, i);
      ItemNext(items[..i], items[i], size.n);
      var next := ReadItem(ranges, previousEnd, bucketCount, items[i], size.n);
      if next.Raised? { return Raised(next.fault); }
      var range, count := next.value.0, next.value.1;
      ranges := ranges + [range];
      previousEnd := Some(range.end);
      bucketCount := count;
    }
    PrefixIsWhole(items);
    return Ok(ranges);
  }

  function LastEnd(ranges: seq<Range>): Option<int> {
    if ranges == [] then None else Some(ranges[|ranges| - 1].end)
  }

  /** The checks of one item, and the bucket count with it. */
  method ReadItem(ghost ranges: seq<Range>, previousEnd: Option<int>, bucketCount: int, item: RangeItem, size: int)
    returns (next: Result<(Range, int), Fault>)
    requires 1 <= size && previousEnd == LastEnd(ranges) && bucketCount == BucketSum(ranges, size)
    ensures next.Ok? <==> ItemFits(ranges, item, size)
    ensures next.Ok? ==> ReadRange(item) == Some(next.value.0) && next.value.1 == BucketSum(ranges + [next.value.0], size)
  {
    var read := ReadRange(item);
    if read.None? { return Raised(BadRange); }
    var range := read.value;
    if !ValidRange(range) || (previousEnd.Some? && range.start < previousEnd.value) { return Raised(BadRange); }
    BucketSumAppend(ranges, range, size);
    var count := bucketCount + BucketsOf(range, size);
    if MAX_BUCKETS < count { return Raised(TooManyBuckets); }
    return Ok((range, count));
  }

  lemma {:induction false} RangesAppend(ranges: seq<Range>, r: Range)
    ensures ValidRanges(ranges + [r]) <==>
              ValidRanges(ranges) && ValidRange(r) && (ranges != [] ==> ranges[|ranges| - 1].end <= r.start)
  {
    var all := ranges + [r];
    assert all[|ranges|] == r;
    if ValidRanges(all) {
      forall i | 0 <= i < |ranges| ensures ValidRange(ranges[i]) { assert all[i] == ranges[i]; }
      forall i | 0 < i < |ranges| ensures ranges[i - 1].end <= ranges[i].start {
        assert all[i - 1].end <= all[i].start;
      }
      if ranges != [] { assert all[|ranges| - 1].end <= all[|ranges|].start; }
    }
  }

  lemma {:induction false} BucketSumAppend(ranges: seq<Range>, r: Range, size: int)
    requires 1 <= size
    ensures BucketSum(ranges + [r], size) == BucketSum(ranges, size) + BucketsOf(r, size)
  {
    assert (ranges + [r])[..|ranges|] == ranges;
  }

  /** What one more item must satisfy after the ranges read so far. */
  predicate ItemFits(ranges: seq<Range>, item: RangeItem, size: int)
    requires 1 <= size
  {
    match ReadRange(item)
    case None => false
    case Some(r) =>
      && ValidRange(r) && (ranges != [] ==> ranges[|ranges| - 1].end <= r.start)
      && BucketSum(ranges, size) + BucketsOf(r, size) <= MAX_BUCKETS
  }

  lemma {:induction false} ItemNext(items: seq<RangeItem>, item: RangeItem, size: int)
    requires 1 <= size && ValidItems(size, items)
    ensures ValidItems(size, items + [item]) <==> ItemFits(ReadRanges(items).value, item, size)
    ensures ItemFits(ReadRanges(items).value, item, size) ==>
              ReadRanges(items + [item]) == Some(ReadRanges(items).value + [ReadRange(item).value])
  {
    assert (items + [item])[..|items|] == items;
    if ReadRange(item).Some? {
      RangesAppend(ReadRanges(items).value, ReadRange(item).value);
      BucketSumAppend(ReadRanges(items).value, ReadRange(item).value, size);
    }
  }

  lemma {:induction false} ItemsBefore(items: seq<RangeItem>, item: RangeItem, size: int)
    requires 1 <= size && ValidItems(size, items + [item])
    ensures ValidItems(size, items)
  {
    assert (items + [item])[..|items|] == items;
    var before, last := ReadRanges(items).value, ReadRange(item).value;
    RangesAppend(before, last);
    BucketSumAppend(before, last, size);
    BucketsArePositive(last, size);
  }

  lemma {:induction false} BucketsArePositive(r: Range, size: int)
    requires 1 <= size && ValidRange(r)
    ensures 0 <= BucketsOf(r, size)
  {
  }

  /** A request whose prefix is refused is refused: the bucket count only grows. */
  lemma {:induction false} RequestPrefix(items: seq<RangeItem>, n: nat, size: int)
    requires n <= |items| && 1 <= size
    ensures ValidItems(size, items) ==> ValidItems(size, items[..n])
    decreases |items|
  {
    if n < |items| && ValidItems(size, items) {
      var init := items[..|items| - 1];
      assert items == init + [items[|items| - 1]];
      ItemsBefore(init, items[|items| - 1], size);
      RequestPrefix(init, n, size);
      assert init[..n] == items[..n];
    } else {
      assert n == |items| ==> items[..n] == items;
    }
  }

  // ---------------------------------------------------------------- expansion

  /** The buckets of one range: `range(start, end, size)` with each end clipped to the range. */
  function Slices(start: int, end: int, size: int): seq<Range>
    requires 1 <= size
    decreases end - start
  {
    if end <= start then []
    else [Range(start, if start + size < end then start + size else end)] + Slices(start + size, end, size)
  }

  function Expand(ranges: seq<Range>, size: int): seq<Range>
    requires 1 <= size
  {
    if ranges == [] then []
    else
      var r := ranges[|ranges| - 1];
      Expand(ranges[..|ranges| - 1], size) + Slices(r.start, r.end, size)
  }

  predicate Holds(r: Range, address: int) {
    r.start <= address < r.end
  }

  ghost predicate Covered(rs: seq<Range>, address: int) {
    exists i :: 0 <= i < |rs| && Holds(rs[i], address)
  }

  /** Non-empty pieces no wider than `size`, in order and without overlap. */
  ghost predicate Tiles(buckets: seq<Range>, size: int) {
    && (forall i :: 0 <= i < |buckets| ==> buckets[i].start < buckets[i].end <= buckets[i].start + size)
    && forall i, j :: 0 <= i < j < |buckets| ==> buckets[i].end <= buckets[j].start
  }

  lemma {:induction false} SlicesTile(start: int, end: int, size: int)
    requires 1 <= size
    ensures Tiles(Slices(start, end, size), size)
    ensures forall i :: 0 <= i < |Slices(start, end, size)| ==>
              start <= Slices(start, end, size)[i].start && Slices(start, end, size)[i].end <= end
    ensures forall a :: Covered(Slices(start, end, size), a) <==> start <= a < end
    decreases end - start
  {
    if start < end {
      var rest := Slices(start + size, end, size);
      var s := Slices(start, end, size);
      SlicesTile(start + size, end, size);
      forall a ensures Covered(s, a) <==> start <= a < end {
        if start <= a < end {
          if a < start + size {
            assert Holds(s[0], a);
          } else {
            assert Covered(rest, a);
            var i :| 0 <= i < |rest| && Holds(rest[i], a);
            assert Holds(s[i + 1], a);
          }
        }
      }
    }
  }

  /** The number of slices is the ceiling of width over size. */
  lemma {:induction false} SlicesCount(start: int, end: int, size: int)
    requires 1 <= size && start < end
    ensures |Slices(start, end, size)| == (end - start + size - 1) / size
    decreases end - start
  {
    var w := end - start;
    if w <= size {
      assert Slices(start + size, end, size) == [];
      assert (w + size - 1) / size == 1 by { QuotientBetween(w + size - 1, size, 1); }
    } else {
      SlicesCount(start + size, end, size);
      QuotientShift(w - 1, size);
    }
  }

  /** The buckets of a valid request tile its ranges: they are non-empty, at most one bucket size wide,
      ordered and disjoint; they cover exactly the requested addresses; and there are as many as the
      validator counted. */
  lemma {:induction false} BucketsTileTheRequest(ranges: seq<Range>, size: int)
    requires 1 <= size && ValidRanges(ranges)
    ensures Tiles(Expand(ranges, size), size)
    ensures forall a :: Covered(Expand(ranges, size), a) <==> Covered(ranges, a)
    ensures |Expand(ranges, size)| == BucketSum(ranges, size)
    ensures forall i :: 0 <= i < |Expand(ranges, size)| ==>
              Expand(ranges, size)[i].end <= ranges[|ranges| - 1].end
  {
    if ranges != [] {
      var prefix, last := ranges[..|ranges| - 1], ranges[|ranges| - 1];
      assert ranges == prefix + [last];
      RangesAppend(prefix, last);
      BucketSumAppend(prefix, last, size);
      BucketsTileTheRequest(prefix, size);
      SlicesTile(last.start, last.end, size);
      SlicesCount(last.start, last.end, size);
      var head, tail := Expand(prefix, size), Slices(last.start, last.end, size);
      JoinTiles(head, tail, size, last.start);
      forall a ensures Covered(head + tail, a) <==> Covered(ranges, a) {
        CoveredConcat(head, tail, a);
        CoveredConcat(prefix, [last], a);
        assert Covered([last], a) <==> Holds([last][0], a);
      }
    }
  }

  lemma {:induction false} JoinTiles(head: seq<Range>, tail: seq<Range>, size: int, border: int)
    requires Tiles(head, size) && Tiles(tail, size)
    requires forall i :: 0 <= i < |head| ==> head[i].end <= border
    requires forall i :: 0 <= i < |tail| ==> border <= tail[i].start
    ensures Tiles(head + tail, size)
  {
    var all := head + tail;
    forall i, j | 0 <= i < j < |all| ensures all[i].end <= all[j].start {
      if j < |head| {
        assert head[i].end <= head[j].start;
      } else if |head| <= i {
        assert tail[i - |head|].end <= tail[j - |head|].start;
      }
    }
  }

  lemma {:induction false} CoveredConcat(a: seq<Range>, b: seq<Range>, address: int)
    ensures Covered(a + b, address) <==> Covered(a, address) || Covered(b, address)
  {
    if Covered(a, address) {
      var i :| 0 <= i < |a| && Holds(a[i], address);
      assert Holds((a + b)[i], address);
    }
    if Covered(b, address) {
      var i :| 0 <= i < |b| && Holds(b[i], address);
      assert Holds((a + b)[|a| + i], address);
    }
  }

  /** In a tiling, an address lies in at most one bucket. */
  lemma {:induction false} OneBucketPerAddress(buckets: seq<Range>, size: int, address: int, i: nat, j: nat)
    requires Tiles(buckets, size) && i < |buckets| && j < |buckets|
    requires Holds(buckets[i], address) && Holds(buckets[j], address)
    ensures i == j
  {
  }

  ghost predicate InOneBucket(buckets: seq<Range>, address: int) {
    exists i :: 0 <= i < |buckets| && Holds(buckets[i], address)
                && forall j :: 0 <= j < |buckets| && Holds(buckets[j], address) ==> j == i
  }

  /** The two bounds the pipeline relies on: an accepted request expands to at most 256 buckets, and
      every requested address is counted by exactly one of them. */
  lemma {:induction false} AcceptedRequestTiles(size: Json, items: seq<RangeItem>)
    requires ValidRequest(size, items)
    ensures var ranges := ReadRanges(items).value;
            var buckets := Expand(ranges, size.n);
            && |buckets| <= MAX_BUCKETS
            && Tiles(buckets, size.n)
            && forall a :: Covered(ranges, a) <==> InOneBucket(buckets, a)
  {
    var ranges := ReadRanges(items).value;
    var buckets := Expand(ranges, size.n);
    BucketsTileTheRequest(ranges, size.n);
    forall a | Covered(ranges, a) ensures InOneBucket(buckets, a) {
      assert Covered(buckets, a);
      var i :| 0 <= i < |buckets| && Holds(buckets[i], a);
      forall j | 0 <= j < |buckets| && Holds(buckets[j], a) ensures j == i {
        OneBucketPerAddress(buckets, size.n, a, i, j);
      }
    }
  }
}
