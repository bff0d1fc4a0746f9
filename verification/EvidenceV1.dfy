/** The v1 evidence validator, and exactly which capture matrices write a document it accepts. */
module EvidenceV1 {
  import opened Outcomes
  import opened Ordering
  import opened Prefixes
  import opened Texts
  import opened CaptureEvidence
  import opened CaptureMatrix

  // ---------------------------------------------------------------- lists and combinations

  /** A duplicate-free list equals its sorted copy exactly when it ascends. */
  lemma {:induction false} SortedCopyAscends(rows: seq<string>)
    requires Distinct(rows)
    ensures rows == Sort(rows, StringAtMost) <==> StringsAscend(rows)
  {
    StringOrderIsTotal();
    SortSorts(rows, StringAtMost);
    if StringsAscend(rows) {
      forall a, b | a in rows && b in rows && StringAtMost(a, b) && StringAtMost(b, a) ensures a == b {
        StringTrichotomy(a, b);
      }
      SortOfSorted(rows, StringAtMost);
    }
    if rows == Sort(rows, StringAtMost) {
      assert forall i, j :: 0 <= i < j < |rows| ==> StringAtMost(rows[i], rows[j]) && rows[i] != rows[j];
    }
  }

  method CheckList(rows: seq<string>, minimum: nat) returns (ok: bool)
    ensures ok <==> UniqueStrings(rows, minimum) && StringsAscend(rows)
  {
    if !UniqueStrings(rows, minimum) { return false; }
    SortedCopyAscends(rows);
    return rows == Sort(rows, StringAtMost);
  }

  predicate ValidCombination(c: Combination) {
    Bounded(c.pair.board, MAX_STRING) && Bounded(c.pair.mode, MAX_STRING) && 1 <= c.count
  }

  method ReadCombinations(rows: seq<Combination>) returns (declared: Option<map<Pair, int>>)
    ensures declared.Some? <==> CombinationsFit(rows)
    ensures declared.Some? ==> Declares(declared.value, rows)
  {
    if MAX_LIST < |rows| { return None; }
    var counts: map<Pair, int> := map[];
    for i := 0 to |rows|
      invariant forall k :: 0 <= k < i ==> ValidCombination(rows[k])
      invariant PairsAscend(rows[..i]) && Declares(counts, rows[..i])
    {
      var row := rows[i];
      AscendNext(rows, i);
      DeclaresNext(counts, rows, i);
      if !ValidCombination(row) { return None; }
      if 0 < i && !PairLess(rows[i - 1].pair, row.pair) { return None; }
      counts := counts[row.pair := row.count];
    }
    assert rows[..|rows|] == rows;
    return Some(counts);
  }

  ghost predicate Declares(counts: map<Pair, int>, rows: seq<Combination>) {
    && (forall p :: p in counts <==> exists i :: 0 <= i < |rows| && rows[i].pair == p)
    && forall i :: 0 <= i < |rows| ==> rows[i].pair in counts && counts[rows[i].pair] == rows[i].count
  }

  lemma {:induction false} AscendNext(rows: seq<Combination>, i: nat)
    requires i < |rows| && PairsAscend(rows[..i])
    ensures PairsAscend(rows) ==> PairsAscend(rows[..i + 1])
    ensures PairsAscend(rows[..i + 1]) <==> (0 < i ==> PairLess(rows[i - 1].pair, rows[i].pair))
  {
    var next := rows[..i + 1];
    if PairsAscend(next) && 0 < i { assert PairLess(next[i - 1].pair, next[i].pair); }
    if 0 < i && PairLess(rows[i - 1].pair, rows[i].pair) {
      forall a, b | 0 <= a < b < |next| ensures PairLess(next[a].pair, next[b].pair) {
        if b < i {
          assert PairLess(rows[..i][a].pair, rows[..i][b].pair);
        } else if a < i - 1 {
          assert PairLess(rows[..i][a].pair, rows[..i][i - 1].pair);
          PairLessTransitive(rows[a].pair, rows[i - 1].pair, rows[i].pair);
        }
      }
    }
  }

  lemma {:induction false} DeclaresNext(counts: map<Pair, int>, rows: seq<Combination>, i: nat)
    requires i < |rows| && Declares(counts, rows[..i]) && PairsAscend(rows[..i])
    ensures PairsAscend(rows[..i + 1]) ==> Declares(counts[rows[i].pair := rows[i].count], rows[..i + 1])
  {
    var next := rows[..i + 1];
    var counts' := counts[rows[i].pair := rows[i].count];
    assert next[i] == rows[i];
    if PairsAscend(next) {
      forall k | 0 <= k < |next| ensures next[k].pair in counts' && counts'[next[k].pair] == next[k].count {
        if k < i {
          assert PairLess(next[k].pair, next[i].pair);
          PairLessIrreflexive(next[i].pair);
          assert rows[..i][k] == next[k];
        }
      }
      forall p ensures p in counts' <==> exists k :: 0 <= k < |next| && next[k].pair == p {
        if p in counts {
          var k :| 0 <= k < i && rows[..i][k].pair == p;
          assert next[k].pair == p;
        }
        if k :| 0 <= k < |next| && next[k].pair == p {
          assert k < i ==> rows[..i][k].pair == p;
        }
      }
    }
  }

  // ---------------------------------------------------------------- capture rows

  ghost predicate GoodRows(captures: seq<Capture>) {
    ValidRows(captures) && SessionsDistinct(captures) && OneIdentityPerBoard(captures)
  }

  /** What the loop over the rows has collected. */
  ghost predicate Scanned(captures: seq<Capture>, keys: set<SessionKey>, identities: map<string, BoardIdentity>) {
    && ValidRows(captures) && SessionsDistinct(captures)
    && keys == SessionKeys(captures) && IdentitiesFit(identities, captures)
  }

  predicate RowFits(c: Capture, keys: set<SessionKey>, identities: map<string, BoardIdentity>) {
    ValidRow(c) && KeyOf(c) !in keys && (c.board in identities ==> identities[c.board] == IdentityOf(c))
  }

  lemma {:induction false} ScannedNext(captures: seq<Capture>, c: Capture, keys: set<SessionKey>, identities: map<string, BoardIdentity>)
    requires Scanned(captures, keys, identities)
    ensures RowFits(c, keys, identities) ==> Scanned(captures + [c], keys + {KeyOf(c)}, identities[c.board := IdentityOf(c)])
    ensures !RowFits(c, keys, identities) ==> !GoodRows(captures + [c])
  {
    assert (captures + [c])[|captures|] == c;
    AppendKeeps(captures, c);
    FitNext(identities, captures, c);
  }

  method ScanRows(captures: seq<Capture>) returns (ok: bool)
    ensures ok <==> ValidRows(captures) && SessionsDistinct(captures) && OneIdentityPerBoard(captures)
  {
    var keys: set<SessionKey> := {};
    var identities: map<string, BoardIdentity> := map[];
    for i := 0 to |captures|
      invariant Scanned(captures[..i], keys, identities)
    {
      var c := captures[i];
      PrefixGrows(captures, i);
      ScannedNext(captures[..i], c, keys, identities);
      PrefixKeeps(captures, i + 1);
      if !ValidRow(c) { return false; }
      if KeyOf(c) in keys { return false; }
      keys := keys + {KeyOf(c)};
      var previous := if c.board in identities then identities[c.board] else IdentityOf(c);
      identities := identities[c.board := previous];
      if previous != IdentityOf(c) { return false; }
    }
    PrefixIsWhole(captures);
    FitMeansOneIdentity(identities, captures);
    return true;
  }

  lemma {:induction false} PrefixKeeps(captures: seq<Capture>, n: nat)
    requires n <= |captures|
    ensures SessionsDistinct(captures) ==> SessionsDistinct(captures[..n])
    ensures OneIdentityPerBoard(captures) ==> OneIdentityPerBoard(captures[..n])
    ensures ValidRows(captures) ==> ValidRows(captures[..n])
  {
  }

  // ---------------------------------------------------------------- the validator

  lemma {:induction false} DeclaredEqualsActual(rows: seq<Combination>, declared: map<Pair, int>, actual: map<Pair, nat>, captures: seq<Capture>)
    requires PairsAscend(rows) && Declares(declared, rows)
    requires actual.Keys == Pairs(captures) && forall p :: p in actual ==> actual[p] == PairCount(captures, p)
    ensures declared == actual <==> Tabulates(rows, captures)
  {
    if declared == actual {
      forall i | 0 <= i < |rows| ensures rows[i].count == PairCount(captures, rows[i].pair) {
        assert rows[i].pair in declared;
      }
    }
    if Tabulates(rows, captures) {
      forall p ensures p in declared <==> p in actual {
        assert p in Pairs(captures) <==> exists i :: 0 <= i < |rows| && rows[i].pair == p;
      }
      forall p | p in declared ensures declared[p] == actual[p] {
        var i :| 0 <= i < |rows| && rows[i].pair == p;
      }
    }
  }

  method CheckLists(d: Document) returns (ok: bool)
    ensures ok <==> ListsFit(d)
  {
    var boards := CheckList(d.boards, 2);
    var mcuFamilies := CheckList(d.mcuFamilies, 2);
    var modes := CheckList(d.modes, 2);
    var rtoses := CheckList(d.rtoses, 1);
    var probes := CheckList(d.probes, 1);
    var architectures := CheckList(d.architectures, 1);
    return boards && mcuFamilies && modes && rtoses && probes && architectures;
  }

  datatype Coverage = Coverage(
    boards: set<string>, mcuFamilies: set<string>, modes: set<string>, rtoses: set<string>,
    probes: set<string>, architectures: set<string>)

  function CoverageOf(captures: seq<Capture>): Coverage {
    Coverage(Boards(captures), McuFamilies(captures), Modes(captures), Rtoses(captures), Probes(captures), Architectures(captures))
  }

  function AddRow(coverage: Coverage, c: Capture): Coverage {
    Coverage(
      coverage.boards + {c.board}, coverage.mcuFamilies + {c.mcuFamily}, coverage.modes + {c.mode},
      if c.rtos.Some? then coverage.rtoses + {c.rtos.value} else coverage.rtoses,
      coverage.probes + {c.probe}, coverage.architectures + {c.architecture})
  }

  lemma {:induction false} CoverageNext(captures: seq<Capture>, c: Capture)
    ensures CoverageOf(captures + [c]) == AddRow(CoverageOf(captures), c)
  {
    var all := captures + [c];
    assert forall x :: x in all <==> x in captures || x == c;
    assert CoverageOf(all).boards == AddRow(CoverageOf(captures), c).boards;
    assert CoverageOf(all).mcuFamilies == AddRow(CoverageOf(captures), c).mcuFamilies;
    assert CoverageOf(all).modes == AddRow(CoverageOf(captures), c).modes;
    assert CoverageOf(all).rtoses == AddRow(CoverageOf(captures), c).rtoses;
    assert CoverageOf(all).probes == AddRow(CoverageOf(captures), c).probes;
    assert CoverageOf(all).architectures == AddRow(CoverageOf(captures), c).architectures;
  }

  method CollectCoverage(captures: seq<Capture>) returns (coverage: Coverage)
    ensures coverage == CoverageOf(captures)
  {
    coverage := Coverage({}, {}, {}, {}, {}, {});
    for i := 0 to |captures|
      invariant coverage == CoverageOf(captures[..i])
    {
      assert captures[..i + 1] == captures[..i] + [captures[i]];
      CoverageNext(captures[..i], captures[i]);
      coverage := AddRow(coverage, captures[i]);
    }
    assert captures[..|captures|] == captures;
  }

  predicate DeclaresCoverage(d: Document, coverage: Coverage) {
    && coverage.boards == (set x | x in d.boards) && coverage.mcuFamilies == (set x | x in d.mcuFamilies)
    && coverage.modes == (set x | x in d.modes) && coverage.rtoses == (set x | x in d.rtoses)
    && coverage.probes == (set x | x in d.probes) && coverage.architectures == (set x | x in d.architectures)
  }

  /** The modes the validator counts; it asks for exactly the two states, the matrix for at least them. */
  function ExactlyQualified(d: Document, counts: map<Pair, nat>): set<string> {
    set m | m in d.modes && forall b :: b in d.boards ==> ExactlyQualifiedOn(d.captures, counts, Pair(b, m))
  }

  predicate ExactlyQualifiedOn(captures: seq<Capture>, counts: map<Pair, nat>, p: Pair) {
    p in counts && MIN_REPETITIONS <= counts[p] && PairStates(captures, p) == {Running, Halted}
  }

  lemma {:induction false} StatesOfValidRows(captures: seq<Capture>, p: Pair)
    requires ValidRows(captures)
    ensures PairStates(captures, p) <= {Running, Halted}
  {
  }

  lemma {:induction false} CountOfAbsentPair(captures: seq<Capture>, p: Pair)
    ensures p !in Pairs(captures) ==> PairCount(captures, p) == 0
  {
    if captures != [] {
      var init, last := captures[..|captures| - 1], captures[|captures| - 1];
      assert captures == init + [last];
      assert forall x :: x in Pairs(init) ==> x in Pairs(captures);
      assert PairOf(last) in Pairs(captures);
      CountOfAbsentPair(init, p);
    }
  }

  lemma {:induction false} ExactOnAPair(captures: seq<Capture>, counts: map<Pair, nat>, p: Pair)
    requires ValidRows(captures)
    requires counts.Keys == Pairs(captures) && forall q :: q in counts ==> counts[q] == PairCount(captures, q)
    ensures ExactlyQualifiedOn(captures, counts, p) <==> QualifiedOn(captures, p, MIN_REPETITIONS)
  {
    CountOfAbsentPair(captures, p);
    StatesOfValidRows(captures, p);
  }

  lemma {:induction false} ExactStatesAreRequiredStates(d: Document, counts: map<Pair, nat>)
    requires ValidRows(d.captures) && DeclaresCoverage(d, CoverageOf(d.captures))
    requires counts.Keys == Pairs(d.captures) && forall p :: p in counts ==> counts[p] == PairCount(d.captures, p)
    ensures ExactlyQualified(d, counts) == QualifiedModes(d.captures, MIN_REPETITIONS)
  {
    forall p ensures ExactlyQualifiedOn(d.captures, counts, p) <==> QualifiedOn(d.captures, p, MIN_REPETITIONS) {
      ExactOnAPair(d.captures, counts, p);
    }
    SameQualified(d.captures, counts, d.boards, d.modes);
  }

  lemma {:induction false} SameQualified(captures: seq<Capture>, counts: map<Pair, nat>, boards: seq<string>, modes: seq<string>)
    requires forall p :: ExactlyQualifiedOn(captures, counts, p) <==> QualifiedOn(captures, p, MIN_REPETITIONS)
    requires Boards(captures) == (set x | x in boards) && Modes(captures) == (set x | x in modes)
    ensures (set m | m in modes && forall b :: b in boards ==> ExactlyQualifiedOn(captures, counts, Pair(b, m)))
         == QualifiedModes(captures, MIN_REPETITIONS)
  {
    forall m ensures (forall b :: b in boards ==> ExactlyQualifiedOn(captures, counts, Pair(b, m)))
                <==> Qualified(captures, m, MIN_REPETITIONS) {
      assert forall b :: b in boards <==> b in Boards(captures);
    }
    assert forall m :: m in modes <==> m in Modes(captures);
  }

  ghost predicate ListsFit(d: Document) {
    && UniqueStrings(d.boards, 2) && UniqueStrings(d.mcuFamilies, 2) && UniqueStrings(d.modes, 2)
    && UniqueStrings(d.rtoses, 1) && UniqueStrings(d.probes, 1) && UniqueStrings(d.architectures, 1)
    && StringsAscend(d.boards) && StringsAscend(d.mcuFamilies) && StringsAscend(d.modes)
    && StringsAscend(d.rtoses) && StringsAscend(d.probes) && StringsAscend(d.architectures)
  }

  ghost predicate RowsFit(d: Document) {
    ValidRows(d.captures) && SessionsDistinct(d.captures) && OneIdentityPerBoard(d.captures)
  }

  ghost predicate CombinationsFit(rows: seq<Combination>) {
    |rows| <= MAX_LIST && (forall i :: 0 <= i < |rows| ==> ValidCombination(rows[i])) && PairsAscend(rows)
  }

  /** The order in which the validator establishes what makes a document acceptable. */
  lemma {:induction false} AcceptableParts(d: Document)
    ensures Acceptable(d) <==>
              && ListsFit(d) && CombinationsFit(d.combinations) && MIN_CAPTURES <= |d.captures| <= MAX_CAPTURES && RowsFit(d)
              && DeclaresCoverage(d, CoverageOf(d.captures)) && Tabulates(d.combinations, d.captures)
              && EveryPairRepeated(d.captures) && 2 <= |QualifiedModes(d.captures, MIN_REPETITIONS)|
  {
  }

  /** The v1 validator. */
  method ValidateV1(d: Document) returns (accepted: bool)
    ensures accepted <==> Acceptable(d)
  {
    AcceptableParts(d);
    var lists := CheckLists(d);
    if !lists { return false; }
    var declared := ReadCombinations(d.combinations);
    if declared.None? { return false; }
    if MAX_CAPTURES < |d.captures| { return false; }
    if |d.captures| < MIN_CAPTURES { return false; }
    var rows := ScanRows(d.captures);
    if !rows { return false; }
    var coverage := CollectCoverage(d.captures);
    var actual := CountPairs(d.captures);
    if !DeclaresCoverage(d, coverage) { return false; }
    DeclaredEqualsActual(d.combinations, declared.value, actual, d.captures);
    if declared.value != actual { return false; }
    RepeatedByCounts(d.captures, actual);
    if exists p :: p in actual && actual[p] < MIN_REPETITIONS { return false; }
    ExactStatesAreRequiredStates(d, actual);
    return 2 <= |ExactlyQualified(d, actual)|;
  }

  lemma {:induction false} RepeatedByCounts(captures: seq<Capture>, counts: map<Pair, nat>)
    requires counts.Keys == Pairs(captures) && forall p :: p in counts ==> counts[p] == PairCount(captures, p)
    ensures EveryPairRepeated(captures) <==> !exists p :: p in counts && counts[p] < MIN_REPETITIONS
  {
    if EveryPairRepeated(captures) {
      forall p | p in counts ensures MIN_REPETITIONS <= counts[p] {
        var c :| c in captures && PairOf(c) == p;
      }
    }
    if !EveryPairRepeated(captures) {
      var c :| c in captures && PairCount(captures, PairOf(c)) < MIN_REPETITIONS;
      assert PairOf(c) in counts.Keys;
    }
  }
}
