/** A matrix whose coverage assertion passes writes a document the v1 validator accepts. */
module MatrixAcceptance {
  import opened Outcomes
  import opened Ordering
  import opened Sums
  import opened Texts
  import opened CaptureEvidence
  import opened CaptureMatrix

  // ---------------------------------------------------------------- the order of captures does not matter

  lemma {:induction false} PairCountIsASum(captures: seq<Capture>, p: Pair)
    ensures PairCount(captures, p) == Sum(captures, Indicator(p))
  {
    if captures != [] { PairCountIsASum(captures[..|captures| - 1], p); }
  }

  function Indicator(p: Pair): Capture -> int {
    (c: Capture) => if PairOf(c) == p then 1 else 0
  }

  lemma {:induction false} PairCountPermutation(a: seq<Capture>, b: seq<Capture>, p: Pair)
    requires multiset(a) == multiset(b)
    ensures PairCount(a, p) == PairCount(b, p)
  {
    PairCountIsASum(a, p);
    PairCountIsASum(b, p);
    SumPermutation(a, b, Indicator(p));
  }

  lemma {:induction false} CoveragePermutation(a: seq<Capture>, b: seq<Capture>, m: Minima)
    requires multiset(a) == multiset(b)
    ensures Covers(a, m) <==> Covers(b, m)
    ensures EveryPairRepeated(a) <==> EveryPairRepeated(b)
  {
    SameMembers(a, b);
    assert Boards(a) == Boards(b) && McuFamilies(a) == McuFamilies(b) && Modes(a) == Modes(b) && Rtoses(a) == Rtoses(b);
    forall p ensures PairCount(a, p) == PairCount(b, p) && PairStates(a, p) == PairStates(b, p) {
      PairCountPermutation(a, b, p);
    }
    assert forall mode :: Qualified(a, mode, m.repetitions) <==> Qualified(b, mode, m.repetitions);
    assert QualifiedModes(a, m.repetitions) == QualifiedModes(b, m.repetitions);
  }

  lemma {:induction false} SessionsPermutation(a: seq<Capture>, b: seq<Capture>)
    requires multiset(a) == multiset(b) && SessionsDistinct(a)
    ensures SessionsDistinct(b)
  {
    DistinctKeysPermutation(a, b, KeyOf);
  }

  // ---------------------------------------------------------------- list sizes

  /** A set that is covered by the image of another is no larger. */
  lemma {:induction false} ImageSize<A, B>(source: set<A>, f: A -> B, image: set<B>)
    requires forall y :: y in image ==> exists x :: x in source && f(x) == y
    ensures |image| <= |source|
    decreases |source|
  {
    if source == {} {
      assert image == {};
    } else {
      var x :| x in source;
      var rest := image - {f(x)};
      forall y | y in rest ensures exists z :: z in source - {x} && f(z) == y {
        var z :| z in source && f(z) == y;
        assert z in source - {x};
      }
      ImageSize(source - {x}, f, rest);
      assert |source - {x}| == |source| - 1;
      assert image <= rest + {f(x)};
      SubsetSize(image, rest + {f(x)});
    }
  }

  lemma {:induction false} SubsetSize<T>(a: set<T>, b: set<T>)
    requires a <= b
    ensures |a| <= |b|
  {
    assert b == a + (b - a);
  }

  lemma {:induction false} TenPerCombination(rows: seq<Combination>)
    requires forall i :: 0 <= i < |rows| ==> MIN_REPETITIONS <= rows[i].count
    ensures MIN_REPETITIONS * |rows| <= Sum(rows, CountOf)
  {
    if rows != [] { TenPerCombination(rows[..|rows| - 1]); }
  }

  /** Ten captures a pair leave room for at most a tenth as many pairs as captures. */
  lemma {:induction false} CombinationsFew(rows: seq<Combination>, captures: seq<Capture>)
    requires Tabulates(rows, captures) && EveryPairRepeated(captures)
    ensures MIN_REPETITIONS * |rows| <= |captures|
    ensures |Pairs(captures)| <= |rows|
  {
    forall i | 0 <= i < |rows| ensures MIN_REPETITIONS <= rows[i].count {
      assert rows[i].pair in Pairs(captures);
      var c :| c in captures && PairOf(c) == rows[i].pair;
    }
    TenPerCombination(rows);
    CountsSumToTabulated(rows, captures);
    forall c | c in captures ensures HasPair(rows, PairOf(c)) {
      assert PairOf(c) in Pairs(captures);
    }
    AllTabulated(captures, rows);
    PairsListed(rows, Pairs(captures));
  }

  lemma {:induction false} PairsListed(rows: seq<Combination>, pairs: set<Pair>)
    requires forall p :: p in pairs ==> HasPair(rows, p)
    ensures |pairs| <= |rows|
  {
    if rows == [] {
      assert forall p :: p in pairs ==> !HasPair(rows, p);
      assert pairs == {};
    } else {
      var last := rows[|rows| - 1].pair;
      forall p | p in pairs - {last} ensures HasPair(rows[..|rows| - 1], p) {
        var i :| 0 <= i < |rows| && rows[i].pair == p;
        assert rows[..|rows| - 1][i].pair == p;
      }
      PairsListed(rows[..|rows| - 1], pairs - {last});
      SubsetSize(pairs, (pairs - {last}) + {last});
    }
  }

  lemma {:induction false} ModesFew(captures: seq<Capture>)
    ensures |Modes(captures)| <= |Pairs(captures)|
  {
    var f := (p: Pair) => p.mode;
    forall m | m in Modes(captures) ensures exists p :: p in Pairs(captures) && f(p) == m {
      var c :| c in captures && c.mode == m;
      assert PairOf(c) in Pairs(captures) && f(PairOf(c)) == m;
    }
    ImageSize(Pairs(captures), f, Modes(captures));
  }

  ghost function IdentityOn(captures: seq<Capture>, board: string): BoardIdentity {
    if board in Boards(captures) then
      var c :| c in captures && c.board == board;
      IdentityOf(c)
    else
      BoardIdentity("", None, "", 0, "", "", [], "", [])
  }

  /** What a board's identity fixes takes no more values than there are boards. */
  lemma {:induction false} IdentityValuesFew(captures: seq<Capture>, f: BoardIdentity -> string, values: set<string>)
    requires OneIdentityPerBoard(captures)
    requires forall v :: v in values ==> exists c :: c in captures && f(IdentityOf(c)) == v
    ensures |values| <= |Boards(captures)|
  {
    var identities := set b | b in Boards(captures) :: IdentityOn(captures, b);
    forall v | v in values ensures exists i :: i in identities && f(i) == v {
      var c :| c in captures && f(IdentityOf(c)) == v;
      assert c.board in Boards(captures);
      assert IdentityOn(captures, c.board) == IdentityOf(c);
      assert IdentityOf(c) in identities;
    }
    ImageSize(identities, f, values);
    IdentitiesFew(captures, Boards(captures));
  }

  lemma {:induction false} IdentitiesFew(captures: seq<Capture>, boards: set<string>)
    ensures |set b | b in boards :: IdentityOn(captures, b)| <= |boards|
    decreases |boards|
  {
    var all := set b | b in boards :: IdentityOn(captures, b);
    if boards == {} {
      assert all == {};
    } else {
      var b :| b in boards;
      var fewer := set x | x in boards - {b} :: IdentityOn(captures, x);
      IdentitiesFew(captures, boards - {b});
      assert |boards - {b}| == |boards| - 1;
      assert all <= fewer + {IdentityOn(captures, b)};
      SubsetSize(all, fewer + {IdentityOn(captures, b)});
    }
  }

  lemma {:induction false} ListsFewValues(captures: seq<Capture>)
    requires OneIdentityPerBoard(captures)
    ensures |McuFamilies(captures)| <= |Boards(captures)| && |Rtoses(captures)| <= |Boards(captures)|
    ensures |Probes(captures)| <= |Boards(captures)| && |Architectures(captures)| <= |Boards(captures)|
  {
    FewFamilies(captures);
    FewRtoses(captures);
    FewProbes(captures);
    FewArchitectures(captures);
  }

  lemma {:induction false} FewFamilies(captures: seq<Capture>)
    requires OneIdentityPerBoard(captures)
    ensures |McuFamilies(captures)| <= |Boards(captures)|
  {
    IdentityValuesFew(captures, (i: BoardIdentity) => i.mcuFamily, McuFamilies(captures));
  }

  lemma {:induction false} FewRtoses(captures: seq<Capture>)
    requires OneIdentityPerBoard(captures)
    ensures |Rtoses(captures)| <= |Boards(captures)|
  {
    IdentityValuesFew(captures, (i: BoardIdentity) => if i.rtos.Some? then i.rtos.value else "", Rtoses(captures));
  }

  lemma {:induction false} FewProbes(captures: seq<Capture>)
    requires OneIdentityPerBoard(captures)
    ensures |Probes(captures)| <= |Boards(captures)|
  {
    IdentityValuesFew(captures, (i: BoardIdentity) => i.probe, Probes(captures));
  }

  lemma {:induction false} FewArchitectures(captures: seq<Capture>)
    requires OneIdentityPerBoard(captures)
    ensures |Architectures(captures)| <= |Boards(captures)|
  {
    IdentityValuesFew(captures, (i: BoardIdentity) => i.architecture, Architectures(captures));
  }

  // ---------------------------------------------------------------- the theorem

  lemma {:induction false} BoundedList(rows: seq<string>, s: set<string>, minimum: nat)
    requires Lists(rows, s) && minimum <= |s| <= MAX_LIST && forall x :: x in s ==> Bounded(x, MAX_STRING)
    ensures UniqueStrings(rows, minimum)
  {
    ListSize(rows, s);
    assert forall i :: 0 <= i < |rows| ==> rows[i] in s;
  }

  lemma {:induction false} NotEmpty<T>(s: set<T>, x: T)
    requires x in s
    ensures 1 <= |s|
  {
  }

  lemma {:induction false} CoveredListsFit(d: Document)
    requires ValidRows(d.captures) && OneIdentityPerBoard(d.captures) && |d.captures| <= MAX_CAPTURES
    requires Describes(d) && Covers(d.captures, DEFAULT_MINIMA) && EveryPairRepeated(d.captures)
    ensures UniqueStrings(d.boards, 2) && UniqueStrings(d.mcuFamilies, 2) && UniqueStrings(d.modes, 2)
    ensures UniqueStrings(d.rtoses, 1) && UniqueStrings(d.probes, 1) && UniqueStrings(d.architectures, 1)
    ensures |d.combinations| <= MAX_LIST && MIN_CAPTURES <= |d.captures|
  {
    var captures := d.captures;
    QualifiedModesForceCaptures(captures);
    ListsFewValues(captures);
    CombinationsFew(d.combinations, captures);
    ModesFew(captures);
    assert captures != [];
    assert captures[0].probe in Probes(captures) && captures[0].architecture in Architectures(captures);
    NotEmpty(Probes(captures), captures[0].probe);
    NotEmpty(Architectures(captures), captures[0].architecture);
    BoundedList(d.boards, Boards(captures), 2);
    BoundedList(d.mcuFamilies, McuFamilies(captures), 2);
    BoundedList(d.modes, Modes(captures), 2);
    BoundedList(d.rtoses, Rtoses(captures), 1);
    BoundedList(d.probes, Probes(captures), 1);
    BoundedList(d.architectures, Architectures(captures), 1);
  }

  lemma {:induction false} CombinationsAreBounded(d: Document)
    requires ValidRows(d.captures) && Describes(d)
    ensures forall i :: 0 <= i < |d.combinations| ==>
              Bounded(d.combinations[i].pair.board, MAX_STRING) && Bounded(d.combinations[i].pair.mode, MAX_STRING) && 1 <= d.combinations[i].count
  {
    forall i | 0 <= i < |d.combinations|
      ensures Bounded(d.combinations[i].pair.board, MAX_STRING) && Bounded(d.combinations[i].pair.mode, MAX_STRING) && 1 <= d.combinations[i].count
    {
      assert d.combinations[i].pair in Pairs(d.captures);
      var c :| c in d.captures && PairOf(c) == d.combinations[i].pair;
      PairCountPositive(d.captures, c);
    }
  }

  lemma {:induction false} PairCountPositive(captures: seq<Capture>, c: Capture)
    requires c in captures
    ensures 1 <= PairCount(captures, PairOf(c))
  {
    if c != captures[|captures| - 1] { PairCountPositive(captures[..|captures| - 1], c); }
  }

  lemma {:induction false} AcceptableCovers(d: Document)
    requires Acceptable(d)
    ensures Covers(d.captures, DEFAULT_MINIMA) && EveryPairRepeated(d.captures)
  {
    ListSize(d.boards, Boards(d.captures));
    ListSize(d.mcuFamilies, McuFamilies(d.captures));
    ListSize(d.modes, Modes(d.captures));
    ListSize(d.rtoses, Rtoses(d.captures));
  }

  lemma {:induction false} CoveringIsAcceptable(d: Document)
    requires ValidRows(d.captures) && SessionsDistinct(d.captures) && OneIdentityPerBoard(d.captures)
    requires |d.captures| <= MAX_CAPTURES && Describes(d)
    requires Covers(d.captures, DEFAULT_MINIMA) && EveryPairRepeated(d.captures)
    ensures Acceptable(d)
  {
    CoveredListsFit(d);
    CombinationsAreBounded(d);
  }

  /** For a matrix of well-formed captures, the document it writes is accepted exactly when its default
      coverage assertion passes and every recorded pair has at least ten captures. */
  lemma {:induction false} DocumentAcceptedIffCovered(captures: seq<Capture>, d: Document)
    requires ValidRows(captures) && SessionsDistinct(captures) && OneIdentityPerBoard(captures)
    requires |captures| <= MAX_CAPTURES
    requires Describes(d) && multiset(d.captures) == multiset(captures)
    ensures Acceptable(d) <==> Covers(captures, DEFAULT_MINIMA) && EveryPairRepeated(captures)
  {
    SameMembers(captures, d.captures);
    assert |multiset(captures)| == |captures| && |multiset(d.captures)| == |d.captures|;
    assert ValidRows(d.captures) by {
      forall i | 0 <= i < |d.captures| ensures ValidRow(d.captures[i]) {
        assert d.captures[i] in captures;
      }
    }
    SessionsPermutation(captures, d.captures);
    CoveragePermutation(captures, d.captures, DEFAULT_MINIMA);
    if Acceptable(d) { AcceptableCovers(d); }
    if Covers(d.captures, DEFAULT_MINIMA) && EveryPairRepeated(d.captures) { CoveringIsAcceptable(d); }
  }

  /** Both halves are needed: the coverage assertion alone lets a sparse third mode through. */
  lemma {:induction false} SparsePairIsRejected(captures: seq<Capture>, d: Document, c: Capture)
    requires Describes(d) && multiset(d.captures) == multiset(captures)
    requires c in captures && PairCount(captures, PairOf(c)) < MIN_REPETITIONS
    ensures !Acceptable(d)
  {
    SameMembers(captures, d.captures);
    PairCountPermutation(captures, d.captures, PairOf(c));
  }

  /** One more capture of a known board in a mode that nothing else captured. */
  function Sparse(known: Capture, mode: string, session: string): Capture {
    known.(mode := mode, session := session)
  }

  /** The matrix takes such a capture in from any state, keeps passing its coverage assertion, and from
      then on writes a document that the validator rejects. */
  lemma {:induction false} SparseModeKeepsCoverage(captures: seq<Capture>, known: Capture, mode: string, session: string)
    requires ValidRows(captures) && SessionsDistinct(captures) && OneIdentityPerBoard(captures)
    requires Covers(captures, DEFAULT_MINIMA) && known in captures
    requires mode !in Modes(captures) && Bounded(mode, MAX_STRING)
    requires PortableSession(session) && SessionKey(known.board, session) !in SessionKeys(captures)
    ensures var all := captures + [Sparse(known, mode, session)];
            && ValidRows(all) && SessionsDistinct(all) && OneIdentityPerBoard(all) && Covers(all, DEFAULT_MINIMA)
            && !EveryPairRepeated(all)
            && forall d :: Describes(d) && multiset(d.captures) == multiset(all) ==> !Acceptable(d)
  {
    var c := Sparse(known, mode, session);
    AppendKeeps(captures, c);
    SparseIsConsistent(captures, known, c);
    SparseCovers(captures, known, c);
    FreshModeIsRejected(captures, c);
  }

  lemma {:induction false} FreshModeIsRejected(captures: seq<Capture>, c: Capture)
    requires c.mode !in Modes(captures)
    ensures !EveryPairRepeated(captures + [c])
    ensures forall d :: Describes(d) && multiset(d.captures) == multiset(captures + [c]) ==> !Acceptable(d)
  {
    var all := captures + [c];
    FreshModeIsAbsent(captures, PairOf(c));
    assert all[..|captures|] == captures;
    assert PairCount(all, PairOf(c)) == 1 && c in all;
    forall d | Describes(d) && multiset(d.captures) == multiset(all) ensures !Acceptable(d) {
      SparsePairIsRejected(all, d, c);
    }
  }

  lemma {:induction false} SparseIsConsistent(captures: seq<Capture>, known: Capture, c: Capture)
    requires ValidRows(captures) && OneIdentityPerBoard(captures) && known in captures
    requires c == Sparse(known, c.mode, c.session) && Bounded(c.mode, MAX_STRING) && PortableSession(c.session)
    ensures ValidRows(captures + [c]) && OneIdentityPerBoard(captures + [c])
  {
    var all := captures + [c];
    assert ValidRow(known) && ValidRow(c) && IdentityOf(c) == IdentityOf(known);
    assert forall x :: x in all ==> x in captures || x == c;
  }

  lemma {:induction false} SparseCovers(captures: seq<Capture>, known: Capture, c: Capture)
    requires known in captures && c == Sparse(known, c.mode, c.session) && Covers(captures, DEFAULT_MINIMA)
    ensures Covers(captures + [c], DEFAULT_MINIMA)
  {
    var all := captures + [c];
    assert forall x :: x in all <==> x in captures || x == c;
    assert Boards(all) == Boards(captures) && McuFamilies(all) == McuFamilies(captures) && Rtoses(all) == Rtoses(captures);
    SubsetSize(Modes(captures), Modes(all));
    forall m | m in QualifiedModes(captures, MIN_REPETITIONS) ensures m in QualifiedModes(all, MIN_REPETITIONS) {
      assert m in Modes(captures) && m in Modes(all);
      forall b | b in Boards(all) ensures QualifiedOn(all, Pair(b, m), MIN_REPETITIONS) {
        assert QualifiedOn(captures, Pair(b, m), MIN_REPETITIONS);
        QualifiedStays(captures, c, Pair(b, m));
      }
    }
    SubsetSize(QualifiedModes(captures, MIN_REPETITIONS), QualifiedModes(all, MIN_REPETITIONS));
  }

  lemma {:induction false} QualifiedStays(captures: seq<Capture>, c: Capture, p: Pair)
    requires QualifiedOn(captures, p, MIN_REPETITIONS)
    ensures QualifiedOn(captures + [c], p, MIN_REPETITIONS)
  {
    assert (captures + [c])[..|captures|] == captures;
    assert forall x :: x in captures ==> x in captures + [c];
    assert PairStates(captures, p) <= PairStates(captures + [c], p);
  }

  lemma {:induction false} FreshModeIsAbsent(captures: seq<Capture>, p: Pair)
    requires p.mode !in Modes(captures)
    ensures PairCount(captures, p) == 0
  {
    if captures != [] {
      var init, last := captures[..|captures| - 1], captures[|captures| - 1];
      assert last in captures && last.mode in Modes(captures);
      assert forall x :: x in init ==> x in captures;
      assert Modes(init) <= Modes(captures);
      FreshModeIsAbsent(init, p);
    }
  }
}
