/** Capture rows, the coverage document built from them, and what the v1 validator requires of it. */
module CaptureEvidence {
  import opened Outcomes
  import opened Ordering
  import opened Sums
  import opened Texts

  datatype State = Running | Halted | Unknown(name: string)

  datatype Capture = Capture(
    board: string, mcuFamily: string, rtos: Option<string>, mode: string, state: State, session: string,
    release: string, build: int, probe: string, architecture: string, licenses: seq<string>,
    capability: string, routing: seq<string>, manifest: string, health: string)

  /** What must not change between captures of one board. */
  datatype BoardIdentity = BoardIdentity(
    mcuFamily: string, rtos: Option<string>, release: string, build: int, probe: string,
    architecture: string, licenses: seq<string>, capability: string, routing: seq<string>)

  function IdentityOf(c: Capture): BoardIdentity {
    BoardIdentity(c.mcuFamily, c.rtos, c.release, c.build, c.probe, c.architecture, c.licenses, c.capability, c.routing)
  }

  datatype SessionKey = SessionKey(board: string, session: string)

  function KeyOf(c: Capture): SessionKey {
    SessionKey(c.board, c.session)
  }

  datatype Pair = Pair(board: string, mode: string)

  function PairOf(c: Capture): Pair {
    Pair(c.board, c.mode)
  }

  datatype Combination = Combination(pair: Pair, count: int)

  datatype Document = Document(
    boards: seq<string>, mcuFamilies: seq<string>, modes: seq<string>, rtoses: seq<string>,
    probes: seq<string>, architectures: seq<string>, combinations: seq<Combination>, captures: seq<Capture>)

  const MIN_REPETITIONS := 10
  const MIN_CAPTURES := 40
  const MAX_CAPTURES := 1_000_000
  const MAX_LIST := 100_000
  const MAX_STRING := 256

  // ---------------------------------------------------------------- well-formed rows

  predicate UniqueStrings(s: seq<string>, minimum: nat) {
    minimum <= |s| <= MAX_LIST && (forall i :: 0 <= i < |s| ==> Bounded(s[i], MAX_STRING)) && Distinct(s)
  }

  predicate ValidRow(c: Capture) {
    && Bounded(c.board, MAX_STRING) && Bounded(c.mcuFamily, MAX_STRING) && Bounded(c.mode, MAX_STRING)
    && (c.rtos.Some? ==> Bounded(c.rtos.value, MAX_STRING))
    && !c.state.Unknown?
    && PortableSession(c.session)
    && Bounded(c.release, MAX_STRING) && 1 <= c.build && Bounded(c.probe, MAX_STRING) && Bounded(c.architecture, MAX_STRING)
    && UniqueStrings(c.licenses, 1) && UniqueStrings(c.routing, 1)
    && Sha256(c.capability) && Sha256(c.manifest) && Sha256(c.health)
  }

  predicate ValidRows(captures: seq<Capture>) {
    forall i :: 0 <= i < |captures| ==> ValidRow(captures[i])
  }

  // ---------------------------------------------------------------- facts about a list of captures

  function Boards(captures: seq<Capture>): set<string> { set c | c in captures :: c.board }
  function McuFamilies(captures: seq<Capture>): set<string> { set c | c in captures :: c.mcuFamily }
  function Modes(captures: seq<Capture>): set<string> { set c | c in captures :: c.mode }
  function Rtoses(captures: seq<Capture>): set<string> { set c | c in captures && c.rtos.Some? :: c.rtos.value }
  function Probes(captures: seq<Capture>): set<string> { set c | c in captures :: c.probe }
  function Architectures(captures: seq<Capture>): set<string> { set c | c in captures :: c.architecture }
  function Pairs(captures: seq<Capture>): set<Pair> { set c | c in captures :: PairOf(c) }

  function PairCount(captures: seq<Capture>, p: Pair): nat {
    if captures == [] then 0
    else PairCount(captures[..|captures| - 1], p) + if PairOf(captures[|captures| - 1]) == p then 1 else 0
  }

  function PairStates(captures: seq<Capture>, p: Pair): set<State> {
    set c | c in captures && PairOf(c) == p :: c.state
  }

  ghost predicate OneIdentityPerBoard(captures: seq<Capture>) {
    forall a, b :: a in captures && b in captures && a.board == b.board ==> IdentityOf(a) == IdentityOf(b)
  }

  ghost predicate SessionsDistinct(captures: seq<Capture>) {
    forall i, j :: 0 <= i < j < |captures| ==> KeyOf(captures[i]) != KeyOf(captures[j])
  }

  predicate EveryPairRepeated(captures: seq<Capture>) {
    forall c :: c in captures ==> MIN_REPETITIONS <= PairCount(captures, PairOf(c))
  }

  /** The board has enough captures of the mode, in both target states. */
  predicate QualifiedOn(captures: seq<Capture>, p: Pair, repetitions: int) {
    repetitions <= PairCount(captures, p) && {Running, Halted} <= PairStates(captures, p)
  }

  predicate Qualified(captures: seq<Capture>, mode: string, repetitions: int) {
    forall b :: b in Boards(captures) ==> QualifiedOn(captures, Pair(b, mode), repetitions)
  }

  function QualifiedModes(captures: seq<Capture>, repetitions: int): set<string> {
    set m | m in Modes(captures) && Qualified(captures, m, repetitions)
  }

  // ---------------------------------------------------------------- the document

  /** The one list that `sorted` makes of a set. */
  ghost predicate Lists(rows: seq<string>, s: set<string>) {
    StringsAscend(rows) && s == set x | x in rows
  }

  predicate PairLess(a: Pair, b: Pair) {
    StringLess(a.board, b.board) || (a.board == b.board && StringLess(a.mode, b.mode))
  }

  predicate PairsAscend(rows: seq<Combination>) {
    forall i, j :: 0 <= i < j < |rows| ==> PairLess(rows[i].pair, rows[j].pair)
  }

  ghost predicate Tabulates(rows: seq<Combination>, captures: seq<Capture>) {
    && PairsAscend(rows)
    && (forall p :: p in Pairs(captures) <==> exists i :: 0 <= i < |rows| && rows[i].pair == p)
    && forall i :: 0 <= i < |rows| ==> rows[i].count == PairCount(captures, rows[i].pair)
  }

  /** The document says about its captures what they say themselves. */
  ghost predicate Describes(d: Document) {
    && Lists(d.boards, Boards(d.captures))
    && Lists(d.mcuFamilies, McuFamilies(d.captures))
    && Lists(d.modes, Modes(d.captures))
    && Lists(d.rtoses, Rtoses(d.captures))
    && Lists(d.probes, Probes(d.captures))
    && Lists(d.architectures, Architectures(d.captures))
    && Tabulates(d.combinations, d.captures)
  }

  ghost predicate Acceptable(d: Document) {
    && UniqueStrings(d.boards, 2) && UniqueStrings(d.mcuFamilies, 2) && UniqueStrings(d.modes, 2)
    && UniqueStrings(d.rtoses, 1) && UniqueStrings(d.probes, 1) && UniqueStrings(d.architectures, 1)
    && |d.combinations| <= MAX_LIST
    && (forall i :: 0 <= i < |d.combinations| ==>
          Bounded(d.combinations[i].pair.board, MAX_STRING) && Bounded(d.combinations[i].pair.mode, MAX_STRING) && 1 <= d.combinations[i].count)
    && MIN_CAPTURES <= |d.captures| <= MAX_CAPTURES
    && ValidRows(d.captures)
    && SessionsDistinct(d.captures)
    && OneIdentityPerBoard(d.captures)
    && Describes(d)
    && EveryPairRepeated(d.captures)
    && 2 <= |QualifiedModes(d.captures, MIN_REPETITIONS)|
  }

  // ---------------------------------------------------------------- the counting argument

  function BoardCount(captures: seq<Capture>, board: string): nat {
    if captures == [] then 0
    else BoardCount(captures[..|captures| - 1], board) + if captures[|captures| - 1].board == board then 1 else 0
  }

  ghost function BoardTotal(captures: seq<Capture>, boards: set<string>): nat
    decreases |boards|
  {
    if boards == {} then 0
    else
      var b :| b in boards;
      BoardCount(captures, b) + BoardTotal(captures, boards - {b})
  }

  lemma {:induction false} BoardTotalNext(captures: seq<Capture>, c: Capture, boards: set<string>)
    ensures BoardTotal(captures + [c], boards) == BoardTotal(captures, boards) + if c.board in boards then 1 else 0
    decreases |boards|
  {
    assert (captures + [c])[..|captures|] == captures;
    if boards != {} {
      var b: string :| b in boards && BoardTotal(captures, boards) == BoardCount(captures, b) + BoardTotal(captures, boards - {b});
      BoardTotalNext(captures, c, boards - {b});
      BoardTotalRemove(captures + [c], boards, b);
    }
  }

  lemma {:induction false} BoardTotalRemove(captures: seq<Capture>, boards: set<string>, b: string)
    requires b in boards
    ensures BoardTotal(captures, boards) == BoardCount(captures, b) + BoardTotal(captures, boards - {b})
    decreases |boards|
  {
    var first: string :| first in boards && BoardTotal(captures, boards) ==
                   BoardCount(captures, first) + BoardTotal(captures, boards - {first});
    if first != b {
      BoardTotalRemove(captures, boards - {first}, b);
      assert boards - {first} - {b} == boards - {b} - {first};
      BoardTotalRemove(captures, boards - {b}, first);
    }
  }

  lemma {:induction false} BoardTotalEmpty(boards: set<string>)
    ensures BoardTotal([], boards) == 0
    decreases |boards|
  {
    if boards != {} {
      var b :| b in boards;
      BoardTotalRemove([], boards, b);
      BoardTotalEmpty(boards - {b});
    }
  }

  /** Every capture belongs to exactly one board. */
  lemma {:induction false} BoardsPartition(captures: seq<Capture>, boards: set<string>)
    requires Boards(captures) <= boards
    ensures BoardTotal(captures, boards) == |captures|
  {
    if captures == [] {
      BoardTotalEmpty(boards);
    } else {
      var init, last := captures[..|captures| - 1], captures[|captures| - 1];
      assert captures == init + [last] && last.board in Boards(captures);
      forall b | b in Boards(init) ensures b in boards {
        var c :| c in init && c.board == b;
        assert c in captures;
      }
      BoardsPartition(init, boards);
      BoardTotalNext(init, last, boards);
    }
  }

  lemma {:induction false} TwoModesOnABoard(captures: seq<Capture>, b: string, m: string, n: string)
    requires m != n
    ensures PairCount(captures, Pair(b, m)) + PairCount(captures, Pair(b, n)) <= BoardCount(captures, b)
  {
    if captures != [] {
      TwoModesOnABoard(captures[..|captures| - 1], b, m, n);
    }
  }

  lemma {:induction false} TwentyOnABoard(captures: seq<Capture>, b: string, m: string, n: string)
    requires b in Boards(captures) && m != n && Qualified(captures, m, MIN_REPETITIONS) && Qualified(captures, n, MIN_REPETITIONS)
    ensures 20 <= BoardCount(captures, b)
  {
    assert QualifiedOn(captures, Pair(b, m), MIN_REPETITIONS) && QualifiedOn(captures, Pair(b, n), MIN_REPETITIONS);
    TwoModesOnABoard(captures, b, m, n);
  }

  lemma {:induction false} TwentyPerBoard(captures: seq<Capture>, boards: set<string>)
    requires forall b :: b in boards ==> 20 <= BoardCount(captures, b)
    ensures 20 * |boards| <= BoardTotal(captures, boards)
    decreases |boards|
  {
    if boards != {} {
      var b :| b in boards;
      assert |boards - {b}| == |boards| - 1;
      TwentyPerBoard(captures, boards - {b});
      BoardTotalRemove(captures, boards, b);
    }
  }

  lemma {:induction false} TwoMembers(s: set<string>) returns (m: string, n: string)
    requires 2 <= |s|
    ensures m in s && n in s && m != n
  {
    m :| m in s;
    assert |s - {m}| == |s| - 1;
    n :| n in s - {m};
  }

  /** Two qualified modes already force twenty captures on every board. */
  lemma {:induction false} QualifiedModesForceCaptures(captures: seq<Capture>)
    requires 2 <= |QualifiedModes(captures, MIN_REPETITIONS)|
    ensures 20 * |Boards(captures)| <= |captures|
  {
    var m, n := TwoMembers(QualifiedModes(captures, MIN_REPETITIONS));
    forall b | b in Boards(captures) ensures 20 <= BoardCount(captures, b) {
      TwentyOnABoard(captures, b, m, n);
    }
    TwentyPerBoard(captures, Boards(captures));
    BoardsPartition(captures, Boards(captures));
  }

  // ---------------------------------------------------------------- combination counts

  function CountOf(c: Combination): int { c.count }

  predicate HasPair(rows: seq<Combination>, p: Pair) {
    exists i :: 0 <= i < |rows| && rows[i].pair == p
  }

  function Tabulated(captures: seq<Capture>, rows: seq<Combination>): nat {
    if captures == [] then 0
    else Tabulated(captures[..|captures| - 1], rows) + if HasPair(rows, PairOf(captures[|captures| - 1])) then 1 else 0
  }

  lemma {:induction false} TabulatedAppend(captures: seq<Capture>, rows: seq<Combination>, r: Combination)
    requires !HasPair(rows, r.pair)
    ensures Tabulated(captures, rows + [r]) == Tabulated(captures, rows) + PairCount(captures, r.pair)
  {
    if captures != [] {
      TabulatedAppend(captures[..|captures| - 1], rows, r);
      HasPairAppend(rows, r, PairOf(captures[|captures| - 1]));
    }
  }

  lemma {:induction false} HasPairAppend(rows: seq<Combination>, r: Combination, p: Pair)
    ensures HasPair(rows + [r], p) <==> HasPair(rows, p) || r.pair == p
  {
    assert (rows + [r])[|rows|] == r;
    assert forall i :: 0 <= i < |rows| ==> (rows + [r])[i] == rows[i];
  }

  lemma {:induction false} PairLessIrreflexive(p: Pair)
    ensures !PairLess(p, p)
  {
    StringTrichotomy(p.board, p.board);
    StringTrichotomy(p.mode, p.mode);
  }

  lemma {:induction false} CountsSumToTabulated(rows: seq<Combination>, captures: seq<Capture>)
    requires PairsAscend(rows) && forall i :: 0 <= i < |rows| ==> rows[i].count == PairCount(captures, rows[i].pair)
    ensures Sum(rows, CountOf) == Tabulated(captures, rows)
  {
    if rows == [] {
      TabulatedNone(captures);
    } else {
      var init, last := rows[..|rows| - 1], rows[|rows| - 1];
      assert rows == init + [last];
      CountsSumToTabulated(init, captures);
      PairLessIrreflexive(last.pair);
      assert forall i :: 0 <= i < |init| ==> PairLess(rows[i].pair, rows[|rows| - 1].pair);
      TabulatedAppend(captures, init, last);
    }
  }

  lemma {:induction false} TabulatedNone(captures: seq<Capture>)
    ensures Tabulated(captures, []) == 0
  {
    if captures != [] {
      TabulatedNone(captures[..|captures| - 1]);
    }
  }

  lemma {:induction false} AllTabulated(captures: seq<Capture>, rows: seq<Combination>)
    requires forall c :: c in captures ==> HasPair(rows, PairOf(c))
    ensures Tabulated(captures, rows) == |captures|
  {
    if captures != [] {
      AllTabulated(captures[..|captures| - 1], rows);
    }
  }

  /** Accepted evidence: the combination counts are a partition of the captures, and the number of
      captures is at least twenty per board, so the explicit minimum of forty is implied. */
  lemma {:induction false} AcceptedEvidenceCounts(d: Document)
    requires Acceptable(d)
    ensures Sum(d.combinations, CountOf) == |d.captures|
    ensures |d.captures| >= 20 * |d.boards| >= MIN_CAPTURES
  {
    CountsSumToTabulated(d.combinations, d.captures);
    forall c | c in d.captures ensures HasPair(d.combinations, PairOf(c)) {
      assert PairOf(c) in Pairs(d.captures);
    }
    AllTabulated(d.captures, d.combinations);
    QualifiedModesForceCaptures(d.captures);
    ListSize(d.boards, Boards(d.captures));
  }

  lemma {:induction false} ListSize(rows: seq<string>, s: set<string>)
    requires Lists(rows, s)
    ensures |rows| == |s| && Distinct(rows)
    decreases |rows|
  {
    forall i, j | 0 <= i < j < |rows| ensures rows[i] != rows[j] {
      StringTrichotomy(rows[i], rows[j]);
    }
    DistinctSize(rows);
  }

  lemma {:induction false} DistinctSize<T>(rows: seq<T>)
    requires Distinct(rows)
    ensures |set x | x in rows| == |rows|
  {
    if rows != [] {
      var init, last := rows[..|rows| - 1], rows[|rows| - 1];
      DistinctSize(init);
      assert rows == init + [last];
      assert (set x | x in rows) == (set x | x in init) + {last};
    }
  }
}
