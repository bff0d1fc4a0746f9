/** The matrix that collects host-verified captures, and the document it writes. */
module CaptureMatrix {
  import opened Outcomes
  import opened Ordering
  import opened CaptureEvidence

  datatype Minima = Minima(boards: int, mcuFamilies: int, modes: int, rtoses: int, repetitions: int)

  const DEFAULT_MINIMA := Minima(2, 2, 2, 1, 10)

  predicate Positive(m: Minima) {
    0 < m.boards && 0 < m.mcuFamilies && 0 < m.modes && 0 < m.rtoses && 0 < m.repetitions
  }

  ghost predicate Covers(captures: seq<Capture>, m: Minima) {
    && m.boards <= |Boards(captures)| && m.modes <= |Modes(captures)|
    && m.mcuFamilies <= |McuFamilies(captures)| && m.rtoses <= |Rtoses(captures)|
    && m.modes <= |QualifiedModes(captures, m.repetitions)|
  }

  // ---------------------------------------------------------------- sorted lists of sets

  lemma {:induction false} StringOrderIsTotal()
    ensures TotalPreorder(StringAtMost)
  {
    forall a: string, b: string ensures StringAtMost(a, b) || StringAtMost(b, a) {
      StringTrichotomy(a, b);
    }
    forall a: string, b: string, c: string | StringAtMost(a, b) && StringAtMost(b, c) ensures StringAtMost(a, c) {
      if a != b && b != c { StringTransitive(a, b, c); }
    }
  }

  method Enumerate<T(==)>(s: set<T>) returns (rows: seq<T>)
    ensures Distinct(rows) && s == (set x | x in rows)
  {
    rows := [];
    var remaining := s;
    while remaining != {}
      invariant remaining <= s && Distinct(rows)
      invariant s - remaining == set x | x in rows
      decreases remaining
    {
      var x :| x in remaining;
      remaining := remaining - {x};
      assert (set y | y in rows + [x]) == (set y | y in rows) + {x};
      rows := rows + [x];
    }
  }

  method SortedList(s: set<string>) returns (rows: seq<string>)
    ensures Lists(rows, s)
  {
    var unsorted := Enumerate(s);
    rows := Sort(unsorted, StringAtMost);
    StringOrderIsTotal();
    SortSorts(unsorted, StringAtMost);
    DistinctPermutation(unsorted, rows);
    forall i, j | 0 <= i < j < |rows| ensures StringLess(rows[i], rows[j]) {
      assert StringAtMost(rows[i], rows[j]);
    }
  }

  /** A set has only one sorted list. */
  lemma {:induction false} ListIsUnique(a: seq<string>, b: seq<string>, s: set<string>)
    requires Lists(a, s) && Lists(b, s)
    ensures a == b
  {
    assert forall x :: x in a <==> x in s;
    assert forall x :: x in b <==> x in s;
    AscendingUnique(a, b);
  }

  // ---------------------------------------------------------------- sorted captures and combinations

  function StateName(s: State): string {
    match s
    case Running => "running"
    case Halted => "halted"
    case Unknown(name) => name
  }

  /** The sort key of a capture, most significant part first. */
  function SortKey(c: Capture): seq<string> {
    [c.board, c.mode, StateName(c.state), c.session]
  }

  predicate CaptureAtMost(a: Capture, b: Capture) {
    KeyAtMost(SortKey(a), SortKey(b))
  }

  lemma {:induction false} CaptureOrderIsTotal()
    ensures TotalPreorder(CaptureAtMost)
  {
    forall a: Capture, b: Capture ensures CaptureAtMost(a, b) || CaptureAtMost(b, a) {
      KeyOrderIsTotal(SortKey(a), SortKey(b));
    }
    forall a: Capture, b: Capture, c: Capture | CaptureAtMost(a, b) && CaptureAtMost(b, c) ensures CaptureAtMost(a, c) {
      KeyOrderIsTransitive(SortKey(a), SortKey(b), SortKey(c));
    }
  }

  predicate CombinationAtMost(a: Combination, b: Combination) {
    a.pair == b.pair || PairLess(a.pair, b.pair)
  }

  lemma {:induction false} CombinationOrderIsTotal()
    ensures TotalPreorder(CombinationAtMost)
  {
    forall a: Combination, b: Combination ensures CombinationAtMost(a, b) || CombinationAtMost(b, a) {
      StringTrichotomy(a.pair.board, b.pair.board);
      StringTrichotomy(a.pair.mode, b.pair.mode);
    }
    forall a: Combination, b: Combination, c: Combination | CombinationAtMost(a, b) && CombinationAtMost(b, c)
      ensures CombinationAtMost(a, c)
    {
      if PairLess(a.pair, b.pair) && PairLess(b.pair, c.pair) { PairLessTransitive(a.pair, b.pair, c.pair); }
    }
  }

  lemma {:induction false} PairLessTransitive(a: Pair, b: Pair, c: Pair)
    requires PairLess(a, b) && PairLess(b, c)
    ensures PairLess(a, c)
  {
    if StringLess(a.board, b.board) && StringLess(b.board, c.board) { StringTransitive(a.board, b.board, c.board); }
    if StringLess(a.mode, b.mode) && StringLess(b.mode, c.mode) { StringTransitive(a.mode, b.mode, c.mode); }
  }

  method CountPairs(captures: seq<Capture>) returns (counts: map<Pair, nat>)
    ensures counts.Keys == Pairs(captures)
    ensures forall p :: p in counts ==> counts[p] == PairCount(captures, p)
  {
    counts := map[];
    for i := 0 to |captures|
      invariant counts.Keys == Pairs(captures[..i])
      invariant forall p :: (if p in counts then counts[p] else 0) == PairCount(captures[..i], p)
    {
      PairsNext(captures, i);
      var p := PairOf(captures[i]);
      counts := counts[p := (if p in counts then counts[p] else 0) + 1];
    }
    assert captures[..|captures|] == captures;
  }

  lemma {:induction false} PairsNext(captures: seq<Capture>, i: nat)
    requires i < |captures|
    ensures Pairs(captures[..i + 1]) == Pairs(captures[..i]) + {PairOf(captures[i])}
    ensures forall p :: PairCount(captures[..i + 1], p) ==
                        PairCount(captures[..i], p) + if PairOf(captures[i]) == p then 1 else 0
  {
    assert captures[..i + 1] == captures[..i] + [captures[i]];
    assert captures[..i + 1][..i] == captures[..i];
    forall p | p in Pairs(captures[..i]) ensures p in Pairs(captures[..i + 1]) {
      var c :| c in captures[..i] && PairOf(c) == p;
      assert c in captures[..i + 1];
    }
    assert captures[i] in captures[..i + 1];
  }

  method Tabulate(captures: seq<Capture>) returns (rows: seq<Combination>)
    ensures Tabulates(rows, captures)
  {
    var counts := CountPairs(captures);
    var pairs := Enumerate(counts.Keys);
    var unsorted: seq<Combination> := [];
    for i := 0 to |pairs|
      invariant |unsorted| == i
      invariant forall k :: 0 <= k < i ==> unsorted[k] == Combination(pairs[k], counts[pairs[k]])
    {
      assert pairs[i] in counts.Keys;
      unsorted := unsorted + [Combination(pairs[i], counts[pairs[i]])];
    }
    rows := Sort(unsorted, CombinationAtMost);
    SortedTabulates(unsorted, pairs, captures);
  }

  lemma {:induction false} SortedTabulates(unsorted: seq<Combination>, pairs: seq<Pair>, captures: seq<Capture>)
    requires Distinct(pairs) && Pairs(captures) == (set x | x in pairs) && |unsorted| == |pairs|
    requires forall k :: 0 <= k < |pairs| ==> unsorted[k] == Combination(pairs[k], PairCount(captures, pairs[k]))
    ensures Tabulates(Sort(unsorted, CombinationAtMost), captures)
  {
    var rows := Sort(unsorted, CombinationAtMost);
    CombinationOrderIsTotal();
    SortSorts(unsorted, CombinationAtMost);
    DistinctPermutation(unsorted, rows);
    forall i | 0 <= i < |rows| ensures rows[i].count == PairCount(captures, rows[i].pair) && rows[i].pair in Pairs(captures) {
      assert rows[i] in unsorted;
      var k :| 0 <= k < |unsorted| && unsorted[k] == rows[i];
      assert pairs[k] in pairs;
    }
    forall i, j | 0 <= i < j < |rows| ensures PairLess(rows[i].pair, rows[j].pair) {
      assert CombinationAtMost(rows[i], rows[j]) && rows[i] != rows[j];
    }
    forall p | p in Pairs(captures) ensures exists i :: 0 <= i < |rows| && rows[i].pair == p {
      var k :| 0 <= k < |pairs| && pairs[k] == p;
      assert unsorted[k] in unsorted;
      var i :| 0 <= i < |rows| && rows[i] == unsorted[k];
    }
  }

  // ---------------------------------------------------------------- the matrix

  function SessionKeys(captures: seq<Capture>): set<SessionKey> {
    set c | c in captures :: KeyOf(c)
  }

  datatype AddFault = ConflictingIdentity | DuplicateSession

  class CaptureEvidenceMatrix {
    var captures: seq<Capture>
    var sessionKeys: set<SessionKey>
    var boardIdentities: map<string, BoardIdentity>

    /** The two indexes hold exactly what the captures say, and the captures are consistent. */
    ghost predicate Valid()
      reads this
    {
      && sessionKeys == SessionKeys(captures)
      && IdentitiesFit(boardIdentities, captures)
      && SessionsDistinct(captures)
    }

    constructor ()
      ensures Valid() && captures == []
    {
      captures, sessionKeys, boardIdentities := [], {}, map[];
    }

    /** Adds one verified capture unless it contradicts its board's identity or repeats a session. */
    method Add(evidence: Capture) returns (fault: Option<AddFault>)
      requires Valid()
      modifies this
      ensures Valid()
      ensures fault == if exists c :: c in old(captures) && c.board == evidence.board && IdentityOf(c) != IdentityOf(evidence)
                       then Some(ConflictingIdentity)
                       else if exists c :: c in old(captures) && KeyOf(c) == KeyOf(evidence) then Some(DuplicateSession)
                       else None
      ensures captures == if fault.None? then old(captures) + [evidence] else old(captures)
    {
      var identity := IdentityOf(evidence);
      if evidence.board in boardIdentities && boardIdentities[evidence.board] != identity {
        var c :| c in captures && c.board == evidence.board;
        return Some(ConflictingIdentity);
      }
      FitNext(boardIdentities, captures, evidence);
      boardIdentities := boardIdentities[evidence.board := identity];
      var key := KeyOf(evidence);
      if key in sessionKeys {
        return Some(DuplicateSession);
      }
      sessionKeys := sessionKeys + {key};
      AppendKeeps(captures, evidence);
      captures := captures + [evidence];
      return None;
    }

    method AssertCoverage(m: Minima) returns (r: Result<bool, ()>)
      requires Valid()
      ensures r.Raised? <==> !Positive(m)
      ensures r.Ok? ==> (r.value <==> Covers(captures, m))
    {
      if !Positive(m) { return Raised(()); }
      if |Boards(captures)| < m.boards || |Modes(captures)| < m.modes { return Ok(false); }
      if |McuFamilies(captures)| < m.mcuFamilies || |Rtoses(captures)| < m.rtoses { return Ok(false); }
      var qualified := CountQualified(m.repetitions);
      return Ok(m.modes <= |qualified|);
    }

    method CountQualified(repetitions: int) returns (qualified: set<string>)
      ensures qualified == QualifiedModes(captures, repetitions)
    {
      qualified := {};
      var remaining := Modes(captures);
      while remaining != {}
        invariant remaining <= Modes(captures)
        invariant qualified == QualifiedModes(captures, repetitions) - remaining
        decreases remaining
      {
        var mode :| mode in remaining;
        remaining := remaining - {mode};
        var isQualified := ModeIsQualified(mode, repetitions);
        if isQualified { qualified := qualified + {mode}; }
      }
    }

    method ModeIsQualified(mode: string, repetitions: int) returns (qualified: bool)
      ensures qualified <==> Qualified(captures, mode, repetitions)
    {
      var boards := Boards(captures);
      while boards != {}
        invariant boards <= Boards(captures)
        invariant forall b :: b in Boards(captures) && b !in boards ==> QualifiedOn(captures, Pair(b, mode), repetitions)
        decreases boards
      {
        var board :| board in boards;
        boards := boards - {board};
        if PairCount(captures, Pair(board, mode)) < repetitions || !({Running, Halted} <= PairStates(captures, Pair(board, mode))) {
          return false;
        }
      }
      return true;
    }

    method ToDocument() returns (d: Document)
      ensures Describes(d) && multiset(d.captures) == multiset(captures) && Sorted(d.captures, CaptureAtMost)
    {
      var sorted := Sort(captures, CaptureAtMost);
      CaptureOrderIsTotal();
      SortSorts(captures, CaptureAtMost);
      var boards := SortedList(Boards(sorted));
      var mcuFamilies := SortedList(McuFamilies(sorted));
      var modes := SortedList(Modes(sorted));
      var rtoses := SortedList(Rtoses(sorted));
      var probes := SortedList(Probes(sorted));
      var architectures := SortedList(Architectures(sorted));
      var combinations := Tabulate(sorted);
      d := Document(boards, mcuFamilies, modes, rtoses, probes, architectures, combinations, sorted);
    }
  }

  /** One identity is recorded for every board, and every capture of the board has it. */
  ghost predicate IdentitiesFit(identities: map<string, BoardIdentity>, captures: seq<Capture>) {
    && identities.Keys == Boards(captures)
    && forall c :: c in captures ==> identities[c.board] == IdentityOf(c)
  }

  lemma {:induction false} FitMeansOneIdentity(identities: map<string, BoardIdentity>, captures: seq<Capture>)
    requires IdentitiesFit(identities, captures)
    ensures OneIdentityPerBoard(captures)
  {
    forall a, b | a in captures && b in captures && a.board == b.board ensures IdentityOf(a) == IdentityOf(b) {
      assert identities[a.board] == IdentityOf(a) && identities[b.board] == IdentityOf(b);
    }
  }

  lemma {:induction false} FitNext(identities: map<string, BoardIdentity>, captures: seq<Capture>, c: Capture)
    requires IdentitiesFit(identities, captures)
    ensures (c.board !in identities || identities[c.board] == IdentityOf(c)) ==>
              IdentitiesFit(identities[c.board := IdentityOf(c)], captures + [c])
    ensures (c.board in identities && identities[c.board] != IdentityOf(c)) ==>
              !OneIdentityPerBoard(captures + [c])
  {
    var all := captures + [c];
    BoardsNext(captures, c);
    assert forall x :: x in all <==> x in captures || x == c;
    if c.board in identities && identities[c.board] != IdentityOf(c) {
      var other :| other in captures && other.board == c.board;
      assert other in all && c in all && IdentityOf(other) != IdentityOf(c);
    }
  }

  lemma {:induction false} BoardsNext(captures: seq<Capture>, c: Capture)
    ensures Boards(captures + [c]) == Boards(captures) + {c.board}
  {
    assert forall x :: x in captures + [c] <==> x in captures || x == c;
  }

  lemma {:induction false} AppendKeeps(captures: seq<Capture>, c: Capture)
    ensures SessionKeys(captures + [c]) == SessionKeys(captures) + {KeyOf(c)}
    ensures SessionsDistinct(captures + [c]) <==> SessionsDistinct(captures) && KeyOf(c) !in SessionKeys(captures)
  {
    var all := captures + [c];
    assert c in all && forall x :: x in captures ==> x in all;
    assert all[|captures|] == c && forall i :: 0 <= i < |captures| ==> all[i] == captures[i];
    if SessionsDistinct(all) {
      forall x | x in captures ensures KeyOf(x) != KeyOf(c) {
        var i :| 0 <= i < |captures| && captures[i] == x;
        assert KeyOf(all[i]) != KeyOf(all[|captures|]);
      }
    }
  }
}
