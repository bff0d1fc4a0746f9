/** Evidence v2: the accepted captures together with one passing receipt per board and requirement. */
module EvidenceV2 {
  import opened Outcomes
  import opened Ordering
  import opened Prefixes
  import opened Texts
  import opened CaptureEvidence
  import opened CaptureMatrix
  import opened EvidenceV1
  import opened MatrixAcceptance
  import opened Sums
  import V = VerificationReceipt

  /** A receipt with the identity of its Session and the two bindings that tie it to a capture. */
  datatype SessionReceipt = SessionReceipt(board: string, session: string, content: V.Receipt, manifest: string, health: string)

  datatype Identity = Identity(board: string, session: string, kind: V.Kind, scenario: Option<V.Scenario>)

  datatype Entry = Entry(identity: Identity, digest: string, receipt: SessionReceipt)

  datatype DocumentV2 = DocumentV2(
    base: Document, requiredKinds: seq<V.Kind>, requiredFaults: seq<V.Scenario>,
    boards: seq<string>, receiptCount: int, entries: seq<Entry>)

  datatype CaptureSource = Version1(v1: Document) | Version2(v2: DocumentV2)

  /** The canonical hash; nothing is assumed of it but the form of its output. */
  type Digest = SessionReceipt -> string

  ghost predicate Hashes(digest: Digest) {
    forall r :: Sha256(digest(r))
  }

  const REQUIRED_KINDS: seq<V.Kind> := [V.NativeTimeline, V.Resources, V.FaultInjection]
  const REQUIRED_FAULTS: seq<V.Scenario> :=
    [V.TraceOverflow, V.FlowError, V.SamplingBufferFull, V.ElfMismatch,
     V.Trace32DisconnectRecovery, V.DriverDisconnectRecovery, V.CmmAbortRecovery]

  function IdentityIn(r: SessionReceipt): Identity {
    Identity(r.board, r.session, r.content.kind, r.content.scenario)
  }

  function EntryOf(r: SessionReceipt, digest: Digest): Entry {
    Entry(IdentityIn(r), digest(r), r)
  }

  predicate ValidReceipt(r: SessionReceipt) {
    Bounded(r.board, MAX_STRING) && Bounded(r.session, 64) && PortableSession(r.session) && V.Validates(r.content)
  }

  predicate Passing(r: SessionReceipt) {
    ValidReceipt(r) && r.content.pass
  }

  // ---------------------------------------------------------------- what the entries cover

  function EntryBoards(entries: seq<Entry>): set<string> { set e | e in entries :: e.identity.board }

  function Identities(entries: seq<Entry>): set<Identity> { set e | e in entries :: e.identity }

  function KindsOn(entries: seq<Entry>, b: string): set<V.Kind> {
    set e | e in entries && e.identity.board == b :: e.identity.kind
  }

  function FaultsOn(entries: seq<Entry>, b: string): set<V.Scenario> {
    set e | e in entries && e.identity.board == b && e.identity.kind.FaultInjection? && e.identity.scenario.Some? ::
      e.identity.scenario.value
  }

  predicate CompleteOn(entries: seq<Entry>, b: string) {
    (forall k :: k in REQUIRED_KINDS ==> k in KindsOn(entries, b)) && forall f :: f in REQUIRED_FAULTS ==> f in FaultsOn(entries, b)
  }

  /** A timeline or resource receipt belongs to a capture with the same manifest and health. */
  ghost predicate BoundToCapture(e: Entry, captures: seq<Capture>) {
    !e.identity.kind.FaultInjection? ==>
      exists c :: c in captures && KeyOf(c) == SessionKey(e.identity.board, e.identity.session)
        && c.manifest == e.receipt.manifest && c.health == e.receipt.health
  }

  /** The entry says of its receipt what the receipt says itself. */
  predicate ReadsBack(e: Entry, digest: Digest) {
    Passing(e.receipt) && e == EntryOf(e.receipt, digest)
  }

  ghost predicate EntryFits(e: Entry, captures: seq<Capture>, digest: Digest) {
    ReadsBack(e, digest) && BoundToCapture(e, captures)
  }

  ghost predicate IdentitiesDistinct(entries: seq<Entry>) {
    forall i, j :: 0 <= i < j < |entries| ==> entries[i].identity != entries[j].identity
  }

  ghost predicate EntriesFit(entries: seq<Entry>, captures: seq<Capture>, digest: Digest) {
    (forall e :: e in entries ==> EntryFits(e, captures, digest)) && IdentitiesDistinct(entries)
  }

  ghost predicate Covered(entries: seq<Entry>, boards: set<string>) {
    EntryBoards(entries) == boards && forall b :: b in boards ==> CompleteOn(entries, b)
  }

  ghost predicate AcceptableV2(d: DocumentV2, digest: Digest) {
    && Acceptable(d.base)
    && d.requiredKinds == REQUIRED_KINDS && d.requiredFaults == REQUIRED_FAULTS
    && UniqueStrings(d.boards, 1) && (set b | b in d.boards) == EntryBoards(d.entries)
    && d.receiptCount == |d.entries| <= MAX_LIST
    && EntriesFit(d.entries, d.base.captures, digest)
    && Covered(d.entries, Boards(d.base.captures))
  }

  // ---------------------------------------------------------------- the validator

  method IndexCaptures(captures: seq<Capture>) returns (index: Option<map<SessionKey, Capture>>)
    ensures index.Some? <==> SessionsDistinct(captures)
    ensures index.Some? ==> Indexes(index.value, captures)
  {
    var m: map<SessionKey, Capture> := map[];
    for i := 0 to |captures|
      invariant SessionsDistinct(captures[..i]) && Indexes(m, captures[..i])
    {
      var key := KeyOf(captures[i]);
      IndexNext(m, captures[..i], captures[i]);
      PrefixGrows(captures, i);
      PrefixKeeps(captures, i + 1);
      if key in m { return None; }
      m := m[key := captures[i]];
    }
    PrefixIsWhole(captures);
    return Some(m);
  }

  ghost predicate Indexes(index: map<SessionKey, Capture>, captures: seq<Capture>) {
    && index.Keys == SessionKeys(captures)
    && forall k :: k in index ==> index[k] in captures && KeyOf(index[k]) == k
  }

  lemma {:induction false} IndexNext(index: map<SessionKey, Capture>, captures: seq<Capture>, c: Capture)
    requires SessionsDistinct(captures) && Indexes(index, captures)
    ensures SessionsDistinct(captures + [c]) <==> KeyOf(c) !in index
    ensures Indexes(index[KeyOf(c) := c], captures + [c])
  {
    AppendKeeps(captures, c);
  }

  lemma {:induction false} IndexFindsTheCapture(index: map<SessionKey, Capture>, captures: seq<Capture>, k: SessionKey)
    requires SessionsDistinct(captures) && Indexes(index, captures)
    ensures forall c :: c in captures && KeyOf(c) == k ==> k in index && index[k] == c
  {
    forall c | c in captures && KeyOf(c) == k ensures k in index && index[k] == c {
      assert k in SessionKeys(captures);
      var i :| 0 <= i < |captures| && captures[i] == c;
      var j :| 0 <= j < |captures| && captures[j] == index[k];
    }
  }

  method CheckEntry(e: Entry, index: map<SessionKey, Capture>, ghost captures: seq<Capture>, digest: Digest) returns (ok: bool)
    requires SessionsDistinct(captures) && Indexes(index, captures) && Hashes(digest)
    ensures ok <==> EntryFits(e, captures, digest)
  {
    var id := e.identity;
    if !Bounded(id.board, MAX_STRING) || !Bounded(id.session, 64) { return false; }
    if !ValidReceipt(e.receipt) || !e.receipt.content.pass { return false; }
    if IdentityIn(e.receipt) != id { return false; }
    if !Sha256(e.digest) || e.digest != digest(e.receipt) { return false; }
    if !id.kind.FaultInjection? {
      var key := SessionKey(id.board, id.session);
      IndexFindsTheCapture(index, captures, key);
      if key !in index { return false; }
      if e.receipt.manifest != index[key].manifest || e.receipt.health != index[key].health { return false; }
    }
    return true;
  }

  /** What the loop over the entries collects. */
  datatype Seen = Seen(identities: set<Identity>, boards: set<string>, kinds: map<string, set<V.Kind>>, faults: map<string, set<V.Scenario>>)

  function At<T>(m: map<string, set<T>>, b: string): set<T> {
    if b in m then m[b] else {}
  }

  ghost predicate Collected(seen: Seen, entries: seq<Entry>) {
    && seen.identities == Identities(entries) && seen.boards == EntryBoards(entries)
    && forall b :: At(seen.kinds, b) == KindsOn(entries, b) && At(seen.faults, b) == FaultsOn(entries, b)
  }

  function Collect(seen: Seen, id: Identity): Seen {
    Seen(seen.identities + {id}, seen.boards + {id.board},
         seen.kinds[id.board := At(seen.kinds, id.board) + {id.kind}],
         if id.kind.FaultInjection? && id.scenario.Some?
         then seen.faults[id.board := At(seen.faults, id.board) + {id.scenario.value}] else seen.faults)
  }

  lemma {:induction false} CollectedNext(seen: Seen, entries: seq<Entry>, e: Entry)
    requires Collected(seen, entries)
    ensures Collected(Collect(seen, e.identity), entries + [e])
  {
    var all := entries + [e];
    assert forall x :: x in all <==> x in entries || x == e;
    assert Identities(all) == Identities(entries) + {e.identity};
    assert EntryBoards(all) == EntryBoards(entries) + {e.identity.board};
    forall b ensures At(Collect(seen, e.identity).kinds, b) == KindsOn(all, b)
             ensures At(Collect(seen, e.identity).faults, b) == FaultsOn(all, b)
    {
      OnBoardNext(entries, e, b);
    }
  }

  lemma {:induction false} OnBoardNext(entries: seq<Entry>, e: Entry, b: string)
    ensures KindsOn(entries + [e], b) == KindsOn(entries, b) + if e.identity.board == b then {e.identity.kind} else {}
    ensures FaultsOn(entries + [e], b) == FaultsOn(entries, b) +
              if e.identity.board == b && e.identity.kind.FaultInjection? && e.identity.scenario.Some?
              then {e.identity.scenario.value} else {}
  {
    assert forall x :: x in entries + [e] <==> x in entries || x == e;
  }

  lemma {:induction false} DistinctNext(entries: seq<Entry>, e: Entry)
    ensures IdentitiesDistinct(entries + [e]) <==> IdentitiesDistinct(entries) && e.identity !in Identities(entries)
  {
    var all := entries + [e];
    assert all[|entries|] == e && forall i :: 0 <= i < |entries| ==> all[i] == entries[i];
    if IdentitiesDistinct(all) {
      forall x | x in entries ensures x.identity != e.identity {
        var i :| 0 <= i < |entries| && entries[i] == x;
        assert all[i].identity != all[|entries|].identity;
      }
    }
  }

  lemma {:induction false} ScanNext(seen: Seen, entries: seq<Entry>, e: Entry, captures: seq<Capture>, digest: Digest)
    requires Collected(seen, entries) && EntriesFit(entries, captures, digest)
    ensures Collected(Collect(seen, e.identity), entries + [e])
    ensures EntriesFit(entries + [e], captures, digest) <==> EntryFits(e, captures, digest) && e.identity !in seen.identities
  {
    CollectedNext(seen, entries, e);
    DistinctNext(entries, e);
    AppendMember(entries, e);
  }

  lemma {:induction false} AppendMember<T>(s: seq<T>, x: T)
    ensures forall y :: y in s + [x] <==> y in s || y == x
  {
  }

  lemma {:induction false} FitPrefix(entries: seq<Entry>, n: nat, captures: seq<Capture>, digest: Digest)
    requires n <= |entries|
    ensures EntriesFit(entries, captures, digest) ==> EntriesFit(entries[..n], captures, digest)
  {
    assert forall e :: e in entries[..n] ==> e in entries;
    DistinctPrefix(entries, n);
  }

  lemma {:induction false} DistinctPrefix(entries: seq<Entry>, n: nat)
    requires n <= |entries|
    ensures IdentitiesDistinct(entries) ==> IdentitiesDistinct(entries[..n])
  {
  }

  method ScanEntries(entries: seq<Entry>, captures: seq<Capture>, digest: Digest) returns (seen: Option<Seen>)
    requires SessionsDistinct(captures) && Hashes(digest)
    ensures seen.Some? <==> EntriesFit(entries, captures, digest)
    ensures seen.Some? ==> Collected(seen.value, entries)
  {
    var index := IndexCaptures(captures);
    if index.None? { assert false; }
    var s := Seen({}, {}, map[], map[]);
    for i := 0 to |entries|
      invariant EntriesFit(entries[..i], captures, digest)
      invariant Collected(s, entries[..i])
    {
      var e := entries[i];
      ScanNext(s, entries[..i], e, captures, digest);
      PrefixGrows(entries, i);
      FitPrefix(entries, i + 1, captures, digest);
      if e.identity in s.identities { return None; }
      var fits := CheckEntry(e, index.value, captures, digest);
      if !fits { return None; }
      s := Collect(s, e.identity);
    }
    PrefixIsWhole(entries);
    return Some(s);
  }

  method BoardsComplete(boards: seq<string>, seen: Seen, ghost entries: seq<Entry>) returns (complete: bool)
    requires Collected(seen, entries)
    ensures complete <==> Covered(entries, set b | b in boards)
  {
    complete := (set b | b in boards) == seen.boards;
    for i := 0 to |boards|
      invariant complete <==> EntryBoards(entries) == (set b | b in boards) && forall k :: 0 <= k < i ==> CompleteOn(entries, boards[k])
    {
      var b := boards[i];
      assert At(seen.kinds, b) == KindsOn(entries, b) && At(seen.faults, b) == FaultsOn(entries, b);
      if !((set k | k in REQUIRED_KINDS) <= At(seen.kinds, b) && (set f | f in REQUIRED_FAULTS) <= At(seen.faults, b)) {
        complete := false;
      }
    }
    assert forall b :: b in (set b | b in boards) ==> b in boards;
  }

  method AssertCoverage(d: DocumentV2, digest: Digest) returns (ok: bool)
    requires Hashes(digest)
    ensures ok <==> AcceptableV2(d, digest)
  {
    var base := ValidateV1(d.base);
    if !base { return false; }
    if d.requiredKinds != REQUIRED_KINDS || d.requiredFaults != REQUIRED_FAULTS { return false; }
    if !UniqueStrings(d.boards, 1) { return false; }
    if MAX_LIST < |d.entries| || d.receiptCount != |d.entries| { return false; }
    var seen := ScanEntries(d.entries, d.base.captures, digest);
    if seen.None? { return false; }
    if (set b | b in d.boards) != seen.value.boards { return false; }
    var complete := BoardsComplete(d.base.boards, seen.value, d.entries);
    return complete;
  }

  // ---------------------------------------------------------------- the builder

  function KindName(k: V.Kind): string {
    match k
    case Resources => "resources"
    case NativeTimeline => "native_timeline"
    case FaultInjection => "fault_injection"
  }

  function ScenarioName(s: V.Scenario): string {
    match s
    case TraceOverflow => "trace_overflow"
    case FlowError => "flow_error"
    case SamplingBufferFull => "sampling_buffer_full"
    case ElfMismatch => "elf_mismatch"
    case Trace32DisconnectRecovery => "trace32_disconnect_recovery"
    case DriverDisconnectRecovery => "driver_disconnect_recovery"
    case CmmAbortRecovery => "cmm_abort_recovery"
  }

  function EntryKey(id: Identity): seq<string> {
    [id.board, KindName(id.kind), if id.scenario.None? then "" else ScenarioName(id.scenario.value), id.session]
  }

  predicate EntryAtMost(a: Entry, b: Entry) {
    KeyAtMost(EntryKey(a.identity), EntryKey(b.identity))
  }

  function EntriesOf(receipts: seq<SessionReceipt>, digest: Digest): seq<Entry> {
    if receipts == [] then []
    else EntriesOf(receipts[..|receipts| - 1], digest) + [EntryOf(receipts[|receipts| - 1], digest)]
  }

  function V1Of(source: CaptureSource): Document {
    match source
    case Version1(d) => d
    case Version2(d) => d.base
  }

  ghost predicate SourceAccepted(source: CaptureSource, digest: Digest) {
    match source
    case Version1(d) => Acceptable(d)
    case Version2(d) => AcceptableV2(d, digest)
  }

  ghost predicate AllPassing(receipts: seq<SessionReceipt>) {
    forall r :: r in receipts ==> Passing(r)
  }

  /** The document that the receipts determine. */
  ghost predicate Assembled(d: DocumentV2, base: Document, receipts: seq<SessionReceipt>, digest: Digest) {
    && d.base == base && d.requiredKinds == REQUIRED_KINDS && d.requiredFaults == REQUIRED_FAULTS
    && d.entries == Sort(EntriesOf(receipts, digest), EntryAtMost)
    && d.receiptCount == |receipts|
    && Lists(d.boards, EntryBoards(d.entries))
  }

  ghost predicate Buildable(source: CaptureSource, receipts: seq<SessionReceipt>, digest: Digest) {
    var base, entries := V1Of(source), EntriesOf(receipts, digest);
    && SourceAccepted(source, digest) && AllPassing(receipts) && |receipts| <= MAX_LIST
    && IdentitiesDistinct(entries)
    && (forall e :: e in entries ==> BoundToCapture(e, base.captures))
    && Covered(entries, Boards(base.captures))
  }

  ghost predicate Builds(source: CaptureSource, receipts: seq<SessionReceipt>, digest: Digest, r: Option<DocumentV2>) {
    && (r.Some? <==> Buildable(source, receipts, digest))
    && (r.Some? ==> Assembled(r.value, V1Of(source), receipts, digest) && AcceptableV2(r.value, digest))
  }

  lemma {:induction false} EntryOrderIsTotal()
    ensures TotalPreorder(EntryAtMost)
  {
    forall a: Entry, b: Entry ensures EntryAtMost(a, b) || EntryAtMost(b, a) {
      KeyOrderIsTotal(EntryKey(a.identity), EntryKey(b.identity));
    }
    forall a: Entry, b: Entry, c: Entry | EntryAtMost(a, b) && EntryAtMost(b, c) ensures EntryAtMost(a, c) {
      KeyOrderIsTransitive(EntryKey(a.identity), EntryKey(b.identity), EntryKey(c.identity));
    }
  }

  lemma {:induction false} KindNamesDiffer(a: V.Kind, b: V.Kind)
    ensures KindName(a) == KindName(b) ==> a == b
  {
    assert KindName(a)[0] == KindName(b)[0] ==> a == b;
  }

  lemma {:induction false} ScenarioNamesDiffer(a: V.Scenario, b: V.Scenario)
    ensures ScenarioName(a) != "" && (ScenarioName(a) == ScenarioName(b) ==> a == b)
  {
    assert ScenarioName(a)[0] == ScenarioName(b)[0] && ScenarioName(a)[6] == ScenarioName(b)[6]
           && |ScenarioName(a)| == |ScenarioName(b)| ==>
             a == b;
  }

  /** The sort key determines the identity: writing a missing scenario as "" collides with none. */
  lemma {:induction false} KeyDeterminesIdentity(a: Identity, b: Identity)
    requires EntryKey(a) == EntryKey(b)
    ensures a == b
  {
    var x, y := EntryKey(a), EntryKey(b);
    assert x[0] == y[0] && x[1] == y[1] && x[2] == y[2] && x[3] == y[3];
    KindNamesDiffer(a.kind, b.kind);
    if a.scenario.Some? {
      ScenarioNamesDiffer(a.scenario.value, if b.scenario.Some? then b.scenario.value else a.scenario.value);
    }
    if b.scenario.Some? { ScenarioNamesDiffer(b.scenario.value, b.scenario.value); }
  }

  /** On de-duplicated entries the sort order is strict. */
  lemma {:induction false} OrderSeparatesEntries(entries: seq<Entry>)
    requires IdentitiesDistinct(entries)
    ensures Separates(EntryAtMost, entries)
  {
    forall a, b | a in entries && b in entries && EntryAtMost(a, b) && EntryAtMost(b, a) ensures a == b {
      KeyAntisymmetric(EntryKey(a.identity), EntryKey(b.identity));
      KeyDeterminesIdentity(a.identity, b.identity);
      var i :| 0 <= i < |entries| && entries[i] == a;
      var j :| 0 <= j < |entries| && entries[j] == b;
    }
  }

  lemma {:induction false} EntriesOfIndex(receipts: seq<SessionReceipt>, digest: Digest)
    ensures |EntriesOf(receipts, digest)| == |receipts|
    ensures forall i :: 0 <= i < |receipts| ==> EntriesOf(receipts, digest)[i] == EntryOf(receipts[i], digest)
  {
    if receipts != [] { EntriesOfIndex(receipts[..|receipts| - 1], digest); }
  }

  lemma {:induction false} EntriesOfConcat(a: seq<SessionReceipt>, b: seq<SessionReceipt>, digest: Digest)
    ensures EntriesOf(a + b, digest) == EntriesOf(a, digest) + EntriesOf(b, digest)
  {
    if b == [] {
      assert a + b == a;
    } else {
      EntriesOfConcat(a, b[..|b| - 1], digest);
      assert (a + b)[..|a + b| - 1] == a + b[..|b| - 1];
    }
  }

  lemma {:induction false} TakeOut<T>(s: seq<T>, k: nat)
    requires k < |s|
    ensures multiset(s) == multiset(s[..k] + s[k + 1..]) + multiset{s[k]}
  {
    assert s == s[..k] + [s[k]] + s[k + 1..];
  }

  lemma {:induction false} EntriesOfWithout(b: seq<SessionReceipt>, k: nat, digest: Digest)
    requires k < |b|
    ensures multiset(EntriesOf(b, digest)) ==
            multiset(EntriesOf(b[..k] + b[k + 1..], digest)) + multiset{EntryOf(b[k], digest)}
  {
    EntriesOfIndex(b, digest);
    EntriesOfIndex(b[..k] + b[k + 1..], digest);
    var all := EntriesOf(b, digest);
    assert EntriesOf(b[..k] + b[k + 1..], digest) == all[..k] + all[k + 1..];
    TakeOut(all, k);
  }

  lemma {:induction false} EntriesOfPermutation(a: seq<SessionReceipt>, b: seq<SessionReceipt>, digest: Digest)
    requires multiset(a) == multiset(b)
    ensures multiset(EntriesOf(a, digest)) == multiset(EntriesOf(b, digest))
    decreases |a|
  {
    SameSize(a, b);
    if a != [] {
      var x, init := a[|a| - 1], a[..|a| - 1];
      assert a == init + [x];
      var k := PickOut(b, x);
      EntriesOfPermutation(init, b[..k] + b[k + 1..], digest);
      EntriesOfWithout(b, k, digest);
    }
  }

  /** The order of entries is irrelevant to what they cover. */
  lemma {:induction false} CoveredBySameMembers(a: seq<Entry>, b: seq<Entry>, boards: set<string>)
    requires forall e :: e in a <==> e in b
    ensures EntryBoards(a) == EntryBoards(b) && (Covered(a, boards) <==> Covered(b, boards))
  {
    assert EntryBoards(a) == EntryBoards(b);
    forall x ensures KindsOn(a, x) == KindsOn(b, x) && FaultsOn(a, x) == FaultsOn(b, x) {}
    assert forall x :: CompleteOn(a, x) <==> CompleteOn(b, x);
  }

  method ReadReceipts(receipts: seq<SessionReceipt>, digest: Digest) returns (entries: Option<seq<Entry>>)
    ensures entries.Some? <==> Readable(receipts, digest)
    ensures entries.Some? ==> entries.value == EntriesOf(receipts, digest)
  {
    var rows: seq<Entry> := [];
    var seen: set<Identity> := {};
    for i := 0 to |receipts|
      invariant rows == EntriesOf(receipts[..i], digest)
      invariant Readable(receipts[..i], digest)
      invariant seen == Identities(rows)
    {
      var receipt := receipts[i];
      var entry := EntryOf(receipt, digest);
      PrefixGrows(receipts, i);
      ReadNext(receipts[..i], receipt, digest);
      ReadPrefix(receipts, i + 1, digest);
      if !ValidReceipt(receipt) || !receipt.content.pass { return None; }
      if IdentityIn(receipt) in seen { return None; }
      seen := seen + {IdentityIn(receipt)};
      rows := rows + [entry];
    }
    PrefixIsWhole(receipts);
    return Some(rows);
  }

  ghost predicate Readable(receipts: seq<SessionReceipt>, digest: Digest) {
    AllPassing(receipts) && IdentitiesDistinct(EntriesOf(receipts, digest))
  }

  lemma {:induction false} ReadNext(receipts: seq<SessionReceipt>, r: SessionReceipt, digest: Digest)
    requires Readable(receipts, digest)
    ensures EntriesOf(receipts + [r], digest) == EntriesOf(receipts, digest) + [EntryOf(r, digest)]
    ensures Identities(EntriesOf(receipts + [r], digest)) == Identities(EntriesOf(receipts, digest)) + {IdentityIn(r)}
    ensures Readable(receipts + [r], digest) <==> Passing(r) && IdentityIn(r) !in Identities(EntriesOf(receipts, digest))
  {
    var all, rows, e := receipts + [r], EntriesOf(receipts, digest), EntryOf(r, digest);
    assert all[..|receipts|] == receipts;
    AppendMember(receipts, r);
    DistinctNext(rows, e);
    IdentitiesNext(rows, e);
  }

  lemma {:induction false} ReadPrefix(receipts: seq<SessionReceipt>, n: nat, digest: Digest)
    requires n <= |receipts|
    ensures Readable(receipts, digest) ==> Readable(receipts[..n], digest)
  {
    assert receipts == receipts[..n] + receipts[n..];
    EntriesOfConcat(receipts[..n], receipts[n..], digest);
    EntriesOfIndex(receipts[..n], digest);
    assert EntriesOf(receipts, digest)[..n] == EntriesOf(receipts[..n], digest);
    DistinctPrefix(EntriesOf(receipts, digest), n);
  }

  lemma {:induction false} IdentitiesNext(entries: seq<Entry>, e: Entry)
    ensures Identities(entries + [e]) == Identities(entries) + {e.identity}
  {
    assert forall x :: x in entries + [e] <==> x in entries || x == e;
  }

  lemma {:induction false} SortedEntries(entries: seq<Entry>)
    ensures multiset(Sort(entries, EntryAtMost)) == multiset(entries)
    ensures |Sort(entries, EntryAtMost)| == |entries|
    ensures forall e :: e in Sort(entries, EntryAtMost) <==> e in entries
    ensures IdentitiesDistinct(entries) ==> IdentitiesDistinct(Sort(entries, EntryAtMost))
  {
    EntryOrderIsTotal();
    SortSorts(entries, EntryAtMost);
    SameMembers(entries, Sort(entries, EntryAtMost));
    if IdentitiesDistinct(entries) {
      DistinctKeysPermutation(entries, Sort(entries, EntryAtMost), (e: Entry) => e.identity);
    }
  }

  ghost predicate BoundAndCovered(base: Document, entries: seq<Entry>) {
    && |entries| <= MAX_LIST
    && (forall e :: e in entries ==> BoundToCapture(e, base.captures))
    && Covered(entries, Boards(base.captures))
  }

  lemma {:induction false} AssembledEntries(receipts: seq<SessionReceipt>, digest: Digest)
    requires Readable(receipts, digest)
    ensures var rows := Sort(EntriesOf(receipts, digest), EntryAtMost);
            && IdentitiesDistinct(rows)
            && forall e :: e in rows ==> ReadsBack(e, digest)
  {
    var entries := EntriesOf(receipts, digest);
    SortedEntries(entries);
    EntriesOfIndex(receipts, digest);
    forall e | e in entries ensures ReadsBack(e, digest) {
      var k :| 0 <= k < |entries| && entries[k] == e;
      assert receipts[k] in receipts;
    }
  }

  lemma {:induction false} FitMeansBound(rows: seq<Entry>, entries: seq<Entry>, captures: seq<Capture>, digest: Digest)
    requires forall e :: e in rows <==> e in entries
    requires IdentitiesDistinct(rows)
    requires forall e :: e in rows ==> ReadsBack(e, digest)
    ensures EntriesFit(rows, captures, digest) <==> forall e :: e in entries ==> BoundToCapture(e, captures)
  {
    forall e | e in rows ensures EntryFits(e, captures, digest) <==> BoundToCapture(e, captures) {
      assert ReadsBack(e, digest);
    }
  }

  /** For passing, distinct receipts the final coverage assertion asks for no more than coverage. */
  lemma {:induction false} AssembledAcceptable(d: DocumentV2, base: Document, receipts: seq<SessionReceipt>, digest: Digest)
    requires Acceptable(base) && Readable(receipts, digest)
    requires Assembled(d, base, receipts, digest)
    ensures AcceptableV2(d, digest) <==> BoundAndCovered(base, EntriesOf(receipts, digest))
  {
    var entries := EntriesOf(receipts, digest);
    SortedEntries(entries);
    EntriesOfIndex(receipts, digest);
    AssembledEntries(receipts, digest);
    CoveredBySameMembers(entries, d.entries, Boards(base.captures));
    FitMeansBound(d.entries, entries, base.captures, digest);
    if Covered(entries, Boards(base.captures)) {
      ListIsUnique(d.boards, base.boards, Boards(base.captures));
    }
  }

  method AcceptSource(source: CaptureSource, digest: Digest) returns (accepted: bool)
    requires Hashes(digest)
    ensures accepted <==> SourceAccepted(source, digest)
  {
    match source
    case Version1(d) => accepted := ValidateV1(d);
    case Version2(d) => accepted := AssertCoverage(d, digest);
  }

  method BuildV2(source: CaptureSource, receipts: seq<SessionReceipt>, digest: Digest) returns (r: Option<DocumentV2>)
    requires Hashes(digest)
    ensures Builds(source, receipts, digest, r)
  {
    var accepted := AcceptSource(source, digest);
    if !accepted { return None; }
    BuildableMeans(source, receipts, digest);
    var entries := ReadReceipts(receipts, digest);
    if entries.None? { return None; }
    AcceptedSourceHasBase(source, digest);
    r := Assemble(V1Of(source), receipts, entries.value, digest);
  }

  lemma {:induction false} BuildableMeans(source: CaptureSource, receipts: seq<SessionReceipt>, digest: Digest)
    requires SourceAccepted(source, digest)
    ensures Buildable(source, receipts, digest) <==>
            Readable(receipts, digest) && BoundAndCovered(V1Of(source), EntriesOf(receipts, digest))
  {
    EntriesOfIndex(receipts, digest);
  }

  lemma {:induction false} AcceptedSourceHasBase(source: CaptureSource, digest: Digest)
    requires SourceAccepted(source, digest)
    ensures Acceptable(V1Of(source))
  {
  }

  method Assemble(base: Document, ghost receipts: seq<SessionReceipt>, entries: seq<Entry>, digest: Digest)
    returns (r: Option<DocumentV2>)
    requires Hashes(digest) && Acceptable(base) && Readable(receipts, digest) && entries == EntriesOf(receipts, digest)
    ensures r.Some? <==> BoundAndCovered(base, entries)
    ensures r.Some? ==> Assembled(r.value, base, receipts, digest) && AcceptableV2(r.value, digest)
  {
    var sorted := Sort(entries, EntryAtMost);
    SortedEntries(entries);
    EntriesOfIndex(receipts, digest);
    var boards := SortedList(EntryBoards(sorted));
    var document := DocumentV2(base, REQUIRED_KINDS, REQUIRED_FAULTS, boards, |sorted|, sorted);
    AssembledAcceptable(document, base, receipts, digest);
    var covered := AssertCoverage(document, digest);
    return if covered then Some(document) else None;
  }

  // ---------------------------------------------------------------- canonical documents

  lemma {:induction false} BuildableInAnyOrder(source: CaptureSource, a: seq<SessionReceipt>, b: seq<SessionReceipt>, digest: Digest)
    requires multiset(a) == multiset(b) && Buildable(source, a, digest)
    ensures Buildable(source, b, digest)
  {
    SameMembers(a, b);
    EntriesOfPermutation(a, b, digest);
    var x, y := EntriesOf(a, digest), EntriesOf(b, digest);
    SameMembers(x, y);
    CoveredBySameMembers(x, y, Boards(V1Of(source).captures));
    DistinctKeysPermutation(x, y, (e: Entry) => e.identity);
  }

  /** The document does not depend on the order in which the receipts were given. */
  lemma {:induction false} DocumentIsCanonical(
      source: CaptureSource, a: seq<SessionReceipt>, b: seq<SessionReceipt>, digest: Digest, x: Option<DocumentV2>, y: Option<DocumentV2>)
    requires multiset(a) == multiset(b)
    requires Builds(source, a, digest, x) && Builds(source, b, digest, y)
    ensures x == y
  {
    if Buildable(source, a, digest) { BuildableInAnyOrder(source, a, b, digest); }
    if Buildable(source, b, digest) { BuildableInAnyOrder(source, b, a, digest); }
    if Buildable(source, a, digest) {
      SameMembers(a, b);
      EntriesOfPermutation(a, b, digest);
      EntryOrderIsTotal();
      OrderSeparatesEntries(EntriesOf(a, digest));
      SortCanonical(EntriesOf(a, digest), EntriesOf(b, digest), EntryAtMost);
      ListIsUnique(x.value.boards, y.value.boards, EntryBoards(x.value.entries));
    }
  }

  lemma {:induction false} BuiltSourceIsAccepted(source: CaptureSource, receipts: seq<SessionReceipt>, d: DocumentV2, digest: Digest)
    requires Builds(source, receipts, digest, Some(d))
    ensures Builds(Version2(d), receipts, digest, Some(d))
  {
  }

  /** Building again from the result, with the same receipts in any order, returns it unchanged. */
  lemma {:induction false} RebuildReturnsTheDocument(
      source: CaptureSource, a: seq<SessionReceipt>, b: seq<SessionReceipt>, digest: Digest, d: DocumentV2, y: Option<DocumentV2>)
    requires multiset(a) == multiset(b)
    requires Builds(source, a, digest, Some(d)) && Builds(Version2(d), b, digest, y)
    ensures y == Some(d)
  {
    BuiltSourceIsAccepted(source, a, d, digest);
    DocumentIsCanonical(Version2(d), a, b, digest, Some(d), y);
  }

  function Embedded(entries: seq<Entry>): seq<SessionReceipt> {
    if entries == [] then [] else Embedded(entries[..|entries| - 1]) + [entries[|entries| - 1].receipt]
  }

  lemma {:induction false} EmbeddedReadBack(entries: seq<Entry>, digest: Digest)
    requires forall e :: e in entries ==> ReadsBack(e, digest)
    ensures EntriesOf(Embedded(entries), digest) == entries && AllPassing(Embedded(entries)) && |Embedded(entries)| == |entries|
  {
    if entries != [] {
      var init, last := entries[..|entries| - 1], entries[|entries| - 1];
      assert entries == init + [last];
      EmbeddedReadBack(init, digest);
      EntriesOfAppend(Embedded(init), last.receipt, digest);
      assert ReadsBack(last, digest);
    }
  }

  lemma {:induction false} EntriesOfAppend(receipts: seq<SessionReceipt>, r: SessionReceipt, digest: Digest)
    ensures EntriesOf(receipts + [r], digest) == EntriesOf(receipts, digest) + [EntryOf(r, digest)]
    ensures Passing(r) && AllPassing(receipts) ==> AllPassing(receipts + [r])
  {
    assert (receipts + [r])[..|receipts|] == receipts;
    AppendMember(receipts, r);
  }

  /** The receipts of an accepted document suffice to build it again. */
  lemma {:induction false} EmbeddedIsBuildable(d: DocumentV2, digest: Digest)
    requires AcceptableV2(d, digest)
    ensures EntriesOf(Embedded(d.entries), digest) == d.entries && Buildable(Version2(d), Embedded(d.entries), digest)
  {
    forall e | e in d.entries ensures ReadsBack(e, digest) && BoundToCapture(e, d.base.captures) {
      assert EntryFits(e, d.base.captures, digest);
    }
    EmbeddedReadBack(d.entries, digest);
  }

  /** A document is its own assembly exactly when it is in canonical order. */
  lemma {:induction false} AssembledIsCanonical(d: DocumentV2, x: DocumentV2, receipts: seq<SessionReceipt>, digest: Digest)
    requires AcceptableV2(d, digest) && EntriesOf(receipts, digest) == d.entries && |receipts| == |d.entries|
    requires Assembled(x, d.base, receipts, digest)
    ensures multiset(x.entries) == multiset(d.entries)
    ensures x == d <==> Sorted(d.entries, EntryAtMost) && StringsAscend(d.boards)
  {
    EntryOrderIsTotal();
    SortSorts(d.entries, EntryAtMost);
    if Sorted(d.entries, EntryAtMost) && StringsAscend(d.boards) {
      OrderSeparatesEntries(d.entries);
      SortOfSorted(d.entries, EntryAtMost);
      ListIsUnique(d.boards, x.boards, EntryBoards(d.entries));
    }
  }

  /** The validator does not ask for the canonical order. Rebuilding an accepted document from its own
      receipts always succeeds and keeps every entry, and changes nothing exactly when entries and
      boards were in canonical order already. */
  lemma {:induction false} RebuildCanonicalises(d: DocumentV2, digest: Digest, y: Option<DocumentV2>)
    requires AcceptableV2(d, digest) && Builds(Version2(d), Embedded(d.entries), digest, y)
    ensures y.Some? && multiset(y.value.entries) == multiset(d.entries)
    ensures y == Some(d) <==> Sorted(d.entries, EntryAtMost) && StringsAscend(d.boards)
  {
    EmbeddedIsBuildable(d, digest);
    EntriesOfIndex(Embedded(d.entries), digest);
    AssembledIsCanonical(d, y.value, Embedded(d.entries), digest);
  }

  /** The validator accepts the entries in any order. */
  lemma {:induction false} AcceptedInAnyOrder(d: DocumentV2, entries: seq<Entry>, digest: Digest)
    requires AcceptableV2(d, digest) && multiset(entries) == multiset(d.entries)
    ensures AcceptableV2(d.(entries := entries), digest)
  {
    SameMembers(d.entries, entries);
    assert |multiset(entries)| == |entries| && |multiset(d.entries)| == |d.entries|;
    CoveredBySameMembers(d.entries, entries, Boards(d.base.captures));
    DistinctKeysPermutation(d.entries, entries, (e: Entry) => e.identity);
    assert EntriesFit(entries, d.base.captures, digest);
  }

  function Swapped(entries: seq<Entry>, i: nat, j: nat): seq<Entry>
    requires i < j < |entries|
  {
    entries[i := entries[j]][j := entries[i]]
  }

  lemma {:induction false} SwapKeepsMembers<T>(s: seq<T>, i: nat, j: nat)
    requires i < j < |s|
    ensures multiset(s[i := s[j]][j := s[i]]) == multiset(s)
  {
  }

  lemma {:induction false} SwapBreaksOrder(entries: seq<Entry>, i: nat, j: nat)
    requires i < j < |entries| && IdentitiesDistinct(entries) && Sorted(entries, EntryAtMost)
    ensures !Sorted(Swapped(entries, i, j), EntryAtMost)
  {
    var a, b, swapped := entries[i], entries[j], Swapped(entries, i, j);
    assert EntryAtMost(a, b) && swapped[i] == b && swapped[j] == a && a.identity != b.identity;
    if EntryAtMost(b, a) {
      KeyAntisymmetric(EntryKey(a.identity), EntryKey(b.identity));
      KeyDeterminesIdentity(a.identity, b.identity);
    }
  }

  /** Every accepted document has entries to swap; swapping two of them gives an accepted document, and
      of the two documents at most one is canonical. */
  lemma {:induction false} SwappedIsAcceptedNotCanonical(d: DocumentV2, i: nat, j: nat, digest: Digest)
    requires AcceptableV2(d, digest)
    ensures 2 <= |d.entries|
    ensures i < j < |d.entries| ==>
              && AcceptableV2(d.(entries := Swapped(d.entries, i, j)), digest)
              && (Sorted(d.entries, EntryAtMost) ==> !Sorted(Swapped(d.entries, i, j), EntryAtMost))
  {
    NineReceiptsPerBoard(d, digest);
    if i < j < |d.entries| {
      SwapKeepsMembers(d.entries, i, j);
      AcceptedInAnyOrder(d, Swapped(d.entries, i, j), digest);
      if Sorted(d.entries, EntryAtMost) { SwapBreaksOrder(d.entries, i, j); }
    }
  }

  // ---------------------------------------------------------------- how much evidence acceptance takes

  datatype Requirement = Kind(kind: V.Kind) | Fault(scenario: V.Scenario)

  /** The two capture kinds and the seven faults; one receipt can meet only one of them. */
  function RequirementOf(id: Identity): Requirement {
    if id.kind.FaultInjection? && id.scenario.Some? then Fault(id.scenario.value) else Kind(id.kind)
  }

  const ALL_REQUIREMENTS: set<Requirement> :=
    {Kind(V.NativeTimeline), Kind(V.Resources),
     Fault(V.TraceOverflow), Fault(V.FlowError), Fault(V.SamplingBufferFull), Fault(V.ElfMismatch),
     Fault(V.Trace32DisconnectRecovery), Fault(V.DriverDisconnectRecovery), Fault(V.CmmAbortRecovery)}

  lemma {:induction false} CompleteMeetsAll(entries: seq<Entry>, b: string)
    requires CompleteOn(entries, b)
    ensures forall q :: q in ALL_REQUIREMENTS ==> Meets(entries, b, q)
  {
    forall q | q in ALL_REQUIREMENTS ensures Meets(entries, b, q) {
      match q
      case Kind(k) =>
        assert k in REQUIRED_KINDS by { assert REQUIRED_KINDS[0] == V.NativeTimeline && REQUIRED_KINDS[1] == V.Resources; }
        var e :| e in entries && e.identity.board == b && e.identity.kind == k;
        assert RequirementOf(e.identity) == q;
      case Fault(f) =>
        AllFaultsRequired(f);
        var e :| e in entries && e.identity.board == b && e.identity.kind.FaultInjection? && e.identity.scenario == Some(f);
        assert RequirementOf(e.identity) == q;
    }
  }

  lemma {:induction false} AllFaultsRequired(f: V.Scenario)
    ensures f in REQUIRED_FAULTS
  {
    assert REQUIRED_FAULTS[0] == V.TraceOverflow && REQUIRED_FAULTS[1] == V.FlowError && REQUIRED_FAULTS[2] == V.SamplingBufferFull
        && REQUIRED_FAULTS[3] == V.ElfMismatch && REQUIRED_FAULTS[4] == V.Trace32DisconnectRecovery
        && REQUIRED_FAULTS[5] == V.DriverDisconnectRecovery && REQUIRED_FAULTS[6] == V.CmmAbortRecovery;
  }

  predicate Meets(entries: seq<Entry>, b: string, q: Requirement) {
    exists e :: e in entries && e.identity.board == b && RequirementOf(e.identity) == q
  }

  datatype Duty = Duty(board: string, requirement: Requirement)

  function DutyOf(e: Entry): Duty {
    Duty(e.identity.board, RequirementOf(e.identity))
  }

  /** Every (board, requirement) pair takes an entry of its own. */
  lemma {:induction false} DutiesTakeEntries(entries: seq<Entry>, duties: set<Duty>)
    requires forall x :: x in duties ==> exists e :: e in entries && DutyOf(e) == x
    ensures |duties| <= |entries|
  {
    if entries == [] {
      assert duties == {};
    } else {
      var init, last := entries[..|entries| - 1], entries[|entries| - 1];
      assert entries == init + [last];
      DutiesTakeEntries(init, duties - {DutyOf(last)});
      assert duties <= (duties - {DutyOf(last)}) + {DutyOf(last)};
      SubsetSize(duties, (duties - {DutyOf(last)}) + {DutyOf(last)});
    }
  }

  function DutiesOf(boards: set<string>): set<Duty> {
    set b, q | b in boards && q in ALL_REQUIREMENTS :: Duty(b, q)
  }

  lemma {:induction false} NineDutiesPerBoard(boards: set<string>)
    ensures |DutiesOf(boards)| == 9 * |boards|
    decreases |boards|
  {
    if boards == {} {
      assert DutiesOf(boards) == {};
    } else {
      var b :| b in boards;
      NineDutiesPerBoard(boards - {b});
      assert DutiesOf(boards) == DutiesOf(boards - {b}) + DutiesOn(b);
      assert DutiesOf(boards - {b}) !! DutiesOn(b);
      NineDuties(b);
      assert |boards - {b}| == |boards| - 1;
    }
  }

  function DutiesOn(b: string): set<Duty> {
    set q | q in ALL_REQUIREMENTS :: Duty(b, q)
  }

  lemma {:induction false} NineDuties(b: string)
    ensures |DutiesOn(b)| == 9
  {
    assert DutiesOn(b) ==
      {Duty(b, Kind(V.NativeTimeline)), Duty(b, Kind(V.Resources)),
       Duty(b, Fault(V.TraceOverflow)), Duty(b, Fault(V.FlowError)), Duty(b, Fault(V.SamplingBufferFull)),
       Duty(b, Fault(V.ElfMismatch)), Duty(b, Fault(V.Trace32DisconnectRecovery)),
       Duty(b, Fault(V.DriverDisconnectRecovery)), Duty(b, Fault(V.CmmAbortRecovery))};
  }

  lemma {:induction false} DutiesAreMet(d: DocumentV2, digest: Digest)
    requires AcceptableV2(d, digest)
    ensures forall x :: x in DutiesOf(Boards(d.base.captures)) ==> exists e :: e in d.entries && DutyOf(e) == x
  {
    forall x | x in DutiesOf(Boards(d.base.captures)) ensures exists e :: e in d.entries && DutyOf(e) == x {
      CompleteMeetsAll(d.entries, x.board);
      assert Meets(d.entries, x.board, x.requirement);
      var e :| e in d.entries && e.identity.board == x.board && RequirementOf(e.identity) == x.requirement;
      assert DutyOf(e) == x;
    }
  }

  lemma {:induction false} EveryEntryPasses(d: DocumentV2, digest: Digest)
    requires AcceptableV2(d, digest)
    ensures forall e :: e in d.entries ==> e.receipt.content.checks.failed == 0
  {
    forall e | e in d.entries ensures e.receipt.content.checks.failed == 0 {
      assert EntryFits(e, d.base.captures, digest);
    }
  }

  /** Accepted evidence holds at least nine passing receipts for every board, so at least eighteen. */
  lemma {:induction false} NineReceiptsPerBoard(d: DocumentV2, digest: Digest)
    requires AcceptableV2(d, digest)
    ensures |d.entries| >= 9 * |d.base.boards| >= 18
    ensures forall e :: e in d.entries ==> e.receipt.content.checks.failed == 0
  {
    var boards := Boards(d.base.captures);
    DutiesAreMet(d, digest);
    DutiesTakeEntries(d.entries, DutiesOf(boards));
    NineDutiesPerBoard(boards);
    ListSize(d.base.boards, boards);
    EveryEntryPasses(d, digest);
  }
}
