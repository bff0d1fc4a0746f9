/** The fault, recovery and receipt protocol around an untrusted driver. */
module RecoveryProtocol {
  import opened Outcomes
  import opened RecoverySnapshots

  const EVIDENCE_NAME := "target-adapter-recovery-evidence.json"
  const RECEIPT_NAME := "verification-receipt.json"
  const MAX_EVIDENCE_BYTES := 65536

  datatype World = World(artifacts: ArtifactTree, recovery: RecoveryTree)

  /** How a command ended: the process could not be run to an exit, or it exited with a code and
      perhaps one JSON object. */
  datatype Completion = NotCompleted | Exited(code: int, json: bool)

  /** Nothing is assumed of the driver: a command may turn any world into any other. */
  type Driver = World -> (World, Completion)

  /** The trusted facts of one reservation. */
  datatype Expectation = Expectation(profile: string, operation: string, failure: string, initialState: string, binding: string)

  datatype Evidence = Evidence(
    profile: string, operation: string, failure: string, initialState: string, restoredState: string, binding: string, rest: string)

  predicate Meets(e: Evidence, x: Expectation) {
    && e.profile == x.profile && e.operation == x.operation && e.failure == x.failure
    && e.initialState == x.initialState && e.restoredState == x.initialState && e.binding == x.binding
  }

  datatype Reservation = Reservation(directory: string, device: int, inode: int, expectation: Expectation) {
    function Directory(): Path { [directory] }

    function EvidencePath(): (path: Path)
      ensures path != [] && Parent(path) == Directory()
    {
      assert [directory, EVIDENCE_NAME][..1] == [directory];
      [directory, EVIDENCE_NAME]
    }

    function ReceiptPath(): (path: Path)
      ensures path != [] && Parent(path) == Directory()
    {
      assert [directory, RECEIPT_NAME][..1] == [directory];
      [directory, RECEIPT_NAME]
    }
  }

  datatype Binding = Binding(sha256: string, document: Evidence)

  datatype Receipt = Receipt(valid: bool, recovery: Option<Binding>, rest: string)

  /** Hashing and the two document formats. */
  datatype Codec = Codec(
    digest: Digest, parseEvidence: string -> Option<Evidence>,
    encodeReceipt: Receipt -> string, decodeReceipt: string -> Option<Receipt>)

  datatype Pending = Pending(code: int, reservation: Reservation, artifacts: ArtifactSnapshot, recovery: RecoverySnapshot)

  datatype Loaded = Loaded(evidence: Evidence, sha256: string)

  datatype Failure = Failure(code: int, reservation: Reservation, loaded: Loaded, recovery: RecoverySnapshot)

  datatype Fault =
    | EvidenceExists | NotAPlainDirectory | CommandFailed | ArtifactsPolluted | RecoveryPolluted | UnexpectedSuccess
    | BadReservation | BadEvidence | OutsideReservation | EvidenceChanged | BadReceipt | ReceiptExists | ReceiptDiffers

  // ---------------------------------------------------------------- what each step accepts

  predicate ArtifactsUnchanged(before: ArtifactSnapshot, w: World) {
    CaptureArtifacts(w.artifacts) == Some(before)
  }

  predicate RecoveryUnchanged(before: RecoverySnapshot, w: World, codec: Codec) {
    w.recovery.plain && Unchanged(before, Capture(w.recovery, codec.digest))
  }

  /** The fault command fails and leaves both roots as they were. */
  ghost predicate FaultAccepted(w: World, reservation: Reservation, driver: Driver, codec: Codec) {
    var (after, completion) := driver(w);
    && reservation.EvidencePath() !in w.recovery.nodes
    && CaptureArtifacts(w.artifacts).Some? && w.recovery.plain
    && ArtifactsUnchanged(CaptureArtifacts(w.artifacts).value, after)
    && RecoveryUnchanged(Capture(w.recovery, codec.digest), after, codec)
    && completion.Exited? && completion.code != 0
  }

  function LoadEvidence(t: RecoveryTree, path: Path, codec: Codec): Option<Loaded> {
    if path !in t.nodes then None
    else
      var n := t.nodes[path];
      if !n.kind.File? || n.links != 1 || MAX_EVIDENCE_BYTES < n.size || codec.parseEvidence(n.content).None? then None
      else Some(Loaded(codec.parseEvidence(n.content).value, codec.digest(n.content)))
  }

  function LoadReserved(t: RecoveryTree, r: Reservation, codec: Codec): Option<Loaded> {
    if r.Directory() !in t.nodes then None
    else
      var d := t.nodes[r.Directory()];
      if !d.kind.Directory? || d.device != r.device || d.inode != r.inode then None
      else
        var loaded :- LoadEvidence(t, r.EvidencePath(), codec);
        if Meets(loaded.evidence, r.expectation) then Some(loaded) else None
  }

  /** Recovery succeeds and publishes nothing but the reserved evidence. */
  ghost predicate RecoveryAccepted(w: World, p: Pending, driver: Driver, codec: Codec) {
    var (after, completion) := driver(w);
    && p.reservation.EvidencePath() !in w.recovery.nodes
    && RecoveryUnchanged(p.recovery, w, codec)
    && completion.Exited? && completion.code == 0 && completion.json
    && ArtifactsUnchanged(p.artifacts, after)
    && var loaded := LoadReserved(after.recovery, p.reservation, codec);
       && loaded.Some? && after.recovery.plain
       && OnlyAdded(p.recovery, Capture(after.recovery, codec.digest), p.reservation.EvidencePath(), loaded.value.sha256)
  }

  /** The receipt binds the evidence, nothing changed since recovery, and the receipt path is free. */
  ghost predicate ReceiptAccepted(w: World, f: Failure, receipt: Receipt, codec: Codec) {
    && RecoveryUnchanged(f.recovery, w, codec)
    && LoadEvidence(w.recovery, f.reservation.EvidencePath(), codec) == Some(f.loaded)
    && receipt.valid && receipt.recovery == Some(Binding(f.loaded.sha256, f.loaded.evidence))
    && f.reservation.Directory() in w.recovery.nodes && w.recovery.nodes[f.reservation.Directory()].kind.Directory?
    && f.reservation.ReceiptPath() !in w.recovery.nodes
    && codec.decodeReceipt(codec.encodeReceipt(receipt)) == Some(receipt)
  }

  // ---------------------------------------------------------------- the host

  class Host {
    var world: World
    const codec: Codec

    constructor (world: World, codec: Codec)
      ensures this.world == world && this.codec == codec
    {
      this.world, this.codec := world, codec;
    }

    /** Runs one driver command. */
    method Execute(driver: Driver) returns (completion: Completion)
      modifies this`world
      ensures (world, completion) == driver(old(world))
    {
      var outcome := driver(world);
      world, completion := outcome.0, outcome.1;
    }

    method CheckUnchanged(artifacts: ArtifactSnapshot, recovery: RecoverySnapshot) returns (fault: Option<Fault>)
      ensures fault.None? <==> ArtifactsUnchanged(artifacts, world) && RecoveryUnchanged(recovery, world, codec)
    {
      if CaptureArtifacts(world.artifacts) != Some(artifacts) { return Some(ArtifactsPolluted); }
      if !world.recovery.plain || !Unchanged(recovery, Capture(world.recovery, codec.digest)) { return Some(RecoveryPolluted); }
      return None;
    }

    method RunExpectedFailure(reservation: Reservation, driver: Driver) returns (r: Result<Pending, Fault>)
      modifies this`world
      ensures r.Ok? <==> FaultAccepted(old(world), reservation, driver, codec)
      ensures r.Ok? ==> world == driver(old(world)).0
      ensures world == old(world) || world == driver(old(world)).0
      ensures r.Ok? ==>
        r.value == Pending(driver(old(world)).1.code, reservation, CaptureArtifacts(old(world).artifacts).value,
                           Capture(old(world).recovery, codec.digest))
    {
      if reservation.EvidencePath() in world.recovery.nodes { return Raised(EvidenceExists); }
      var artifacts := CaptureArtifacts(world.artifacts);
      if artifacts.None? { return Raised(NotAPlainDirectory); }
      if !world.recovery.plain { return Raised(NotAPlainDirectory); }
      var recovery := Capture(world.recovery, codec.digest);
      var completion := Execute(driver);
      var fault := CheckUnchanged(artifacts.value, recovery);
      if fault.Some? { return Raised(fault.value); }
      if completion.NotCompleted? { return Raised(CommandFailed); }
      if completion.code == 0 { return Raised(UnexpectedSuccess); }
      return Ok(Pending(completion.code, reservation, artifacts.value, recovery));
    }

    method RunRecovery(p: Pending, driver: Driver) returns (r: Result<Failure, Fault>)
      modifies this`world
      ensures r.Ok? <==> RecoveryAccepted(old(world), p, driver, codec)
      ensures r.Ok? ==> world == driver(old(world)).0
      ensures world == old(world) || world == driver(old(world)).0
      ensures r.Ok? ==>
        r.value == Failure(p.code, p.reservation, LoadReserved(world.recovery, p.reservation, codec).value,
                           Capture(world.recovery, codec.digest))
    {
      if p.reservation.EvidencePath() in world.recovery.nodes { return Raised(EvidenceExists); }
      if !world.recovery.plain || !Unchanged(p.recovery, Capture(world.recovery, codec.digest)) { return Raised(RecoveryPolluted); }
      var completion := Execute(driver);
      if completion.NotCompleted? || completion.code != 0 || !completion.json {
        var fault := CheckUnchanged(p.artifacts, p.recovery);
        return Raised(if fault.Some? then fault.value else CommandFailed);
      }
      if CaptureArtifacts(world.artifacts) != Some(p.artifacts) { return Raised(ArtifactsPolluted); }
      var loaded := LoadReserved(world.recovery, p.reservation, codec);
      if loaded.None? { return Raised(BadEvidence); }
      if !world.recovery.plain { return Raised(NotAPlainDirectory); }
      var accepted := Capture(world.recovery, codec.digest);
      if !OnlyAdded(p.recovery, accepted, p.reservation.EvidencePath(), loaded.value.sha256) { return Raised(OutsideReservation); }
      return Ok(Failure(p.code, p.reservation, loaded.value, accepted));
    }

    /** Creates one file and never overwrites; the parent must be a directory. */
    method WriteExclusive(path: Path, content: string, size: nat, stamp: Stamp) returns (created: bool)
      requires path != []
      modifies this`world
      ensures created <==> Parent(path) in old(world).recovery.nodes && old(world).recovery.nodes[Parent(path)].kind.Directory?
                           && path !in old(world).recovery.nodes
      ensures world == if created
                       then old(world).(recovery := old(world).recovery.(nodes :=
                              Created(old(world).recovery.nodes, path, content, size, stamp)))
                       else old(world)
    {
      var nodes := world.recovery.nodes;
      if Parent(path) !in nodes || !nodes[Parent(path)].kind.Directory? { return false; }
      if path in nodes { return false; }
      world := world.(recovery := world.recovery.(nodes := Created(nodes, path, content, size, stamp)));
      return true;
    }

    method WriteReceipt(f: Failure, receipt: Receipt, size: nat, stamp: Stamp) returns (r: Result<Receipt, Fault>)
      modifies this`world
      ensures r.Ok? <==> ReceiptAccepted(old(world), f, receipt, codec)
      ensures r.Ok? ==>
        && r.value == receipt
        && world == old(world).(recovery := old(world).recovery.(nodes :=
             Created(old(world).recovery.nodes, f.reservation.ReceiptPath(), codec.encodeReceipt(receipt), size, stamp)))
        && OnlyAdded(f.recovery, Capture(world.recovery, codec.digest), f.reservation.ReceiptPath(),
                     codec.digest(codec.encodeReceipt(receipt)))
    {
      if !world.recovery.plain || !Unchanged(f.recovery, Capture(world.recovery, codec.digest)) { return Raised(RecoveryPolluted); }
      var loaded := LoadEvidence(world.recovery, f.reservation.EvidencePath(), codec);
      if loaded != Some(f.loaded) { return Raised(EvidenceChanged); }
      if !receipt.valid || receipt.recovery != Some(Binding(f.loaded.sha256, f.loaded.evidence)) { return Raised(BadReceipt); }
      var path := f.reservation.ReceiptPath();
      var content := codec.encodeReceipt(receipt);
      ghost var before := world.recovery;
      var created := WriteExclusive(path, content, size, stamp);
      if !created { return Raised(ReceiptExists); }
      assert world.recovery.nodes[path].content == content;
      if codec.decodeReceipt(world.recovery.nodes[path].content) != Some(receipt) { return Raised(ReceiptDiffers); }
      UnchangedMeansEqual(f.recovery, Capture(before, codec.digest));
      CreationOnlyAdds(before, path, content, size, stamp, codec.digest);
      if !OnlyAdded(f.recovery, Capture(world.recovery, codec.digest), path, codec.digest(world.recovery.nodes[path].content)) {
        assert false;
      }
      return Ok(receipt);
    }
  }

  // ---------------------------------------------------------------- whole runs

  /** The worlds of a run in which every step succeeded. Between two steps anything may have happened:
      the three worlds that a step starts from are unrelated to the ones before. */
  datatype Run = Run(
    reservation: Reservation, codec: Codec, fault: Driver, recover: Driver, receipt: Receipt, size: nat, stamp: Stamp,
    beforeFault: World, beforeRecovery: World, beforeReceipt: World)
  {
    function AfterRecovery(): World { recover(beforeRecovery).0 }

    function Pended(): Pending
      requires CaptureArtifacts(beforeFault.artifacts).Some? && fault(beforeFault).1.Exited?
    {
      Pending(fault(beforeFault).1.code, reservation, CaptureArtifacts(beforeFault.artifacts).value,
              Capture(beforeFault.recovery, codec.digest))
    }

    function Failed(): Failure
      requires CaptureArtifacts(beforeFault.artifacts).Some? && fault(beforeFault).1.Exited?
      requires LoadReserved(AfterRecovery().recovery, reservation, codec).Some?
    {
      Failure(Pended().code, reservation, LoadReserved(AfterRecovery().recovery, reservation, codec).value,
              Capture(AfterRecovery().recovery, codec.digest))
    }

    ghost predicate Succeeded() {
      && FaultAccepted(beforeFault, reservation, fault, codec)
      && RecoveryAccepted(beforeRecovery, Pended(), recover, codec)
      && ReceiptAccepted(beforeReceipt, Failed(), receipt, codec)
    }

    function Final(): World
      requires reservation.Directory() in beforeReceipt.recovery.nodes
    {
      beforeReceipt.(recovery := beforeReceipt.recovery.(nodes :=
        Created(beforeReceipt.recovery.nodes, reservation.ReceiptPath(), codec.encodeReceipt(receipt), size, stamp)))
    }
  }

  /** Whatever the driver did, a run that succeeds ends with the recovery root as it was before the
      fault plus exactly the reserved evidence and its receipt, and recovery ends with the artifact
      root as it was before the fault. */
  lemma {:induction false} WholeRunAddsTwoFiles(run: Run)
    requires run.Succeeded()
    ensures run.reservation.Directory() in run.beforeReceipt.recovery.nodes
    ensures var was := Capture(run.beforeFault.recovery, run.codec.digest);
            var now := Capture(run.Final().recovery, run.codec.digest);
            var evidence, receipt := run.reservation.EvidencePath(), run.reservation.ReceiptPath();
            && evidence !in was.entries && receipt !in was.entries && evidence != receipt
            && evidence in now.entries && receipt in now.entries
            && now == RecoverySnapshot(was.device, was.inode,
                        was.entries[evidence := now.entries[evidence]][receipt := now.entries[receipt]])
            && now.entries[evidence].kind.File? && now.entries[evidence].links == 1
            && now.entries[evidence].sha256 == Some(run.Failed().loaded.sha256)
            && now.entries[receipt].kind.File? && now.entries[receipt].links == 1
            && now.entries[receipt].sha256 == Some(run.codec.digest(run.codec.encodeReceipt(run.receipt)))
    ensures CaptureArtifacts(run.AfterRecovery().artifacts) == CaptureArtifacts(run.beforeFault.artifacts)
    ensures run.Final().artifacts == run.beforeReceipt.artifacts
  {
    var digest := run.codec.digest;
    var s0, s1 := Capture(run.beforeFault.recovery, digest), Capture(run.AfterRecovery().recovery, digest);
    var s2, s3 := Capture(run.beforeReceipt.recovery, digest), Capture(run.Final().recovery, digest);
    var evidence, receipt := run.reservation.EvidencePath(), run.reservation.ReceiptPath();
    OnlyAddedMeansOneMore(s0, s1, evidence, run.Failed().loaded.sha256);
    UnchangedMeansEqual(s1, s2);
    var sha := digest(run.codec.encodeReceipt(run.receipt));
    CreationOnlyAdds(run.beforeReceipt.recovery, receipt, run.codec.encodeReceipt(run.receipt), run.size, run.stamp, digest);
    OnlyAddedMeansOneMore(s2, s3, receipt, sha);
    assert evidence[1] != receipt[1];
    assert s3.entries[evidence] == s1.entries[evidence];
  }

  /** The two new files say what the reservation demanded and bind each other. */
  lemma {:induction false} WholeRunBindsTheEvidence(run: Run)
    requires run.Succeeded()
    ensures var evidence := run.Failed().loaded.evidence;
            && Meets(evidence, run.reservation.expectation)
            && run.receipt.recovery == Some(Binding(run.Failed().loaded.sha256, evidence))
            && run.codec.decodeReceipt(run.codec.encodeReceipt(run.receipt)) == Some(run.receipt)
    ensures run.fault(run.beforeFault).1.code != 0
  {
  }

  ghost predicate Injective(digest: Digest) {
    forall a, b :: digest(a) == digest(b) ==> a == b
  }

  predicate SameFile(was: Node, now: Node) {
    && now.kind == was.kind && now.mode == was.mode && now.device == was.device && now.inode == was.inode
    && (was.kind.File? ==> now.content == was.content && now.size == was.size && now.mtime == was.mtime && now.links == was.links)
  }

  lemma {:induction false} EntryIdentifiesTheFile(was: Node, now: Node, digest: Digest)
    requires Injective(digest) && EntryOf(was, digest) == EntryOf(now, digest)
    ensures SameFile(was, now)
  {
  }

  /** If the digest separates contents, every file that was there keeps its content, and every entry
      its kind, mode and identity. */
  lemma {:induction false} HistoryIsPreserved(run: Run, path: Path)
    requires run.Succeeded() && Injective(run.codec.digest) && path in run.beforeFault.recovery.nodes
    ensures run.reservation.Directory() in run.beforeReceipt.recovery.nodes
    ensures path in run.Final().recovery.nodes
    ensures SameFile(run.beforeFault.recovery.nodes[path], run.Final().recovery.nodes[path])
  {
    WholeRunAddsTwoFiles(run);
    var was, now := Capture(run.beforeFault.recovery, run.codec.digest), Capture(run.Final().recovery, run.codec.digest);
    assert path in was.entries && now.entries[path] == was.entries[path];
    EntryIdentifiesTheFile(run.beforeFault.recovery.nodes[path], run.Final().recovery.nodes[path], run.codec.digest);
  }

  // ---------------------------------------------------------------- honest runs

  /** An honest driver: the fault leaves the world alone, recovery creates its one file, and later
      commands leave the recovery root alone. */
  ghost predicate Honest(run: Run, document: string, size: nat, stamp: Stamp) {
    var w := run.beforeFault;
    var dir, evidence := run.reservation.Directory(), run.reservation.EvidencePath();
    && CaptureArtifacts(w.artifacts).Some? && w.recovery.plain
    && dir in w.recovery.nodes && w.recovery.nodes[dir].kind.Directory?
    && w.recovery.nodes[dir].device == run.reservation.device && w.recovery.nodes[dir].inode == run.reservation.inode
    && evidence !in w.recovery.nodes && run.reservation.ReceiptPath() !in w.recovery.nodes
    && run.fault(w).0 == w && run.fault(w).1.Exited? && run.fault(w).1.code != 0
    && run.beforeRecovery == w
    && run.AfterRecovery() == World(w.artifacts, w.recovery.(nodes := Created(w.recovery.nodes, evidence, document, size, stamp)))
    && run.recover(w).1 == Exited(0, true)
    && size <= MAX_EVIDENCE_BYTES
    && run.codec.parseEvidence(document).Some? && Meets(run.codec.parseEvidence(document).value, run.reservation.expectation)
    && run.beforeReceipt.recovery == run.AfterRecovery().recovery
    && run.receipt.valid
    && run.receipt.recovery == Some(Binding(run.codec.digest(document), run.codec.parseEvidence(document).value))
    && run.codec.decodeReceipt(run.codec.encodeReceipt(run.receipt)) == Some(run.receipt)
  }

  /** The checks are not so strict that an honest run fails, however the operating system stamps the
      directory when the two files are created. */
  lemma {:induction false} HonestRunSucceeds(run: Run, document: string, size: nat, stamp: Stamp)
    requires run.reservation.Directory() in run.beforeFault.recovery.nodes
    requires Honest(run, document, size, stamp)
    ensures run.Succeeded()
  {
    var w, digest, evidence := run.beforeFault, run.codec.digest, run.reservation.EvidencePath();
    var s := Capture(w.recovery, digest);
    UnchangedMeansEqual(s, s);
    CreationOnlyAdds(w.recovery, evidence, document, size, stamp, digest);
    var after := run.AfterRecovery().recovery;
    assert LoadReserved(after, run.reservation, run.codec) == Some(Loaded(run.codec.parseEvidence(document).value, digest(document)));
    UnchangedMeansEqual(Capture(after, digest), Capture(after, digest));
  }
}
