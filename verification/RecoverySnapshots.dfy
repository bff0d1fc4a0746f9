/** Snapshots of the artifact root and of the persistent recovery-evidence root. */
module RecoverySnapshots {
  import opened Outcomes

  type Path = seq<string>
  type Digest = string -> string

  datatype Kind = File | Directory | Symlink | Special

  /** What the operating system reports of one entry; `content` matters for files only. */
  datatype Node = Node(kind: Kind, mode: int, size: int, mtime: int, device: int, inode: int, links: int, content: string)

  datatype RecoveryTree = RecoveryTree(plain: bool, device: int, inode: int, nodes: map<Path, Node>)

  datatype ArtifactTree = Absent | NotADirectory | Tree(nodes: map<Path, Node>)

  // ---------------------------------------------------------------- the recovery root

  datatype RecoveryEntry = RecoveryEntry(
    kind: Kind, mode: int, size: int, mtime: int, device: int, inode: int, links: int, sha256: Option<string>)

  datatype RecoverySnapshot = RecoverySnapshot(device: int, inode: int, entries: map<Path, RecoveryEntry>)

  /** Size, time and link count of a directory change with its children, so they are recorded as zero. */
  function EntryOf(n: Node, digest: Digest): RecoveryEntry {
    if n.kind.Directory? then
      RecoveryEntry(n.kind, n.mode, 0, 0, n.device, n.inode, 0, None)
    else
      RecoveryEntry(n.kind, n.mode, n.size, n.mtime, n.device, n.inode, n.links, if n.kind.File? then Some(digest(n.content)) else None)
  }

  function Entries(nodes: map<Path, Node>, digest: Digest): map<Path, RecoveryEntry> {
    map p | p in nodes :: EntryOf(nodes[p], digest)
  }

  function Capture(t: RecoveryTree, digest: Digest): RecoverySnapshot {
    RecoverySnapshot(t.device, t.inode, Entries(t.nodes, digest))
  }

  datatype Changes = Changes(added: set<Path>, removed: set<Path>, changed: set<Path>)

  /** None when the root itself was replaced. */
  function ChangesSince(before: RecoverySnapshot, current: RecoverySnapshot): Option<Changes> {
    if current.device != before.device || current.inode != before.inode then None
    else
      var was, now := before.entries, current.entries;
      Some(Changes(now.Keys - was.Keys, was.Keys - now.Keys, set p | p in was.Keys * now.Keys && was[p] != now[p]))
  }

  predicate Unchanged(before: RecoverySnapshot, current: RecoverySnapshot) {
    ChangesSince(before, current) == Some(Changes({}, {}, {}))
  }

  predicate OnlyAdded(before: RecoverySnapshot, current: RecoverySnapshot, path: Path, sha256: string) {
    && ChangesSince(before, current) == Some(Changes({path}, {}, {}))
    && path in current.entries
    && current.entries[path].kind.File? && current.entries[path].links == 1 && current.entries[path].sha256 == Some(sha256)
  }

  /** An empty difference means equal snapshots. */
  lemma {:induction false} UnchangedMeansEqual(before: RecoverySnapshot, current: RecoverySnapshot)
    ensures Unchanged(before, current) <==> before == current
  {
    if Unchanged(before, current) {
      var was, now := before.entries, current.entries;
      forall p ensures p in was <==> p in now {
        assert p !in now.Keys - was.Keys && p !in was.Keys - now.Keys;
      }
      forall p | p in was ensures was[p] == now[p] {
        assert p !in (set q | q in was.Keys * now.Keys && was[q] != now[q]);
      }
      assert was == now;
    }
    if before == current {
      var was, now := before.entries, current.entries;
      assert now.Keys - was.Keys == {} && was.Keys - now.Keys == {};
      assert (set q | q in was.Keys * now.Keys && was[q] != now[q]) == {};
    }
  }

  lemma {:induction false} UpdateChanges(was: map<Path, RecoveryEntry>, path: Path, e: RecoveryEntry)
    requires path !in was
    ensures var now := was[path := e];
            && now.Keys - was.Keys == {path} && was.Keys - now.Keys == {}
            && (set p | p in was.Keys * now.Keys && was[p] != now[p]) == {}
  {
  }

  /** The one permitted difference means one new entry and nothing else. */
  lemma {:induction false} OnlyAddedMeansOneMore(before: RecoverySnapshot, current: RecoverySnapshot, path: Path, sha256: string)
    ensures OnlyAdded(before, current, path, sha256) <==>
      && path !in before.entries && path in current.entries
      && current == RecoverySnapshot(before.device, before.inode, before.entries[path := current.entries[path]])
      && current.entries[path].kind.File? && current.entries[path].links == 1 && current.entries[path].sha256 == Some(sha256)
  {
    var was, now := before.entries, current.entries;
    if OnlyAdded(before, current, path, sha256) {
      var added, changed := now.Keys - was.Keys, set q | q in was.Keys * now.Keys && was[q] != now[q];
      assert added == {path} && was.Keys - now.Keys == {} && changed == {};
      assert path in added;
      forall p ensures p in now <==> p in was || p == path {
        assert p in added <==> p == path;
        assert p !in was.Keys - now.Keys;
      }
      forall p | p in was ensures was[p] == now[p] {
        assert p !in changed;
      }
      assert now == was[path := now[path]];
    }
    if path !in was && path in now && now == was[path := now[path]] {
      UpdateChanges(was, path, now[path]);
    }
  }

  // ---------------------------------------------------------------- exclusive creation

  /** What the operating system chooses when a file is created. */
  datatype Stamp = Stamp(mode: int, mtime: int, device: int, inode: int, parentSize: int, parentMtime: int, parentLinks: int)

  function Parent(path: Path): Path
    requires path != []
  {
    path[..|path| - 1]
  }

  function NewFile(content: string, size: nat, stamp: Stamp): Node {
    Node(File, stamp.mode, size, stamp.mtime, stamp.device, stamp.inode, 1, content)
  }

  /** The tree after creating one file: the file is there, and its directory's statistics have moved. */
  function Created(nodes: map<Path, Node>, path: Path, content: string, size: nat, stamp: Stamp): map<Path, Node>
    requires path != [] && Parent(path) in nodes
  {
    var d := nodes[Parent(path)];
    nodes[Parent(path) := d.(size := stamp.parentSize, mtime := stamp.parentMtime, links := stamp.parentLinks)]
         [path := NewFile(content, size, stamp)]
  }

  /** With directories normalised, an honest exclusive creation always shows exactly its own file. */
  lemma {:induction false} CreationOnlyAdds(t: RecoveryTree, path: Path, content: string, size: nat, stamp: Stamp, digest: Digest)
    requires path != [] && Parent(path) in t.nodes && t.nodes[Parent(path)].kind.Directory? && path !in t.nodes
    ensures var after := t.(nodes := Created(t.nodes, path, content, size, stamp));
            OnlyAdded(Capture(t, digest), Capture(after, digest), path, digest(content))
  {
    var after := t.(nodes := Created(t.nodes, path, content, size, stamp));
    var was, now := Capture(t, digest).entries, Capture(after, digest).entries;
    assert now == was[path := EntryOf(NewFile(content, size, stamp), digest)];
    OnlyAddedMeansOneMore(Capture(t, digest), Capture(after, digest), path, digest(content));
  }

  /** An entry as the artifact root records it, with nothing normalised. */
  datatype ArtifactEntry = ArtifactEntry(kind: Kind, mode: int, size: int, mtime: int, device: int, inode: int)

  function RawEntryOf(n: Node): ArtifactEntry {
    ArtifactEntry(n.kind, n.mode, n.size, n.mtime, n.device, n.inode)
  }

  function RawEntries(nodes: map<Path, Node>): map<Path, ArtifactEntry> {
    map p | p in nodes :: RawEntryOf(nodes[p])
  }

  /** Without the normalisation an honest creation is seen as changing its directory, exactly when the
      operating system moves that directory's size or time. */
  lemma {:induction false} RawCreationChangesTheDirectory(nodes: map<Path, Node>, path: Path, content: string, size: nat, stamp: Stamp)
    requires path != [] && Parent(path) in nodes && path !in nodes
    ensures var was, now := RawEntries(nodes), RawEntries(Created(nodes, path, content, size, stamp));
            var changed := set p | p in was.Keys * now.Keys && was[p] != now[p];
            changed == if stamp.parentSize == nodes[Parent(path)].size && stamp.parentMtime == nodes[Parent(path)].mtime
                       then {} else {Parent(path)}
  {
    assert |Parent(path)| != |path|;
  }

  // ---------------------------------------------------------------- the artifact root

  datatype ArtifactSnapshot = ArtifactSnapshot(existed: bool, entries: map<Path, ArtifactEntry>)

  function CaptureArtifacts(t: ArtifactTree): Option<ArtifactSnapshot> {
    match t
    case Absent => Some(ArtifactSnapshot(false, map[]))
    case NotADirectory => None
    case Tree(nodes) => Some(ArtifactSnapshot(true, RawEntries(nodes)))
  }
}
