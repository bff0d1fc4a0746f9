/**
 Raw stack samples, the folded profile derived from them, and the boundary accounting of the flame
 graph: three representations that must carry the same samples.
 */
module StackProfile {
  import opened Outcomes
  import opened Prefixes
  import opened Counting

  datatype Boundary = TerminalUnverified | MaxFrames | PcReadFailed | FrameCycle | HaltDeadline

  datatype Frame = Frame(pc: int, functionName: Option<string>, sourceFile: Option<string>, sourceLine: Option<int>)

  datatype RawFrame = RawFrame(depth: int, frame: Frame)

  /** `termination` is None for any value outside the five known reasons. */
  datatype RawSample = RawSample(index: int, haltNs: int, termination: Option<Boundary>, frames: seq<RawFrame>)

  datatype RawCapture = RawCapture(attempted: int, collected: int, totalHaltNs: int, samples: seq<RawSample>)

  datatype Limits = Limits(maxSamples: int, maxFrames: int)

  /** A folded path; an element of `frames` is None when it is not an object. */
  datatype Path = Path(boundary: Option<Boundary>, frames: seq<Option<Frame>>, samples: int)

  datatype Profile = Profile(attempted: int, collected: int, included: int, terminal: int, truncated: int, paths: seq<Path>)

  /** A stack as the profile identifies it: why it ended, and its frames from root to leaf. */
  datatype Stack = Stack(boundary: Option<Boundary>, frames: seq<Frame>)

  // ---------------------------------------------------------------- raw samples

  predicate Basename(file: Option<string>) {
    file.Some? ==> '/' !in file.value && '\\' !in file.value
  }

  predicate ValidRawFrame(f: RawFrame, depth: nat) {
    f.depth == depth && 0 <= f.frame.pc && Basename(f.frame.sourceFile)
  }

  predicate ValidRawSample(s: RawSample, position: nat, limits: Limits) {
    && s.index == position + 1
    && s.termination.Some?
    && 1 <= s.haltNs
    && 1 <= |s.frames| <= limits.maxFrames
    && forall d :: 0 <= d < |s.frames| ==> ValidRawFrame(s.frames[d], d)
  }

  function HaltTotal(samples: seq<RawSample>): int {
    if samples == [] then 0 else HaltTotal(samples[..|samples| - 1]) + samples[|samples| - 1].haltNs
  }

  predicate AcceptableRaw(raw: RawCapture, limits: Limits) {
    && 1 <= |raw.samples| == raw.collected <= raw.attempted <= limits.maxSamples
    && raw.totalHaltNs == HaltTotal(raw.samples)
    && forall i :: 0 <= i < |raw.samples| ==> ValidRawSample(raw.samples[i], i, limits)
  }

  method CheckRaw(raw: RawCapture, limits: Limits) returns (accepted: bool)
    ensures accepted <==> AcceptableRaw(raw, limits)
  {
    var n := |raw.samples|;
    if raw.collected != n || raw.attempted < n || limits.maxSamples < raw.attempted || n == 0 { return false; }
    var halt := 0;
    for i := 0 to n
      invariant halt == HaltTotal(raw.samples[..i])
    {
      assert raw.samples[..i + 1][..i] == raw.samples[..i];
      halt := halt + raw.samples[i].haltNs;
    }
    assert raw.samples[..n] == raw.samples;
    if raw.totalHaltNs != halt { return false; }
    for i := 0 to n
      invariant forall k :: 0 <= k < i ==> ValidRawSample(raw.samples[k], k, limits)
    {
      var s := raw.samples[i];
      if s.index != i + 1 || s.termination.None? || s.haltNs < 1 { return false; }
      if s.frames == [] || limits.maxFrames < |s.frames| { return false; }
      for d := 0 to |s.frames|
        invariant forall k :: 0 <= k < d ==> ValidRawFrame(s.frames[k], k)
      {
        if !ValidRawFrame(s.frames[d], d) { return false; }
      }
    }
    return true;
  }

  // ---------------------------------------------------------------- stacks as multisets

  function RootToLeaf(frames: seq<RawFrame>): seq<Frame> {
    if frames == [] then [] else RootToLeaf(frames[1..]) + [frames[0].frame]
  }

  function StackOf(s: RawSample): Stack {
    Stack(s.termination, RootToLeaf(s.frames))
  }

  /** The collected stacks, each sample once. */
  function Collected(samples: seq<RawSample>): multiset<Stack> {
    if samples == [] then multiset{}
    else Collected(samples[..|samples| - 1]) + multiset{StackOf(samples[|samples| - 1])}
  }

  predicate ValidPath(p: Path) {
    p.boundary.Some? && 1 <= p.samples && forall i :: 0 <= i < |p.frames| ==> p.frames[i].Some?
  }

  function Objects(frames: seq<Option<Frame>>): seq<Frame> {
    if frames == [] then []
    else Objects(frames[..|frames| - 1]) + if frames[|frames| - 1].Some? then [frames[|frames| - 1].value] else []
  }

  function PathStack(p: Path): Stack {
    Stack(p.boundary, Objects(p.frames))
  }

  predicate ValidPaths(paths: seq<Path>) {
    forall i :: 0 <= i < |paths| ==> ValidPath(paths[i])
  }

  function Repeated(s: Stack, n: nat): multiset<Stack> {
    multiset{}[s := n]
  }

  /** The stacks that a profile's paths stand for, each path counted `samples` times. */
  function Unfolded(paths: seq<Path>): multiset<Stack>
    requires ValidPaths(paths)
  {
    if paths == [] then multiset{}
    else
      var last := paths[|paths| - 1];
      Unfolded(paths[..|paths| - 1]) + Repeated(PathStack(last), last.samples)
  }

  function Terminal(s: RawSample): nat {
    if s.termination == Some(TerminalUnverified) then 1 else 0
  }

  function TerminalSamples(samples: seq<RawSample>): nat {
    if samples == [] then 0
    else TerminalSamples(samples[..|samples| - 1]) + Terminal(samples[|samples| - 1])
  }

  ghost predicate AcceptableProfile(profile: Profile, raw: RawCapture) {
    && profile.attempted == raw.attempted
    && profile.collected == profile.included == raw.collected
    && ValidPaths(profile.paths)
    && Unfolded(profile.paths) == Collected(raw.samples)
    && profile.terminal == TerminalSamples(raw.samples)
    && profile.truncated == |raw.samples| - TerminalSamples(raw.samples)
  }

  /** A count dictionary that represents a multiset. */
  ghost predicate Represents(counts: map<Stack, nat>, stacks: multiset<Stack>) {
    && (forall s :: s in counts <==> s in stacks)
    && forall s :: s in counts ==> counts[s] == stacks[s]
  }

  lemma {:induction false} RepresentsAdd(counts: map<Stack, nat>, stacks: multiset<Stack>, s: Stack, n: nat)
    requires Represents(counts, stacks) && 1 <= n
    ensures Represents(counts[s := Count(counts, s) + n], stacks + Repeated(s, n))
  {
  }

  lemma {:induction false} RepresentedEqually(a: map<Stack, nat>, b: map<Stack, nat>, x: multiset<Stack>, y: multiset<Stack>)
    requires Represents(a, x) && Represents(b, y)
    ensures a == b <==> x == y
  {
    if a == b {
      forall s ensures x[s] == y[s] {
        assert s in a <==> s in x;
        assert s in b <==> s in y;
      }
    }
    if x == y {
      assert forall s :: s in a <==> s in b;
    }
  }

  method ReadPath(path: Path) returns (stack: Option<Stack>)
    ensures stack.Some? <==> ValidPath(path)
    ensures stack.Some? ==> stack.value == PathStack(path)
  {
    if path.boundary.None? || path.samples < 1 { return None; }
    var key: seq<Frame> := [];
    for i := 0 to |path.frames|
      invariant key == Objects(path.frames[..i])
      invariant |key| <= i && (|key| == i <==> forall k :: 0 <= k < i ==> path.frames[k].Some?)
    {
      assert path.frames[..i + 1][..i] == path.frames[..i];
      if path.frames[i].Some? { key := key + [path.frames[i].value]; }
    }
    assert path.frames[..|path.frames|] == path.frames;
    if |key| != |path.frames| { return None; }
    return Some(Stack(path.boundary, key));
  }

  lemma {:induction false} CollectedNext(samples: seq<RawSample>, sample: RawSample, counts: map<Stack, nat>)
    requires Represents(counts, Collected(samples))
    ensures var s := StackOf(sample); Represents(counts[s := Count(counts, s) + 1], Collected(samples + [sample]))
  {
    var s := StackOf(sample);
    assert (samples + [sample])[..|samples|] == samples;
    RepresentsAdd(counts, Collected(samples), s, 1);
    assert Repeated(s, 1) == multiset{s};
  }

  lemma {:induction false} TerminalNext(samples: seq<RawSample>, sample: RawSample)
    ensures TerminalSamples(samples + [sample]) == TerminalSamples(samples) + Terminal(sample)
  {
    assert (samples + [sample])[..|samples|] == samples;
  }

  lemma {:induction false} ValidNext(paths: seq<Path>, path: Path)
    ensures ValidPaths(paths + [path]) <==> ValidPaths(paths) && ValidPath(path)
  {
    var all := paths + [path];
    assert all[|paths|] == path && forall k :: 0 <= k < |paths| ==> all[k] == paths[k];
  }

  lemma {:induction false} UnfoldedNext(paths: seq<Path>, path: Path, counts: map<Stack, nat>)
    requires ValidPaths(paths) && ValidPath(path) && Represents(counts, Unfolded(paths))
    ensures var s := PathStack(path);
            ValidPaths(paths + [path]) && Represents(counts[s := Count(counts, s) + path.samples], Unfolded(paths + [path]))
  {
    ValidNext(paths, path);
    assert (paths + [path])[..|paths|] == paths;
    RepresentsAdd(counts, Unfolded(paths), PathStack(path), path.samples);
  }

  lemma {:induction false} ValidPrefix(paths: seq<Path>, n: nat)
    requires n <= |paths|
    ensures ValidPaths(paths) ==> ValidPaths(paths[..n])
  {
  }

  /** What the loop over raw samples has counted. */
  ghost predicate CountedRaw(samples: seq<RawSample>, expected: map<Stack, nat>, terminal: nat) {
    Represents(expected, Collected(samples)) && terminal == TerminalSamples(samples)
  }

  lemma {:induction false} CountedNext(samples: seq<RawSample>, sample: RawSample, expected: map<Stack, nat>, terminal: nat)
    requires CountedRaw(samples, expected, terminal)
    ensures var s := StackOf(sample);
            CountedRaw(samples + [sample], expected[s := Count(expected, s) + 1], terminal + Terminal(sample))
  {
    CollectedNext(samples, sample, expected);
    TerminalNext(samples, sample);
  }

  method CountRaw(samples: seq<RawSample>) returns (expected: map<Stack, nat>, terminal: nat, truncated: int)
    ensures Represents(expected, Collected(samples))
    ensures terminal == TerminalSamples(samples) && truncated == |samples| - terminal
  {
    expected, terminal, truncated := map[], 0, 0;
    for i := 0 to |samples|
      invariant CountedRaw(samples[..i], expected, terminal) && truncated == i - terminal
    {
      PrefixGrows(samples, i);
      CountedNext(samples[..i], samples[i], expected, terminal);
      var sample := samples[i];
      if sample.termination == Some(TerminalUnverified) { terminal := terminal + 1; } else { truncated := truncated + 1; }
      var tagged := StackOf(sample);
      expected := expected[tagged := Count(expected, tagged) + 1];
    }
    PrefixIsWhole(samples);
  }

  method CountPaths(paths: seq<Path>) returns (r: Option<map<Stack, nat>>)
    ensures r.Some? <==> ValidPaths(paths)
    ensures r.Some? ==> Represents(r.value, Unfolded(paths))
  {
    var actual: map<Stack, nat> := map[];
    for i := 0 to |paths|
      invariant ValidPaths(paths[..i]) && Represents(actual, Unfolded(paths[..i]))
    {
      PrefixGrows(paths, i);
      ValidNext(paths[..i], paths[i]);
      ValidPrefix(paths, i + 1);
      var tagged := ReadPath(paths[i]);
      if tagged.None? { return None; }
      UnfoldedNext(paths[..i], paths[i], actual);
      actual := actual[tagged.value := Count(actual, tagged.value) + paths[i].samples];
    }
    PrefixIsWhole(paths);
    return Some(actual);
  }

  /** The fold-derivation check: two count dictionaries compared as dictionaries. */
  method CheckProfile(profile: Profile, raw: RawCapture) returns (accepted: bool)
    ensures accepted <==> AcceptableProfile(profile, raw)
  {
    if profile.attempted != raw.attempted || profile.collected != raw.collected { return false; }
    var expected, terminal, truncated := CountRaw(raw.samples);
    var actual := CountPaths(profile.paths);
    if actual.None? { return false; }
    RepresentedEqually(actual.value, expected, Unfolded(profile.paths), Collected(raw.samples));
    accepted := && actual.value == expected
                && profile.included == raw.collected
                && profile.terminal == terminal
                && profile.truncated == truncated;
  }

  // ---------------------------------------------------------------- flame-graph boundaries

  datatype NodeKind = FrameNode | BoundaryNode | OtherNode

  /** One listed node. `reason` is the data-boundary attribute: outer None when absent, inner None
      when it is not a known reason. */
  datatype Node = Node(kind: NodeKind, depthIsZero: bool, samples: nat, reason: Option<Option<Boundary>>)

  predicate ValidNode(n: Node) {
    if n.kind == BoundaryNode then n.depthIsZero && n.reason.Some? && n.reason.value.Some?
    else n.reason.None? && !n.depthIsZero
  }

  function ReasonOf(n: Node): Option<Boundary> {
    if n.kind == BoundaryNode && n.reason.Some? then n.reason.value else None
  }

  function DrawnSamples(nodes: seq<Node>, reason: Boundary): nat {
    if nodes == [] then 0
    else
      var last := nodes[|nodes| - 1];
      DrawnSamples(nodes[..|nodes| - 1], reason) + if ReasonOf(last) == Some(reason) then last.samples else 0
  }

  predicate Drawn(nodes: seq<Node>, reason: Boundary) {
    exists i :: 0 <= i < |nodes| && ReasonOf(nodes[i]) == Some(reason)
  }

  function FoldedSamples(paths: seq<Path>, reason: Boundary): int {
    if paths == [] then 0
    else
      var last := paths[|paths| - 1];
      FoldedSamples(paths[..|paths| - 1], reason) + if last.boundary == Some(reason) then last.samples else 0
  }

  predicate Folded(paths: seq<Path>, reason: Boundary) {
    exists i :: 0 <= i < |paths| && paths[i].boundary == Some(reason)
  }

  /** A zero-sample boundary node still creates a dictionary key, so presence matters too. */
  ghost predicate AcceptableBoundaries(nodes: seq<Node>, paths: seq<Path>) {
    && nodes != []
    && (forall i :: 0 <= i < |nodes| ==> ValidNode(nodes[i]))
    && forall reason :: (Drawn(nodes, reason) <==> Folded(paths, reason))
                        && DrawnSamples(nodes, reason) == FoldedSamples(paths, reason)
  }

  method CountNodes(nodes: seq<Node>) returns (r: Option<map<Boundary, int>>)
    ensures r.Some? <==> forall i :: 0 <= i < |nodes| ==> ValidNode(nodes[i])
    ensures r.Some? ==> forall reason ::
              (reason in r.value <==> Drawn(nodes, reason)) && At(r.value, reason) == DrawnSamples(nodes, reason)
  {
    var counts: map<Boundary, int> := map[];
    for i := 0 to |nodes|
      invariant forall k :: 0 <= k < i ==> ValidNode(nodes[k])
      invariant forall reason :: (reason in counts <==> Drawn(nodes[..i], reason))
                                 && At(counts, reason) == DrawnSamples(nodes[..i], reason)
    {
      var node := nodes[i];
      DrawnNext(nodes, i);
      if node.kind == BoundaryNode {
        if !node.depthIsZero || node.reason.None? || node.reason.value.None? { return None; }
        var reason := node.reason.value.value;
        counts := counts[reason := At(counts, reason) + node.samples];
      } else if node.reason.Some? || node.depthIsZero {
        return None;
      }
    }
    assert nodes[..|nodes|] == nodes;
    return Some(counts);
  }

  lemma {:induction false} DrawnNext(nodes: seq<Node>, i: nat)
    requires i < |nodes|
    ensures forall reason :: Drawn(nodes[..i + 1], reason) <==> Drawn(nodes[..i], reason) || ReasonOf(nodes[i]) == Some(reason)
    ensures forall reason :: DrawnSamples(nodes[..i + 1], reason) ==
                             DrawnSamples(nodes[..i], reason) + if ReasonOf(nodes[i]) == Some(reason) then nodes[i].samples else 0
  {
    var next := nodes[..i + 1];
    assert next[..i] == nodes[..i] && next[i] == nodes[i];
    assert forall k :: 0 <= k < i ==> next[k] == nodes[..i][k];
  }

  method CountBoundaries(paths: seq<Path>) returns (counts: map<Boundary, int>)
    requires ValidPaths(paths)
    ensures forall reason :: (reason in counts <==> Folded(paths, reason))
                             && At(counts, reason) == FoldedSamples(paths, reason)
  {
    counts := map[];
    for i := 0 to |paths|
      invariant forall reason :: (reason in counts <==> Folded(paths[..i], reason))
                                 && At(counts, reason) == FoldedSamples(paths[..i], reason)
    {
      FoldedNext(paths, i);
      var reason := paths[i].boundary.value;
      counts := counts[reason := At(counts, reason) + paths[i].samples];
    }
    assert paths[..|paths|] == paths;
  }

  lemma {:induction false} FoldedNext(paths: seq<Path>, i: nat)
    requires i < |paths|
    ensures forall reason :: Folded(paths[..i + 1], reason) <==> Folded(paths[..i], reason) || paths[i].boundary == Some(reason)
    ensures forall reason :: FoldedSamples(paths[..i + 1], reason) ==
                             FoldedSamples(paths[..i], reason) + if paths[i].boundary == Some(reason) then paths[i].samples else 0
  {
    var next := paths[..i + 1];
    assert next[..i] == paths[..i] && next[i] == paths[i];
    assert forall k :: 0 <= k < i ==> next[k] == paths[..i][k];
  }

  /** The boundary accounting of the flame graph, given a profile that passed its own check. */
  method CheckBoundaries(nodes: seq<Node>, paths: seq<Path>) returns (accepted: bool)
    requires ValidPaths(paths)
    ensures accepted <==> AcceptableBoundaries(nodes, paths)
  {
    if nodes == [] { return false; }
    var actual := CountNodes(nodes);
    if actual.None? { return false; }
    var expected := CountBoundaries(paths);
    SameCounts(actual.value, expected);
    accepted := actual.value == expected;
  }

  function At(counts: map<Boundary, int>, reason: Boundary): int {
    if reason in counts then counts[reason] else 0
  }

  lemma {:induction false} SameCounts(a: map<Boundary, int>, b: map<Boundary, int>)
    ensures a == b <==> forall reason :: (reason in a <==> reason in b) && At(a, reason) == At(b, reason)
  {
    if forall reason :: (reason in a <==> reason in b) && At(a, reason) == At(b, reason) {
      forall reason | reason in a ensures reason in b && a[reason] == b[reason] {
        assert At(a, reason) == At(b, reason);
      }
      assert forall reason | reason in b :: At(a, reason) == At(b, reason) && reason in a;
      assert a.Keys == b.Keys;
    }
  }
}
