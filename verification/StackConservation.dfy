/** Every sample survives the way from raw stacks to folded paths to flame-graph boundaries. */
module StackConservation {
  import opened Outcomes
  import opened StackProfile
  import opened Sums

  // ---------------------------------------------------------------- per-stack and total counts

  function PathTotal(paths: seq<Path>): int {
    if paths == [] then 0 else PathTotal(paths[..|paths| - 1]) + paths[|paths| - 1].samples
  }

  function PathSamplesOf(paths: seq<Path>, s: Stack): int {
    if paths == [] then 0
    else
      var last := paths[|paths| - 1];
      PathSamplesOf(paths[..|paths| - 1], s) + if PathStack(last) == s then last.samples else 0
  }

  function RawSamplesOf(samples: seq<RawSample>, s: Stack): nat {
    if samples == [] then 0
    else RawSamplesOf(samples[..|samples| - 1], s) + if StackOf(samples[|samples| - 1]) == s then 1 else 0
  }

  function RawWithReason(samples: seq<RawSample>, reason: Boundary): nat {
    if samples == [] then 0
    else RawWithReason(samples[..|samples| - 1], reason) + if samples[|samples| - 1].termination == Some(reason) then 1 else 0
  }

  lemma {:induction false} UnfoldedCounts(paths: seq<Path>, s: Stack)
    requires ValidPaths(paths)
    ensures Unfolded(paths)[s] == PathSamplesOf(paths, s)
  {
    if paths != [] {
      UnfoldedCounts(paths[..|paths| - 1], s);
    }
  }

  lemma {:induction false} CollectedCounts(samples: seq<RawSample>, s: Stack)
    ensures Collected(samples)[s] == RawSamplesOf(samples, s)
  {
    if samples != [] {
      CollectedCounts(samples[..|samples| - 1], s);
    }
  }

  lemma {:induction false} UnfoldedSize(paths: seq<Path>)
    requires ValidPaths(paths)
    ensures |Unfolded(paths)| == PathTotal(paths)
  {
    if paths != [] {
      var last := paths[|paths| - 1];
      UnfoldedSize(paths[..|paths| - 1]);
      assert |Repeated(PathStack(last), last.samples)| == last.samples;
    }
  }

  lemma {:induction false} CollectedSize(samples: seq<RawSample>)
    ensures |Collected(samples)| == |samples|
  {
    if samples != [] {
      CollectedSize(samples[..|samples| - 1]);
    }
  }

  ghost predicate SameCountPerStack(paths: seq<Path>, samples: seq<RawSample>) {
    forall s :: PathSamplesOf(paths, s) == RawSamplesOf(samples, s)
  }

  /** A profile's paths are the fold of the raw samples exactly when every stack occurs equally often
      in both. */
  lemma {:induction false} FoldIsPerStackCount(paths: seq<Path>, samples: seq<RawSample>)
    requires ValidPaths(paths)
    ensures Unfolded(paths) == Collected(samples) <==> SameCountPerStack(paths, samples)
  {
    var a, b := Unfolded(paths), Collected(samples);
    if a == b {
      forall s ensures PathSamplesOf(paths, s) == RawSamplesOf(samples, s) {
        UnfoldedCounts(paths, s);
        CollectedCounts(samples, s);
      }
    } else if SameCountPerStack(paths, samples) {
      forall s | s in a + b ensures a[s] == b[s] {
        UnfoldedCounts(paths, s);
        CollectedCounts(samples, s);
      }
    }
  }

  lemma {:induction false} TerminalIsAReason(samples: seq<RawSample>)
    ensures TerminalSamples(samples) == RawWithReason(samples, TerminalUnverified)
  {
    if samples != [] {
      TerminalIsAReason(samples[..|samples| - 1]);
    }
  }

  /** No sample is lost or invented between the capture and an accepted profile. */
  lemma {:induction false} ProfileConservesSamples(raw: RawCapture, limits: Limits, profile: Profile)
    requires AcceptableRaw(raw, limits) && AcceptableProfile(profile, raw)
    ensures PathTotal(profile.paths) == raw.collected == profile.included == profile.terminal + profile.truncated
    ensures profile.terminal == RawWithReason(raw.samples, TerminalUnverified)
  {
    UnfoldedSize(profile.paths);
    CollectedSize(raw.samples);
    TerminalIsAReason(raw.samples);
  }

  // ---------------------------------------------------------------- counting by reason

  /** How many members of a multiset of stacks ended for a reason. */
  ghost function WithReason(stacks: multiset<Stack>, reason: Boundary): nat
    decreases |stacks|
  {
    if stacks == multiset{} then 0
    else
      var s :| s in stacks;
      (if s.boundary == Some(reason) then 1 else 0) + WithReason(stacks - multiset{s}, reason)
  }

  lemma {:induction false} RemoveTwo<T>(m: multiset<T>, a: T, b: T)
    requires a in m && b in m && a != b
    ensures b in m - multiset{a} && a in m - multiset{b}
    ensures m - multiset{a} - multiset{b} == m - multiset{b} - multiset{a}
    ensures |m - multiset{a}| == |m - multiset{b}| == |m| - 1
  {
  }

  lemma {:induction false} WithReasonRemove(stacks: multiset<Stack>, s: Stack, reason: Boundary)
    requires s in stacks
    ensures WithReason(stacks, reason) ==
            (if s.boundary == Some(reason) then 1 else 0) + WithReason(stacks - multiset{s}, reason)
    decreases |stacks|
  {
    var first :| first in stacks && WithReason(stacks, reason) ==
                   (if first.boundary == Some(reason) then 1 else 0) + WithReason(stacks - multiset{first}, reason);
    if first != s {
      RemoveTwo(stacks, first, s);
      WithReasonRemove(stacks - multiset{first}, s, reason);
      WithReasonRemove(stacks - multiset{s}, first, reason);
    }
  }

  lemma {:induction false} OneMoreRepeated(stacks: multiset<Stack>, s: Stack, n: nat)
    requires 0 < n
    ensures s in stacks + Repeated(s, n)
    ensures stacks + Repeated(s, n) - multiset{s} == stacks + Repeated(s, n - 1)
  {
  }

  lemma {:induction false} WithReasonAdd(stacks: multiset<Stack>, s: Stack, n: nat, reason: Boundary)
    ensures WithReason(stacks + Repeated(s, n), reason) ==
            WithReason(stacks, reason) + if s.boundary == Some(reason) then n else 0
    decreases n
  {
    if n == 0 {
      assert stacks + Repeated(s, n) == stacks;
    } else {
      OneMoreRepeated(stacks, s, n);
      WithReasonAdd(stacks, s, n - 1, reason);
      WithReasonRemove(stacks + Repeated(s, n), s, reason);
    }
  }

  lemma {:induction false} UnfoldedReasons(paths: seq<Path>, reason: Boundary)
    requires ValidPaths(paths)
    ensures WithReason(Unfolded(paths), reason) == FoldedSamples(paths, reason)
  {
    if paths != [] {
      var last := paths[|paths| - 1];
      UnfoldedReasons(paths[..|paths| - 1], reason);
      WithReasonAdd(Unfolded(paths[..|paths| - 1]), PathStack(last), last.samples, reason);
    }
  }

  lemma {:induction false} CollectedReasons(samples: seq<RawSample>, reason: Boundary)
    ensures WithReason(Collected(samples), reason) == RawWithReason(samples, reason)
  {
    if samples != [] {
      var last := StackOf(samples[|samples| - 1]);
      CollectedReasons(samples[..|samples| - 1], reason);
      WithReasonAdd(Collected(samples[..|samples| - 1]), last, 1, reason);
      assert Repeated(last, 1) == multiset{last};
    }
  }

  lemma {:induction false} ReasonsCoverSamples(samples: seq<RawSample>)
    requires forall i :: 0 <= i < |samples| ==> samples[i].termination.Some?
    ensures |samples| == RawWithReason(samples, TerminalUnverified) + RawWithReason(samples, MaxFrames)
                       + RawWithReason(samples, PcReadFailed) + RawWithReason(samples, FrameCycle)
                       + RawWithReason(samples, HaltDeadline)
  {
    if samples != [] {
      var last := samples[|samples| - 1];
      ReasonsCoverSamples(samples[..|samples| - 1]);
      assert last.termination.Some?;
      match last.termination.value {
        case TerminalUnverified =>
        case MaxFrames =>
        case PcReadFailed =>
        case FrameCycle =>
        case HaltDeadline =>
      }
    }
  }

  /** The boundary nodes of an accepted flame graph count exactly the raw samples that ended for each
      reason, and together they account for every collected sample. */
  lemma {:induction false} FlameGraphConservesSamples(raw: RawCapture, limits: Limits, profile: Profile, nodes: seq<Node>)
    requires AcceptableRaw(raw, limits) && AcceptableProfile(profile, raw) && AcceptableBoundaries(nodes, profile.paths)
    ensures forall reason :: DrawnSamples(nodes, reason) == RawWithReason(raw.samples, reason)
    ensures raw.collected == DrawnSamples(nodes, TerminalUnverified) + DrawnSamples(nodes, MaxFrames)
                           + DrawnSamples(nodes, PcReadFailed) + DrawnSamples(nodes, FrameCycle)
                           + DrawnSamples(nodes, HaltDeadline)
    ensures forall reason :: Drawn(nodes, reason) <==> 0 < RawWithReason(raw.samples, reason)
  {
    forall reason
      ensures DrawnSamples(nodes, reason) == RawWithReason(raw.samples, reason)
      ensures Drawn(nodes, reason) <==> 0 < RawWithReason(raw.samples, reason)
    {
      UnfoldedReasons(profile.paths, reason);
      CollectedReasons(raw.samples, reason);
      FoldedIffPositive(profile.paths, reason);
    }
    ReasonsCoverSamples(raw.samples);
  }

  lemma {:induction false} FoldedIffPositive(paths: seq<Path>, reason: Boundary)
    requires ValidPaths(paths)
    ensures 0 <= FoldedSamples(paths, reason)
    ensures Folded(paths, reason) <==> 0 < FoldedSamples(paths, reason)
  {
    if paths != [] {
      var prefix := paths[..|paths| - 1];
      FoldedIffPositive(prefix, reason);
      FoldedNext(paths, |prefix|);
      assert paths[..|paths|] == paths;
    }
  }

  // ---------------------------------------------------------------- presentation does not matter

  lemma {:induction false} ValidConcat(a: seq<Path>, b: seq<Path>)
    ensures ValidPaths(a + b) <==> ValidPaths(a) && ValidPaths(b)
  {
    if ValidPaths(a + b) {
      forall i | 0 <= i < |a| ensures ValidPath(a[i]) { assert (a + b)[i] == a[i]; }
      forall i | 0 <= i < |b| ensures ValidPath(b[i]) { assert (a + b)[|a| + i] == b[i]; }
    }
  }

  lemma {:induction false} UnfoldedConcat(a: seq<Path>, b: seq<Path>)
    requires ValidPaths(a) && ValidPaths(b) && ValidPaths(a + b)
    ensures Unfolded(a + b) == Unfolded(a) + Unfolded(b)
  {
    if b == [] {
      assert a + b == a;
    } else {
      var init := b[..|b| - 1];
      assert (a + b)[..|a + b| - 1] == a + init;
      UnfoldedConcat(a, init);
    }
  }

  lemma {:induction false} UnfoldedOne(p: Path)
    requires ValidPath(p)
    ensures ValidPaths([p]) && Unfolded([p]) == Repeated(PathStack(p), p.samples)
  {
    assert [p][..0] == [];
  }

  /** Taking one path out of the middle removes exactly its repetitions. */
  lemma {:induction false} UnfoldedAround(a: seq<Path>, p: Path, b: seq<Path>)
    requires ValidPaths(a) && ValidPath(p) && ValidPaths(b)
    ensures ValidPaths(a + [p] + b) && ValidPaths(a + b)
    ensures Unfolded(a + [p] + b) == Unfolded(a + b) + Repeated(PathStack(p), p.samples)
  {
    UnfoldedOne(p);
    ValidConcat(a, [p]);
    ValidConcat(a + [p], b);
    ValidConcat(a, b);
    UnfoldedConcat(a, [p]);
    UnfoldedConcat(a + [p], b);
    UnfoldedConcat(a, b);
  }

  lemma {:induction false} UnfoldedPermutation(a: seq<Path>, b: seq<Path>)
    requires ValidPaths(a) && ValidPaths(b) && multiset(a) == multiset(b)
    ensures Unfolded(a) == Unfolded(b)
    decreases |a|
  {
    if a == [] {
      assert |multiset(b)| == 0;
    } else {
      var x, init := a[|a| - 1], a[..|a| - 1];
      assert a == init + [x];
      var k := PickOut(b, x);
      ValidConcat(b[..k], [x] + b[k + 1..]);
      ValidConcat(b[..k] + [x], b[k + 1..]);
      ValidConcat(b[..k], [x]);
      UnfoldedAround(b[..k], x, b[k + 1..]);
      UnfoldedPermutation(init, b[..k] + b[k + 1..]);
    }
  }

  lemma {:induction false} ValidPermutation(a: seq<Path>, b: seq<Path>)
    requires ValidPaths(a) && multiset(a) == multiset(b)
    ensures ValidPaths(b)
  {
    forall i | 0 <= i < |b| ensures ValidPath(b[i]) {
      assert b[i] in multiset(a);
    }
  }

  /** Reordering the paths of a profile never changes the verdict. */
  lemma {:induction false} PathOrderDoesNotMatter(profile: Profile, paths: seq<Path>, raw: RawCapture)
    requires multiset(paths) == multiset(profile.paths)
    ensures AcceptableProfile(profile, raw) <==> AcceptableProfile(profile.(paths := paths), raw)
  {
    if ValidPaths(profile.paths) {
      ValidPermutation(profile.paths, paths);
      UnfoldedPermutation(profile.paths, paths);
    } else if ValidPaths(paths) {
      ValidPermutation(paths, profile.paths);
    }
    SameVerdict(profile, paths, raw);
  }

  /** The verdict depends on the paths only through their validity and what they unfold to. */
  lemma {:induction false} SameVerdict(profile: Profile, paths: seq<Path>, raw: RawCapture)
    requires ValidPaths(paths) <==> ValidPaths(profile.paths)
    requires ValidPaths(paths) ==> Unfolded(paths) == Unfolded(profile.paths)
    ensures AcceptableProfile(profile, raw) <==> AcceptableProfile(profile.(paths := paths), raw)
  {
  }

  lemma {:induction false} SharedOut(p: Path, first: int)
    requires 1 <= first < p.samples
    ensures SharesOut(p, p.(samples := first), p.(samples := p.samples - first))
  {
  }

  lemma {:induction false} SplitAround(a: seq<Path>, p: Path, q: Path, r: Path, b: seq<Path>)
    requires SharesOut(p, q, r)
    ensures ValidPaths(a + [q] + ([r] + b)) <==> ValidPaths(a + [p] + b)
    ensures ValidPaths(a + [p] + b) ==> Unfolded(a + [q] + ([r] + b)) == Unfolded(a + [p] + b)
  {
    SplitIsValid(a, p, q, r, b);
    if ValidPaths(a + [p] + b) { SplitUnfolds(a, p, q, r, b); }
  }

  lemma {:induction false} SplitChangesNothing(paths: seq<Path>, k: nat, first: int)
    requires k < |paths| && 1 <= first < paths[k].samples
    ensures ValidPaths(SplitAt(paths, k, first)) <==> ValidPaths(paths)
    ensures ValidPaths(paths) ==> Unfolded(SplitAt(paths, k, first)) == Unfolded(paths)
  {
    var p, a, b := paths[k], paths[..k], paths[k + 1..];
    assert paths == a + [p] + b;
    var q, r := p.(samples := first), p.(samples := p.samples - first);
    SharedOut(p, first);
    SplitAround(a, p, q, r, b);
    assert SplitAt(paths, k, first) == a + [q] + ([r] + b);
  }

  /** Splitting a path's count over two entries never changes the verdict. */
  lemma {:induction false} SplittingDoesNotMatter(profile: Profile, k: nat, first: int, raw: RawCapture)
    requires k < |profile.paths| && 1 <= first < profile.paths[k].samples
    ensures AcceptableProfile(profile, raw) <==> AcceptableProfile(profile.(paths := SplitAt(profile.paths, k, first)), raw)
  {
    SplitChangesNothing(profile.paths, k, first);
    SameVerdict(profile, SplitAt(profile.paths, k, first), raw);
  }

  function SplitAt(paths: seq<Path>, k: nat, first: int): seq<Path>
    requires k < |paths|
  {
    var p := paths[k];
    paths[..k] + [p.(samples := first)] + ([p.(samples := p.samples - first)] + paths[k + 1..])
  }

  /** `q` and `r` share out the samples of `p`. */
  predicate SharesOut(p: Path, q: Path, r: Path) {
    1 <= q.samples && 1 <= r.samples && q == p.(samples := q.samples) && r == p.(samples := p.samples - q.samples)
  }

  lemma {:induction false} SplitIsValid(a: seq<Path>, p: Path, q: Path, r: Path, b: seq<Path>)
    requires SharesOut(p, q, r)
    ensures ValidPaths(a + [q] + ([r] + b)) <==> ValidPaths(a + [p] + b)
  {
    ValidAround(a, p, b);
    ValidAround(a, q, [r] + b);
    ValidAround([], r, b);
    assert [] + [r] + b == [r] + b;
  }

  lemma {:induction false} SplitUnfolds(a: seq<Path>, p: Path, q: Path, r: Path, b: seq<Path>)
    requires SharesOut(p, q, r) && ValidPaths(a + [p] + b) && ValidPaths(a + [q] + ([r] + b))
    ensures Unfolded(a + [q] + ([r] + b)) == Unfolded(a + [p] + b)
  {
    ValidAround(a, p, b);
    UnfoldedAround(a, p, b);
    TwoAround(a, q, r, b);
    assert PathStack(q) == PathStack(p) && PathStack(r) == PathStack(p);
    Recombine(Unfolded(a + b), PathStack(p), q.samples, r.samples);
  }

  lemma {:induction false} TwoAround(a: seq<Path>, q: Path, r: Path, b: seq<Path>)
    requires ValidPaths(a) && ValidPath(q) && ValidPath(r) && ValidPaths(b)
    ensures ValidPaths(a + b) && ValidPaths(a + [q] + ([r] + b))
    ensures Unfolded(a + [q] + ([r] + b)) ==
            Unfolded(a + b) + Repeated(PathStack(r), r.samples) + Repeated(PathStack(q), q.samples)
  {
    ValidAround([], r, b);
    assert [] + [r] + b == [r] + b;
    UnfoldedAround(a, q, [r] + b);
    assert a + [r] + b == a + ([r] + b);
    UnfoldedAround(a, r, b);
  }

  lemma {:induction false} ValidAround(a: seq<Path>, p: Path, b: seq<Path>)
    ensures ValidPaths(a + [p] + b) <==> ValidPaths(a) && ValidPath(p) && ValidPaths(b)
  {
    ValidConcat(a, [p]);
    ValidConcat(a + [p], b);
    assert ValidPaths([p]) <==> ValidPath([p][0]);
  }

  lemma {:induction false} Recombine(rest: multiset<Stack>, s: Stack, m: nat, n: nat)
    ensures rest + Repeated(s, n) + Repeated(s, m) == rest + Repeated(s, m + n)
  {
  }
}
