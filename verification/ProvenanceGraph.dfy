/** The provenance check of hil/harness.py: references resolve and the input graph has no cycle. */
module ProvenanceGraph {
  import opened Ordering
  import opened Outcomes

  type Id = string
  type Graph = map<Id, seq<Id>>

  datatype Artifact = Artifact(id: Id, inputs: seq<Id>)
  datatype Stage = Stage(inputs: seq<Id>, outputs: seq<Id>)
  datatype Fault = UnknownInput(id: Id) | SelfReference(id: Id) | UnknownStageArtifact | Cycle(id: Id)

  // ---------------------------------------------------------------- paths and cycles

  predicate Edge(g: Graph, a: Id, b: Id) {
    a in g && b in g[a]
  }

  ghost predicate IsPath(g: Graph, p: seq<Id>) {
    && p != []
    && forall i :: 0 <= i < |p| - 1 ==> Edge(g, p[i], p[i + 1])
  }

  ghost predicate IsCycle(g: Graph, p: seq<Id>) {
    IsPath(g, p) && 2 <= |p| && p[0] == p[|p| - 1]
  }

  ghost predicate Acyclic(g: Graph) {
    forall p :: !IsCycle(g, p)
  }

  predicate Closed(g: Graph) {
    forall a :: a in g ==> forall b :: b in g[a] ==> b in g
  }

  ghost function Elements<T>(s: seq<T>): set<T> {
    set x | x in s
  }

  /** `order` lists nodes so that every input of a listed node is listed before it. */
  ghost predicate Topological(g: Graph, order: seq<Id>) {
    && Distinct(order)
    && forall i :: 0 <= i < |order| ==>
         order[i] in g && forall d :: d in g[order[i]] ==> d in order[..i]
  }

  ghost function Position(order: seq<Id>, x: Id): (i: nat)
    requires x in order
    ensures i < |order| && order[i] == x
  {
    var i :| 0 <= i < |order| && order[i] == x;
    i
  }

  lemma {:induction false} EdgeGoesBack(g: Graph, order: seq<Id>, a: Id, b: Id)
    requires Topological(g, order) && a in order && Edge(g, a, b)
    ensures b in order && Position(order, b) < Position(order, a)
  {
    var i := Position(order, a);
    assert b in order[..i];
    var j :| 0 <= j < i && order[..i][j] == b;
    assert order[j] == b;
  }

  /** Along a path through a topological order, positions strictly decrease. */
  lemma {:induction false} PathGoesBack(g: Graph, order: seq<Id>, p: seq<Id>)
    requires Topological(g, order) && IsPath(g, p) && p[0] in order
    ensures p[|p| - 1] in order
    ensures 2 <= |p| ==> Position(order, p[|p| - 1]) < Position(order, p[0])
  {
    if 2 <= |p| {
      assert Edge(g, p[0], p[0 + 1]);
      EdgeGoesBack(g, order, p[0], p[1]);
      var q := p[1..];
      forall i | 0 <= i < |q| - 1 ensures Edge(g, q[i], q[i + 1]) {
        assert Edge(g, p[i + 1], p[i + 1 + 1]);
      }
      PathGoesBack(g, order, q);
    }
  }

  /** A topological order of every node leaves no room for a cycle. */
  lemma {:induction false} TopologicalOrderExcludesCycles(g: Graph, order: seq<Id>)
    requires Topological(g, order) && g.Keys <= Elements(order)
    ensures Acyclic(g)
  {
    forall p ensures !IsCycle(g, p) {
      if IsCycle(g, p) {
        assert Edge(g, p[0], p[0 + 1]);
        PathGoesBack(g, order, p);
      }
    }
  }

  // ---------------------------------------------------------------- the recursive visit

  /** The two sets that the nested function `visit` shares with its caller. */
  class CycleCheck {
    const inputs: Graph
    var visiting: set<Id>
    var visited: set<Id>
    /** Visited artifacts in the order in which their visits returned. */
    ghost var finished: seq<Id>

    constructor (inputs: Graph)
      ensures this.inputs == inputs && visiting == {} && visited == {} && finished == []
    {
      this.inputs := inputs;
      visiting, visited, finished := {}, {}, [];
    }

    /** `chain` is the chain of open calls; `visiting` holds exactly its members. */
    ghost predicate Valid(chain: seq<Id>)
      reads this
    {
      && Closed(inputs)
      && visiting <= inputs.Keys
      && visiting == Elements(chain)
      && visiting !! visited
      && (chain != [] ==> IsPath(inputs, chain))
      && Topological(inputs, finished)
      && visited == Elements(finished)
    }

    /** None when the call returns; otherwise the artifact named by the raised cycle error. */
    method Visit(id: Id, ghost chain: seq<Id>) returns (raised: Option<Id>, ghost cycle: seq<Id>)
      requires Valid(chain) && id in inputs
      requires chain != [] ==> Edge(inputs, chain[|chain| - 1], id)
      modifies this
      ensures raised.None? ==>
                && Valid(chain) && id in visited
                && old(visited) <= visited && old(finished) <= finished
      ensures raised.Some? ==> IsCycle(inputs, cycle) && cycle[0] == raised.value
      decreases inputs.Keys - visiting - visited
    {
      cycle := [];
      if id in visited {
        return None, cycle;
      }
      if id in visiting {
        var k := Position(chain, id);
        cycle := chain[k..] + [id];
        CloseChain(chain, k, id);
        return Some(id), cycle;
      }
      visiting := visiting + {id};
      ghost var extended := chain + [id];
      ghost var before := inputs.Keys - old(visiting) - old(visited);
      for i := 0 to |inputs[id]|
        invariant Valid(extended)
        invariant old(visited) <= visited && old(finished) <= finished
        invariant forall k :: 0 <= k < i ==> inputs[id][k] in visited
      {
        assert Edge(inputs, id, inputs[id][i]);
        assert id in before && id !in inputs.Keys - visiting - visited;
        raised, cycle := Visit(inputs[id][i], extended);
        if raised.Some? {
          return;
        }
      }
      visiting := visiting - {id};
      visited := visited + {id};
      AppendFinished(inputs, finished, id);
      finished := finished + [id];
      assert visiting == Elements(chain);
      raised := None;
    }

    lemma {:induction false} CloseChain(chain: seq<Id>, k: nat, id: Id)
      requires IsPath(inputs, chain) && k < |chain| && chain[k] == id
      requires Edge(inputs, chain[|chain| - 1], id)
      ensures IsCycle(inputs, chain[k..] + [id])
    {
      var c := chain[k..] + [id];
      forall i | 0 <= i < |c| - 1 ensures Edge(inputs, c[i], c[i + 1]) {
        if i + 1 < |c| - 1 {
          assert Edge(inputs, chain[k + i], chain[k + i + 1]);
        }
      }
    }
  }

  lemma {:induction false} AppendFinished(g: Graph, finished: seq<Id>, id: Id)
    requires Topological(g, finished) && id in g && id !in finished
    requires forall d :: d in g[id] ==> d in finished
    ensures Topological(g, finished + [id])
    ensures Elements(finished + [id]) == Elements(finished) + {id}
  {
    var next := finished + [id];
    forall i | 0 <= i < |next|
      ensures next[i] in g && forall d :: d in g[next[i]] ==> d in next[..i]
    {
      assert next[..i] == finished[..i];
    }
  }

  // ---------------------------------------------------------------- the whole check

  ghost predicate UniqueIds(artifacts: seq<Artifact>) {
    forall i, j :: 0 <= i < j < |artifacts| ==> artifacts[i].id != artifacts[j].id
  }

  /** The artifact dictionary of a verified session, as a graph. */
  function GraphOf(artifacts: seq<Artifact>): Graph
    requires UniqueIds(artifacts)
  {
    map a | a in artifacts :: a.id := a.inputs
  }

  predicate StagesResolve(g: Graph, stages: seq<Stage>) {
    forall s :: s in stages ==> forall x :: x in s.inputs + s.outputs ==> x in g
  }

  method CheckReferences(artifacts: seq<Artifact>, g: Graph) returns (r: Result<(), Fault>)
    requires UniqueIds(artifacts) && g == GraphOf(artifacts)
    ensures r.Ok? <==> Closed(g) && forall a :: a in g ==> !Edge(g, a, a)
    ensures r.Raised? ==> match r.fault
                          case UnknownInput(a) => a in g && exists d :: d in g[a] && d !in g
                          case SelfReference(a) => Edge(g, a, a)
                          case _ => false
  {
    for i := 0 to |artifacts|
      invariant forall k :: 0 <= k < i ==>
                  forall d :: d in artifacts[k].inputs ==> d in g && d != artifacts[k].id
    {
      var a := artifacts[i];
      assert a.id in g && g[a.id] == a.inputs;
      for j := 0 to |a.inputs|
        invariant forall k :: 0 <= k < j ==> a.inputs[k] in g && a.inputs[k] != a.id
      {
        var d := a.inputs[j];
        if d !in g { return Raised(UnknownInput(a.id)); }
        if d == a.id { return Raised(SelfReference(a.id)); }
      }
    }
    return Ok(());
  }

  /** Accepts exactly the closed, acyclic graphs whose stages resolve; `order` is the order in
      which the visits return. */
  method VerifyProvenanceGraph(artifacts: seq<Artifact>, stages: seq<Stage>)
    returns (r: Result<(), Fault>, ghost order: seq<Id>)
    requires UniqueIds(artifacts)
    ensures r.Ok? <==> var g := GraphOf(artifacts); Closed(g) && StagesResolve(g, stages) && Acyclic(g)
    ensures r.Raised? && r.fault.Cycle? ==> exists p :: IsCycle(GraphOf(artifacts), p) && p[0] == r.fault.id
    ensures r.Raised? && r.fault.SelfReference? ==> Edge(GraphOf(artifacts), r.fault.id, r.fault.id)
    ensures r.Ok? ==> Topological(GraphOf(artifacts), order) && Elements(order) == GraphOf(artifacts).Keys
  {
    order := [];
    var g := GraphOf(artifacts);
    r := CheckReferences(artifacts, g);
    if r.Raised? {
      if Closed(g) { SelfReferenceIsCycle(g); }
      return;
    }
    for i := 0 to |stages|
      invariant StagesResolve(g, stages[..i])
    {
      assert stages[..i + 1] == stages[..i] + [stages[i]];
      if exists x :: x in stages[i].inputs + stages[i].outputs && x !in g {
        return Raised(UnknownStageArtifact), order;
      }
    }
    assert stages[..|stages|] == stages;
    var check := new CycleCheck(g);
    for i := 0 to |artifacts|
      invariant check.Valid([]) && check.inputs == g
      invariant forall k :: 0 <= k < i ==> artifacts[k].id in check.visited
    {
      var raised, cycle := check.Visit(artifacts[i].id, []);
      if raised.Some? {
        assert IsCycle(g, cycle) && cycle[0] == raised.value;
        return Raised(Cycle(raised.value)), order;
      }
    }
    order := check.finished;
    assert Elements(order) == g.Keys;
    TopologicalOrderExcludesCycles(g, order);
    r := Ok(());
  }

  lemma {:induction false} SelfReferenceIsCycle(g: Graph)
    ensures Acyclic(g) ==> forall a :: !Edge(g, a, a)
  {
    forall a | Edge(g, a, a) ensures !Acyclic(g) {
      assert IsCycle(g, [a, a]);
    }
  }
}
