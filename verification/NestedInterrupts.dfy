/**
 Interrupt event rows, the per-core stack discipline that the harness checks on them, and an
 independent reading of that discipline: the rows of a core are accepted exactly when they are
 the traversal of a forest of nested activations.
 */
module NestedInterrupts {
  import opened Outcomes

  /** One row of an interrupt reference. `entering` is false for an exit event. */
  datatype Interrupt = Interrupt(
    entering: bool,
    ts: real,
    core: nat,
    id: string,
    name: string,
    priority: int,
    activation: string,
    depth: nat,
    parent: Option<string>,
    preempted: Option<string>)

  type Stack = seq<Interrupt>

  function TopActivation(stack: Stack): Option<string> {
    if stack == [] then None else Some(stack[|stack| - 1].activation)
  }

  predicate Closes(stack: Stack, row: Interrupt) {
    && stack != []
    && var top := stack[|stack| - 1];
       && row.depth == |stack|
       && row.parent == TopActivation(stack[..|stack| - 1])
       && row.id == top.id
       && row.activation == top.activation
       && row.priority == top.priority
       && row.preempted == top.preempted
  }

  /** The native parser's nesting rule for one row; None when it raises. */
  function Nest(stack: Stack, row: Interrupt): Option<Stack> {
    if row.entering then
      if row.depth == |stack| + 1 && row.parent == TopActivation(stack) then Some(stack + [row]) else None
    else
      if Closes(stack, row) then Some(stack[..|stack| - 1]) else None
  }

  /** The stack of open activations left by the rows of one core; None when some row is refused. */
  function OpenAfter(rows: seq<Interrupt>): Option<Stack> {
    if rows == [] then Some([])
    else
      var before := OpenAfter(rows[..|rows| - 1]);
      if before.None? then None else Nest(before.value, rows[|rows| - 1])
  }

  lemma {:induction false} OpenAfterAppend(rows: seq<Interrupt>, row: Interrupt)
    ensures OpenAfter(rows + [row]) ==
            if OpenAfter(rows).None? then None else Nest(OpenAfter(rows).value, row)
  {
    assert (rows + [row])[..|rows|] == rows;
  }

  lemma {:induction false} OpenAfterPrefix(rows: seq<Interrupt>, n: nat)
    requires n <= |rows| && OpenAfter(rows).Some?
    ensures OpenAfter(rows[..n]).Some?
    decreases |rows|
  {
    if n < |rows| {
      assert rows[..|rows| - 1][..n] == rows[..n];
      OpenAfterPrefix(rows[..|rows| - 1], n);
    } else {
      assert rows[..n] == rows;
    }
  }

  /** The rows of one core, in order. */
  function OnCore(rows: seq<Interrupt>, core: nat): seq<Interrupt> {
    if rows == [] then []
    else
      var row := rows[|rows| - 1];
      OnCore(rows[..|rows| - 1], core) + if row.core == core then [row] else []
  }

  lemma {:induction false} OnCoreAppend(rows: seq<Interrupt>, row: Interrupt)
    ensures forall core: nat :: OnCore(rows + [row], core) == OnCore(rows, core) + if row.core == core then [row] else []
  {
    assert (rows + [row])[..|rows|] == rows;
  }

  lemma {:induction false} OnCorePrefix(rows: seq<Interrupt>, n: nat, core: nat)
    requires n <= |rows|
    ensures OnCore(rows[..n], core) <= OnCore(rows, core)
    decreases |rows|
  {
    if n < |rows| {
      assert rows[..|rows| - 1][..n] == rows[..n];
      OnCorePrefix(rows[..|rows| - 1], n, core);
    } else {
      assert rows[..n] == rows;
    }
  }

  // ---------------------------------------------------------------- activation forests

  /** One interrupt activation with the activations nested inside it. */
  datatype Activation = Activation(enter: Interrupt, inner: seq<Activation>, exit: Interrupt)

  type Forest = seq<Activation>

  function Traverse(f: Forest): seq<Interrupt> {
    if f == [] then [] else TraverseOne(f[0]) + Traverse(f[1..])
  }

  function TraverseOne(a: Activation): seq<Interrupt> {
    [a.enter] + Traverse(a.inner) + [a.exit]
  }

  predicate Paired(a: Activation, depth: nat, parent: Option<string>) {
    && a.enter.entering && !a.exit.entering
    && a.enter.depth == a.exit.depth == depth
    && a.enter.parent == a.exit.parent == parent
    && a.enter.id == a.exit.id
    && a.enter.activation == a.exit.activation
    && a.enter.priority == a.exit.priority
    && a.enter.preempted == a.exit.preempted
  }

  /** Every activation's depth is its depth in the forest and its parent the enclosing activation. */
  predicate WellNested(f: Forest, depth: nat, parent: Option<string>) {
    f != [] ==>
      && Paired(f[0], depth, parent)
      && WellNested(f[0].inner, depth + 1, Some(f[0].enter.activation))
      && WellNested(f[1..], depth, parent)
  }

  ghost predicate Bracketed(rows: seq<Interrupt>) {
    exists f :: WellNested(f, 1, None) && Traverse(f) == rows
  }

  lemma {:induction false} TraverseAppend(f: Forest, a: Activation)
    ensures Traverse(f + [a]) == Traverse(f) + TraverseOne(a)
  {
    if f == [] {
      assert Traverse([a]) == TraverseOne(a) + Traverse([]);
    } else {
      assert (f + [a])[1..] == f[1..] + [a];
      TraverseAppend(f[1..], a);
    }
  }

  lemma {:induction false} WellNestedAppend(f: Forest, a: Activation, depth: nat, parent: Option<string>)
    requires WellNested(f, depth, parent) && WellNested([a], depth, parent)
    ensures WellNested(f + [a], depth, parent)
  {
    if f != [] {
      assert (f + [a])[1..] == f[1..] + [a];
      WellNestedAppend(f[1..], a, depth, parent);
    } else {
      assert f + [a] == [a];
    }
  }

  // ---------------------------------------------------------------- forests are accepted

  lemma {:induction false} Regroup<T>(p: seq<T>, x: T, m: seq<T>, y: T, t: seq<T>)
    ensures p + [x] + m + [y] + t == p + ([x] + m + [y] + t)
  {
  }

  /** Traversing a well nested forest from an open stack returns to that stack. */
  lemma {:induction false} ForestReturns(prefix: seq<Interrupt>, stack: Stack, f: Forest)
    requires OpenAfter(prefix) == Some(stack)
    requires WellNested(f, |stack| + 1, TopActivation(stack))
    ensures OpenAfter(prefix + Traverse(f)) == Some(stack)
    decreases f
  {
    if f == [] {
      assert prefix + Traverse(f) == prefix;
    } else {
      var a := f[0];
      var p1, s1 := prefix + [a.enter], stack + [a.enter];
      OpenAfterAppend(prefix, a.enter);
      assert Nest(stack, a.enter) == Some(s1) && TopActivation(s1) == Some(a.enter.activation);
      ForestReturns(p1, s1, a.inner);
      var p2 := p1 + Traverse(a.inner);
      OpenAfterAppend(p2, a.exit);
      assert s1[..|s1| - 1] == stack;
      assert Nest(s1, a.exit) == Some(stack);
      ForestReturns(p2 + [a.exit], stack, f[1..]);
      Regroup(prefix, a.enter, Traverse(a.inner), a.exit, Traverse(f[1..]));
    }
  }

  // ---------------------------------------------------------------- accepted rows are forests

  /** A traversal stopped part way: completed activations around the chain of open ones. */
  datatype Partial = Outside(done: Forest) | Inside(outer: Partial, enter: Interrupt, done: Forest)

  function OpenOf(p: Partial): Stack {
    match p
    case Outside(_) => []
    case Inside(outer, enter, _) => OpenOf(outer) + [enter]
  }

  function WordOf(p: Partial): seq<Interrupt> {
    match p
    case Outside(done) => Traverse(done)
    case Inside(outer, enter, done) => WordOf(outer) + [enter] + Traverse(done)
  }

  predicate PartialNested(p: Partial) {
    && WellNested(p.done, |OpenOf(p)| + 1, TopActivation(OpenOf(p)))
    && (p.Inside? ==>
          && PartialNested(p.outer)
          && p.enter.entering
          && p.enter.depth == |OpenOf(p.outer)| + 1
          && p.enter.parent == TopActivation(OpenOf(p.outer)))
  }

  /** Records the row as the end of the innermost open activation. */
  function Close(p: Partial, row: Interrupt): Partial
    requires p.Inside?
  {
    p.outer.(done := p.outer.done + [Activation(p.enter, p.done, row)])
  }

  lemma {:induction false} CloseKeepsNesting(p: Partial, row: Interrupt)
    requires PartialNested(p) && p.Inside? && !row.entering && Closes(OpenOf(p), row)
    ensures PartialNested(Close(p, row)) && OpenOf(Close(p, row)) == OpenOf(p.outer)
  {
    var a := Activation(p.enter, p.done, row);
    var stack := OpenOf(p.outer);
    assert OpenOf(p)[..|stack|] == stack;
    assert [a][1..] == [];
    assert WellNested([a], |stack| + 1, TopActivation(stack));
    WellNestedAppend(p.outer.done, a, |stack| + 1, TopActivation(stack));
  }

  lemma {:induction false} CloseAppendsRow(p: Partial, row: Interrupt)
    requires p.Inside?
    ensures WordOf(Close(p, row)) == WordOf(p) + [row]
  {
    var a := Activation(p.enter, p.done, row);
    TraverseAppend(p.outer.done, a);
    if p.outer.Inside? {
      var w := WordOf(p.outer.outer) + [p.outer.enter];
      assert w + (Traverse(p.outer.done) + TraverseOne(a)) == w + Traverse(p.outer.done) + [p.enter] + Traverse(p.done) + [row];
    }
  }

  lemma {:induction false} AcceptedHasPartial(rows: seq<Interrupt>) returns (p: Partial)
    requires OpenAfter(rows).Some?
    ensures PartialNested(p) && OpenOf(p) == OpenAfter(rows).value && WordOf(p) == rows
  {
    if rows == [] {
      p := Outside([]);
    } else {
      var prefix, row := rows[..|rows| - 1], rows[|rows| - 1];
      assert rows == prefix + [row];
      p := AcceptedHasPartial(prefix);
      if row.entering {
        p := Inside(p, row, []);
      } else {
        CloseKeepsNesting(p, row);
        CloseAppendsRow(p, row);
        assert OpenOf(p)[..|OpenOf(p)| - 1] == OpenOf(p.outer);
        p := Close(p, row);
      }
    }
  }

  /** The stack discipline accepts a core's rows and leaves nothing open exactly when the rows are
      the traversal of a well nested forest. */
  lemma {:induction false} AcceptedIffBracketed(rows: seq<Interrupt>)
    ensures OpenAfter(rows) == Some([]) <==> Bracketed(rows)
  {
    if OpenAfter(rows) == Some([]) {
      var p := AcceptedHasPartial(rows);
      assert WellNested(p.done, 1, None) && Traverse(p.done) == rows;
    }
    if Bracketed(rows) {
      var f :| WellNested(f, 1, None) && Traverse(f) == rows;
      ForestReturns([], [], f);
      assert [] + Traverse(f) == rows;
    }
  }

  // ---------------------------------------------------------------- counting

  function Enters(rows: seq<Interrupt>): nat {
    if rows == [] then 0 else Enters(rows[..|rows| - 1]) + if rows[|rows| - 1].entering then 1 else 0
  }

  /** Each row either opens or closes one activation. */
  lemma {:induction false} OpenCount(rows: seq<Interrupt>)
    requires OpenAfter(rows).Some?
    ensures |rows| + |OpenAfter(rows).value| == 2 * Enters(rows)
  {
    if rows != [] {
      OpenCount(rows[..|rows| - 1]);
    }
  }
}
