/** Context-switch rows and the rule that every switch leaves the context the previous one entered. */
module ContextSwitches {
  import opened Outcomes

  const TASK: string := "task"
  const IDLE: string := "idle"

  /** One row of a context-switch reference. */
  datatype Switch = Switch(
    ts: real,
    core: nat,
    previous: Option<string>,
    next: string,
    nextName: string,
    nextKind: string,
    nextPriority: int)

  function Lookup(active: map<nat, string>, core: nat): Option<string> {
    if core in active then Some(active[core]) else None
  }

  predicate Follows(active: map<nat, string>, row: Switch) {
    row.core in active ==> row.previous == Some(active[row.core])
  }

  /** The context scheduled on each core after the rows. */
  function ActiveAfter(rows: seq<Switch>): map<nat, string> {
    if rows == [] then map[]
    else ActiveAfter(rows[..|rows| - 1])[rows[|rows| - 1].core := rows[|rows| - 1].next]
  }

  lemma {:induction false} ActiveAfterAppend(rows: seq<Switch>, row: Switch)
    ensures ActiveAfter(rows + [row]) == ActiveAfter(rows)[row.core := row.next]
  {
    assert (rows + [row])[..|rows|] == rows;
  }

  ghost predicate Adjacent(rows: seq<Switch>, i: int, j: int) {
    && 0 <= i < j < |rows|
    && rows[i].core == rows[j].core
    && forall k :: i < k < j ==> rows[k].core != rows[j].core
  }

  /** On every core, each switch after the first declares the context entered by the one before. */
  ghost predicate Chained(rows: seq<Switch>) {
    forall i, j :: Adjacent(rows, i, j) ==> rows[j].previous == Some(rows[i].next)
  }

  ghost predicate LastOn(rows: seq<Switch>, core: nat, i: int) {
    0 <= i < |rows| && rows[i].core == core && forall k :: i < k < |rows| ==> rows[k].core != core
  }

  lemma {:induction false} LastOnNext(rows: seq<Switch>, row: Switch, core: nat, i: int)
    ensures LastOn(rows + [row], core, i) <==> if row.core == core then i == |rows| else LastOn(rows, core, i)
  {
    var all := rows + [row];
    assert all[|rows|] == row && forall k :: 0 <= k < |rows| ==> all[k] == rows[k];
  }

  lemma {:induction false} SwitchedNext(rows: seq<Switch>, row: Switch, core: nat)
    ensures (exists i :: 0 <= i < |rows + [row]| && (rows + [row])[i].core == core) <==>
            row.core == core || exists i :: 0 <= i < |rows| && rows[i].core == core
  {
    var all := rows + [row];
    assert all[|rows|] == row && forall k :: 0 <= k < |rows| ==> all[k] == rows[k];
  }

  lemma {:induction false} LastOnIsActive(rows: seq<Switch>, core: nat, i: int)
    requires LastOn(rows, core, i)
    ensures core in ActiveAfter(rows) && ActiveAfter(rows)[core] == rows[i].next
  {
    var init, row := rows[..|rows| - 1], rows[|rows| - 1];
    assert rows == init + [row];
    LastOnNext(init, row, core, i);
    if row.core != core { LastOnIsActive(init, core, i); }
  }

  lemma {:induction false} ActiveIsSwitched(rows: seq<Switch>, core: nat)
    ensures core in ActiveAfter(rows) <==> exists i :: 0 <= i < |rows| && rows[i].core == core
  {
    if rows != [] {
      var init, row := rows[..|rows| - 1], rows[|rows| - 1];
      assert rows == init + [row];
      ActiveIsSwitched(init, core);
      SwitchedNext(init, row, core);
    }
  }

  /** `core` is scheduled exactly when it has switched, and then to what its last switch entered. */
  lemma {:induction false} ActiveIsLastNext(rows: seq<Switch>, core: nat)
    ensures core in ActiveAfter(rows) <==> exists i :: 0 <= i < |rows| && rows[i].core == core
    ensures forall i :: 0 <= i < |rows| && rows[i].core == core && (forall k :: i < k < |rows| ==> rows[k].core != core)
              ==> core in ActiveAfter(rows) && ActiveAfter(rows)[core] == rows[i].next
  {
    ActiveIsSwitched(rows, core);
    forall i | 0 <= i < |rows| && rows[i].core == core && (forall k :: i < k < |rows| ==> rows[k].core != core)
      ensures core in ActiveAfter(rows) && ActiveAfter(rows)[core] == rows[i].next
    {
      assert LastOn(rows, core, i);
      LastOnIsActive(rows, core, i);
    }
  }

  lemma {:induction false} LastOnCore(rows: seq<Switch>, core: nat) returns (i: nat)
    requires core in ActiveAfter(rows)
    ensures i < |rows| && rows[i].core == core && forall k :: i < k < |rows| ==> rows[k].core != core
  {
    ActiveIsLastNext(rows, core);
    var n: int := |rows| - 1;
    while rows[n].core != core
      invariant 0 <= n < |rows|
      decreases n
      invariant forall k :: n < k < |rows| ==> rows[k].core != core
    {
      n := n - 1;
    }
    i := n;
  }

  /** Which rows are adjacent does not depend on what is appended. */
  lemma {:induction false} AdjacentStays(rows: seq<Switch>, row: Switch, i: int, j: int)
    requires 0 <= j < |rows|
    ensures Adjacent(rows + [row], i, j) <==> Adjacent(rows, i, j)
  {
    var all := rows + [row];
    assert forall k :: 0 <= k < |rows| ==> all[k] == rows[k];
  }

  /** The row before the appended one on its core is the one that entered the active context. */
  lemma {:induction false} AdjacentToLast(rows: seq<Switch>, row: Switch, i: int)
    requires Adjacent(rows + [row], i, |rows|)
    ensures row.core in ActiveAfter(rows) && ActiveAfter(rows)[row.core] == (rows + [row])[i].next
  {
    var all := rows + [row];
    assert forall k :: 0 <= k < |rows| ==> all[k] == rows[k];
    assert rows[i].core == row.core && forall k :: i < k < |rows| ==> rows[k].core != row.core;
    ActiveIsLastNext(rows, row.core);
  }

  lemma {:induction false} SomeAdjacentToLast(rows: seq<Switch>, row: Switch) returns (i: nat)
    requires row.core in ActiveAfter(rows)
    ensures Adjacent(rows + [row], i, |rows|)
  {
    i := LastOnCore(rows, row.core);
    var all := rows + [row];
    assert forall k :: 0 <= k < |rows| ==> all[k] == rows[k];
  }

  lemma {:induction false} ChainedMeansFollows(rows: seq<Switch>, row: Switch)
    requires Chained(rows + [row])
    ensures Chained(rows) && Follows(ActiveAfter(rows), row)
  {
    var all := rows + [row];
    forall i, j | Adjacent(rows, i, j) ensures rows[j].previous == Some(rows[i].next) {
      AdjacentStays(rows, row, i, j);
      assert Adjacent(all, i, j) && all[j] == rows[j] && all[i] == rows[i];
    }
    if row.core in ActiveAfter(rows) {
      var last := SomeAdjacentToLast(rows, row);
      AdjacentToLast(rows, row, last);
    }
  }

  lemma {:induction false} FollowsMeansChained(rows: seq<Switch>, row: Switch)
    requires Chained(rows) && Follows(ActiveAfter(rows), row)
    ensures Chained(rows + [row])
  {
    var all := rows + [row];
    forall i, j | Adjacent(all, i, j) ensures all[j].previous == Some(all[i].next) {
      if j < |rows| {
        AdjacentStays(rows, row, i, j);
        assert all[j] == rows[j] && all[i] == rows[i];
      } else {
        AdjacentToLast(rows, row, i);
      }
    }
  }

  lemma {:induction false} ChainedAppend(rows: seq<Switch>, row: Switch)
    ensures Chained(rows + [row]) <==> Chained(rows) && Follows(ActiveAfter(rows), row)
  {
    if Chained(rows + [row]) { ChainedMeansFollows(rows, row); }
    if Chained(rows) && Follows(ActiveAfter(rows), row) { FollowsMeansChained(rows, row); }
  }
}
