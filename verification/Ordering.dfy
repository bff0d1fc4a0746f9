/** Lexicographic order of strings, and stable sorting by a total preorder. */
module Ordering {
  // ---------------------------------------------------------------- strings

  /** Code-point order, as Python compares strings. */
  predicate StringLess(a: string, b: string) {
    if b == [] then false
    else if a == [] then true
    else a[0] < b[0] || (a[0] == b[0] && StringLess(a[1..], b[1..]))
  }

  predicate StringAtMost(a: string, b: string) {
    a == b || StringLess(a, b)
  }

  lemma {:induction false} StringTrichotomy(a: string, b: string)
    ensures StringLess(a, b) || a == b || StringLess(b, a)
    ensures StringLess(a, b) ==> a != b && !StringLess(b, a)
  {
    if a != [] && b != [] {
      assert a == [a[0]] + a[1..] && b == [b[0]] + b[1..];
      StringTrichotomy(a[1..], b[1..]);
    }
  }

  lemma {:induction false} StringTransitive(a: string, b: string, c: string)
    requires StringLess(a, b) && StringLess(b, c)
    ensures StringLess(a, c)
  {
    if a != [] && a[0] == b[0] && b[0] == c[0] {
      StringTransitive(a[1..], b[1..], c[1..]);
    }
  }

  predicate StringsAscend(rows: seq<string>) {
    forall i, j :: 0 <= i < j < |rows| ==> StringLess(rows[i], rows[j])
  }

  /** Two strictly ascending lists with the same members are equal. */
  lemma {:induction false} AscendingUnique(a: seq<string>, b: seq<string>)
    requires StringsAscend(a) && StringsAscend(b) && forall x :: x in a <==> x in b
    ensures a == b
  {
    assert b == [] || b[0] in b;
    if a != [] {
      assert a[0] in b;
      var x, y := a[|a| - 1], b[|b| - 1];
      LastIsGreatest(a);
      LastIsGreatest(b);
      assert x in b && y in a;
      StringTrichotomy(x, y);
      StringTrichotomy(y, x);
      assert x == y;
      var s := WithoutLast(a);
      var t := WithoutLast(b);
      AscendingUnique(s, t);
      assert a == s + [x] && b == t + [y];
    }
  }

  lemma {:induction false} LastIsGreatest(a: seq<string>)
    requires a != [] && StringsAscend(a)
    ensures forall x :: x in a ==> StringAtMost(x, a[|a| - 1])
  {
    forall x | x in a ensures StringAtMost(x, a[|a| - 1]) {
      var i :| 0 <= i < |a| && a[i] == x;
    }
  }

  lemma {:induction false} WithoutLast(a: seq<string>) returns (init: seq<string>)
    requires a != [] && StringsAscend(a)
    ensures init == a[..|a| - 1] && StringsAscend(init)
    ensures forall x :: x in init <==> x in a && x != a[|a| - 1]
  {
    var last := a[|a| - 1];
    init := a[..|a| - 1];
    assert a == init + [last];
    forall i | 0 <= i < |init| ensures init[i] != last {
      assert StringLess(a[i], a[|a| - 1]);
      StringTrichotomy(a[i], last);
    }
  }

  // ---------------------------------------------------------------- sort keys

  /** Tuples of strings, most significant part first. */
  predicate KeyAtMost(a: seq<string>, b: seq<string>) {
    a == [] || b == [] || StringLess(a[0], b[0]) || (a[0] == b[0] && KeyAtMost(a[1..], b[1..]))
  }

  lemma {:induction false} KeyOrderIsTotal(a: seq<string>, b: seq<string>)
    ensures KeyAtMost(a, b) || KeyAtMost(b, a)
  {
    if a != [] && b != [] {
      StringTrichotomy(a[0], b[0]);
      KeyOrderIsTotal(a[1..], b[1..]);
    }
  }

  lemma {:induction false} KeyOrderIsTransitive(a: seq<string>, b: seq<string>, c: seq<string>)
    requires |a| == |b| == |c| && KeyAtMost(a, b) && KeyAtMost(b, c)
    ensures KeyAtMost(a, c)
  {
    if a != [] {
      if StringLess(a[0], b[0]) {
        if StringLess(b[0], c[0]) { StringTransitive(a[0], b[0], c[0]); }
      } else if a[0] == b[0] == c[0] && !StringLess(b[0], c[0]) {
        KeyOrderIsTransitive(a[1..], b[1..], c[1..]);
      }
    }
  }

  lemma {:induction false} KeyAntisymmetric(a: seq<string>, b: seq<string>)
    requires |a| == |b| && KeyAtMost(a, b) && KeyAtMost(b, a)
    ensures a == b
  {
    if a != [] {
      StringTrichotomy(a[0], b[0]);
      KeyAntisymmetric(a[1..], b[1..]);
      assert a == [a[0]] + a[1..] && b == [b[0]] + b[1..];
    }
  }

  // ---------------------------------------------------------------- sorting

  predicate Distinct<T(==)>(s: seq<T>) {
    forall i, j :: 0 <= i < j < |s| ==> s[i] != s[j]
  }

  ghost predicate TotalPreorder<T(!new)>(atMost: (T, T) -> bool) {
    && (forall a, b :: atMost(a, b) || atMost(b, a))
    && forall a, b, c :: atMost(a, b) && atMost(b, c) ==> atMost(a, c)
  }

  ghost predicate Sorted<T>(s: seq<T>, atMost: (T, T) -> bool) {
    forall i, j :: 0 <= i < j < |s| ==> atMost(s[i], s[j])
  }

  /** Members that the order does not separate are equal. */
  ghost predicate Separates<T>(atMost: (T, T) -> bool, s: seq<T>) {
    forall a, b :: a in s && b in s && atMost(a, b) && atMost(b, a) ==> a == b
  }

  function Insert<T>(s: seq<T>, x: T, atMost: (T, T) -> bool): seq<T> {
    if s == [] || !atMost(s[0], x) then [x] + s else [s[0]] + Insert(s[1..], x, atMost)
  }

  /** A stable sort: an element follows the earlier elements it does not precede. */
  function Sort<T>(s: seq<T>, atMost: (T, T) -> bool): seq<T> {
    if s == [] then [] else Insert(Sort(s[..|s| - 1], atMost), s[|s| - 1], atMost)
  }

  lemma {:induction false} HeadAndTail<T>(s: seq<T>)
    requires s != []
    ensures multiset(s) == multiset{s[0]} + multiset(s[1..])
  {
    assert s == [s[0]] + s[1..];
  }

  lemma {:induction false} InsertAdds<T>(s: seq<T>, x: T, atMost: (T, T) -> bool)
    ensures multiset(Insert(s, x, atMost)) == multiset(s) + multiset{x}
  {
    if s != [] && atMost(s[0], x) {
      InsertAdds(s[1..], x, atMost);
      HeadAndTail(s);
      assert Insert(s, x, atMost) == [s[0]] + Insert(s[1..], x, atMost);
    }
  }

  lemma {:induction false} InsertSorts<T(!new)>(s: seq<T>, x: T, atMost: (T, T) -> bool)
    requires TotalPreorder(atMost) && Sorted(s, atMost)
    ensures Sorted(Insert(s, x, atMost), atMost)
  {
    if s == [] {
    } else if !atMost(s[0], x) {
      assert atMost(x, s[0]);
      forall j | 0 <= j < |s| ensures atMost(x, s[j]) {}
    } else {
      var tail := Insert(s[1..], x, atMost);
      InsertSorts(s[1..], x, atMost);
      InsertAdds(s[1..], x, atMost);
      forall j | 0 <= j < |tail| ensures atMost(s[0], tail[j]) {
        assert tail[j] in multiset(tail);
        assert tail[j] in s[1..] || tail[j] == x;
      }
    }
  }

  lemma {:induction false} SortKeepsMembers<T>(s: seq<T>, atMost: (T, T) -> bool)
    ensures multiset(Sort(s, atMost)) == multiset(s)
  {
    if s != [] {
      var init, last := s[..|s| - 1], s[|s| - 1];
      SortKeepsMembers(init, atMost);
      InsertAdds(Sort(init, atMost), last, atMost);
      assert s == init + [last];
    }
  }

  lemma {:induction false} SortIsSorted<T(!new)>(s: seq<T>, atMost: (T, T) -> bool)
    requires TotalPreorder(atMost)
    ensures Sorted(Sort(s, atMost), atMost)
  {
    if s != [] {
      SortIsSorted(s[..|s| - 1], atMost);
      InsertSorts(Sort(s[..|s| - 1], atMost), s[|s| - 1], atMost);
    }
  }

  lemma {:induction false} SameSize<T>(a: seq<T>, b: seq<T>)
    requires multiset(a) == multiset(b)
    ensures |a| == |b|
  {
    assert |multiset(a)| == |a| && |multiset(b)| == |b|;
  }

  lemma {:induction false} SortSorts<T(!new)>(s: seq<T>, atMost: (T, T) -> bool)
    requires TotalPreorder(atMost)
    ensures multiset(Sort(s, atMost)) == multiset(s) && Sorted(Sort(s, atMost), atMost)
    ensures |Sort(s, atMost)| == |s|
  {
    SortKeepsMembers(s, atMost);
    SortIsSorted(s, atMost);
    SameSize(s, Sort(s, atMost));
  }

  lemma {:induction false} FirstIsLeast<T(!new)>(s: seq<T>, x: T, atMost: (T, T) -> bool)
    requires TotalPreorder(atMost) && Sorted(s, atMost) && x in s
    ensures atMost(s[0], x)
  {
    assert atMost(s[0], s[0]);
  }

  lemma {:induction false} WithoutFirst<T>(s: seq<T>)
    requires s != []
    ensures multiset(s[1..]) == multiset(s) - multiset{s[0]}
  {
    HeadAndTail(s);
  }

  lemma {:induction false} SameFirst<T(!new)>(a: seq<T>, b: seq<T>, atMost: (T, T) -> bool)
    requires TotalPreorder(atMost) && Sorted(a, atMost) && Sorted(b, atMost)
    requires a != [] && b != [] && multiset(a) == multiset(b) && Separates(atMost, a)
    ensures a[0] == b[0]
  {
    assert a[0] in multiset(b) && b[0] in multiset(a);
    FirstIsLeast(a, b[0], atMost);
    FirstIsLeast(b, a[0], atMost);
  }

  /** When the order separates the elements, sorting any permutation gives the same list. */
  lemma {:induction false} SortedUnique<T(!new)>(a: seq<T>, b: seq<T>, atMost: (T, T) -> bool)
    requires TotalPreorder(atMost) && Sorted(a, atMost) && Sorted(b, atMost)
    requires multiset(a) == multiset(b) && Separates(atMost, a)
    ensures a == b
    decreases |a|
  {
    SameSize(a, b);
    if a != [] {
      SameFirst(a, b, atMost);
      WithoutFirst(a);
      WithoutFirst(b);
      assert forall x :: x in a[1..] ==> x in a;
      SortedUnique(a[1..], b[1..], atMost);
    }
  }

  lemma {:induction false} SortCanonical<T(!new)>(a: seq<T>, b: seq<T>, atMost: (T, T) -> bool)
    requires TotalPreorder(atMost) && multiset(a) == multiset(b) && Separates(atMost, a)
    ensures Sort(a, atMost) == Sort(b, atMost)
  {
    SortSorts(a, atMost);
    SortSorts(b, atMost);
    var r := Sort(a, atMost);
    forall x, y | x in r && y in r && atMost(x, y) && atMost(y, x) ensures x == y {
      assert x in multiset(a) && y in multiset(a);
    }
    SortedUnique(r, Sort(b, atMost), atMost);
  }

  lemma {:induction false} SortOfSorted<T(!new)>(a: seq<T>, atMost: (T, T) -> bool)
    requires TotalPreorder(atMost) && Sorted(a, atMost) && Separates(atMost, a)
    ensures Sort(a, atMost) == a
  {
    SortSorts(a, atMost);
    SortedUnique(a, Sort(a, atMost), atMost);
  }

  // ---------------------------------------------------------------- permutations of duplicate-free lists

  lemma {:induction false} DistinctPermutation<T>(a: seq<T>, b: seq<T>)
    requires Distinct(a) && multiset(a) == multiset(b)
    ensures Distinct(b) && (set x | x in b) == (set x | x in a)
    ensures forall x :: x in a <==> x in b
  {
    forall x ensures x in a <==> x in b {
      assert x in multiset(a) <==> x in multiset(b);
    }
    forall i, j | 0 <= i < j < |b| ensures b[i] != b[j] {
      if b[i] == b[j] {
        Twice(b, i, j);
        OnceOnly(a, b[i]);
      }
    }
  }

  lemma {:induction false} OnceOnly<T>(a: seq<T>, x: T)
    requires Distinct(a)
    ensures multiset(a)[x] <= 1
  {
    if a != [] {
      assert a == a[..|a| - 1] + [a[|a| - 1]];
      OnceOnly(a[..|a| - 1], x);
    }
  }

  lemma {:induction false} Twice<T>(b: seq<T>, i: nat, j: nat)
    requires i < j < |b| && b[i] == b[j]
    ensures 2 <= multiset(b)[b[i]]
  {
    assert b == b[..j] + [b[j]] + b[j + 1..];
    assert b[i] == b[..j][i];
    assert b[i] in multiset(b[..j]);
  }

  lemma {:induction false} SameMembers<T>(a: seq<T>, b: seq<T>)
    requires multiset(a) == multiset(b)
    ensures |a| == |b|
    ensures forall x :: x in a <==> x in b
  {
    SameSize(a, b);
    forall x ensures x in a <==> x in b {
      assert x in multiset(a) <==> x in multiset(b);
    }
  }

  /** Elements with different keys keep different keys in any order. */
  lemma {:induction false} DistinctKeysPermutation<T, K>(a: seq<T>, b: seq<T>, key: T -> K)
    requires multiset(a) == multiset(b) && forall i, j :: 0 <= i < j < |a| ==> key(a[i]) != key(a[j])
    ensures forall i, j :: 0 <= i < j < |b| ==> key(b[i]) != key(b[j])
  {
    assert Distinct(a) by {
      forall i, j | 0 <= i < j < |a| ensures a[i] != a[j] {
        assert key(a[i]) != key(a[j]);
      }
    }
    DistinctPermutation(a, b);
    forall i, j | 0 <= i < j < |b| ensures key(b[i]) != key(b[j]) {
      assert b[i] in a && b[j] in a && b[i] != b[j];
      var k :| 0 <= k < |a| && a[k] == b[i];
      var l :| 0 <= l < |a| && a[l] == b[j];
      if k < l { assert key(a[k]) != key(a[l]); } else { assert key(a[l]) != key(a[k]); }
    }
  }
}
