/** Cursor pagination of the Session and artifact listings. */
module Paging {
  import opened Outcomes
  import opened Ordering

  const USIZE_MAX := 0xffff_ffff_ffff_ffff

  datatype Page = Page(rows: seq<string>, totalCount: nat, truncated: bool, nextAfter: Option<string>)

  predicate Beyond(id: string, after: Option<string>) {
    after.None? || StringLess(after.value, id)
  }

  function Filtered(c: seq<string>, after: Option<string>): seq<string> {
    if c == [] then []
    else Filtered(c[..|c| - 1], after) + if Beyond(c[|c| - 1], after) then [c[|c| - 1]] else []
  }

  function Take(s: seq<string>, n: nat): seq<string> {
    if |s| <= n then s else s[..n]
  }

  function SaturatingAdd(a: nat, b: nat): nat {
    if a + b <= USIZE_MAX then a + b else USIZE_MAX
  }

  /** One page: one row more than the limit is taken, to learn whether anything is left. */
  method ListPage(c: seq<string>, limit: nat, after: Option<string>) returns (page: Page)
    requires limit <= USIZE_MAX && |c| <= USIZE_MAX
    ensures page == PageOf(c, limit, after)
  {
    FilteredIsShort(c, after);
    var rows := Take(Filtered(c, after), SaturatingAdd(limit, 1));
    var truncated := limit < |rows|;
    if truncated {
      rows := rows[..limit];
    }
    var nextAfter := if truncated && rows != [] then Some(rows[|rows| - 1]) else None;
    page := Page(rows, |c|, truncated, nextAfter);
  }

  function PageOf(c: seq<string>, limit: nat, after: Option<string>): Page {
    var rest := Filtered(c, after);
    var rows := Take(rest, limit);
    Page(rows, |c|, limit < |rest|, if limit < |rest| && rows != [] then Some(rows[|rows| - 1]) else None)
  }

  lemma {:induction false} FilteredIsShort(c: seq<string>, after: Option<string>)
    ensures |Filtered(c, after)| <= |c|
  {
    if c != [] { FilteredIsShort(c[..|c| - 1], after); }
  }

  lemma {:induction false} FilteredMembers(c: seq<string>, after: Option<string>)
    ensures forall x :: x in Filtered(c, after) <==> x in c && Beyond(x, after)
  {
    if c != [] {
      FilteredMembers(c[..|c| - 1], after);
      assert c == c[..|c| - 1] + [c[|c| - 1]];
    }
  }

  lemma {:induction false} FilteredAscends(c: seq<string>, after: Option<string>)
    requires StringsAscend(c)
    ensures StringsAscend(Filtered(c, after))
  {
    if c != [] {
      var init, last := c[..|c| - 1], c[|c| - 1];
      assert forall i, j :: 0 <= i < j < |init| ==> StringLess(c[i], c[j]);
      FilteredAscends(init, after);
      FilteredMembers(init, after);
      var rows := Filtered(init, after);
      forall i | 0 <= i < |rows| ensures StringLess(rows[i], last) {
        assert rows[i] in init;
        var k :| 0 <= k < |init| && init[k] == rows[i];
        assert StringLess(c[k], c[|c| - 1]);
      }
    }
  }

  /** The rows of a page come before everything that is left for the next pages. */
  lemma {:induction false} PageSplits(c: seq<string>, limit: nat, after: Option<string>)
    requires StringsAscend(c) && 1 <= limit
    ensures var page := PageOf(c, limit, after);
            && StringsAscend(page.rows) && |page.rows| <= limit
            && (forall x :: x in page.rows ==> x in c && Beyond(x, after))
            && (page.truncated <==> page.nextAfter.Some?)
            && (page.truncated ==> page.rows != [] && page.nextAfter == Some(page.rows[|page.rows| - 1]))
            && (!page.truncated ==> forall x :: x in c && Beyond(x, after) ==> x in page.rows)
            && (page.truncated ==> forall x :: x in c && Beyond(x, after) ==> x in page.rows || Beyond(x, page.nextAfter))
  {
    var rest, page := Filtered(c, after), PageOf(c, limit, after);
    FilteredAscends(c, after);
    FilteredMembers(c, after);
    assert forall x :: x in page.rows ==> x in rest;
    if limit < |rest| {
      forall x | x in rest ensures x in page.rows || Beyond(x, page.nextAfter) {
        var k :| 0 <= k < |rest| && rest[k] == x;
        if k < limit { assert page.rows[k] == x; } else { assert StringLess(rest[limit - 1], rest[k]); }
      }
    }
  }

  /** `truncated` is false exactly on a page after which nothing is left. */
  lemma {:induction false} TruncatedMeansMore(c: seq<string>, limit: nat, after: Option<string>)
    requires StringsAscend(c) && 1 <= limit
    ensures var page := PageOf(c, limit, after);
            page.truncated <==> exists x :: x in c && Beyond(x, after) && x !in page.rows
  {
    var rest, page := Filtered(c, after), PageOf(c, limit, after);
    PageSplits(c, limit, after);
    FilteredAscends(c, after);
    FilteredMembers(c, after);
    if page.truncated {
      var x := rest[limit];
      assert x in rest;
      forall k | 0 <= k < limit ensures page.rows[k] != x {
        StringTrichotomy(rest[k], x);
      }
    }
  }

  // ---------------------------------------------------------------- following the cursor

  /** The rows of the pages from a cursor on, when request i finds the listing cs[i], and whether the
      last page was not truncated. Stops at that page, or when no request is left. */
  function Follow(cs: seq<seq<string>>, limit: nat, after: Option<string>): (seq<string>, bool)
    decreases |cs|
  {
    if cs == [] then ([], false)
    else
      var page := PageOf(cs[0], limit, after);
      if !page.truncated then (page.rows, true)
      else
        var (rows, finished) := Follow(cs[1..], limit, page.nextAfter);
        (page.rows + rows, finished)
  }

  /** The listing stays in order and loses nothing between requests. */
  ghost predicate Grows(cs: seq<seq<string>>) {
    && (forall i :: 0 <= i < |cs| ==> StringsAscend(cs[i]))
    && forall i, j :: 0 <= i < j < |cs| ==> KeepsAll(cs[i], cs[j])
  }

  predicate KeepsAll(before: seq<string>, later: seq<string>) {
    forall x :: x in before ==> x in later
  }

  lemma {:induction false} GrowsTail(cs: seq<seq<string>>)
    requires Grows(cs) && cs != []
    ensures Grows(cs[1..])
    ensures 1 < |cs| ==> KeepsAll(cs[0], cs[1..][0])
  {
  }

  lemma {:induction false} ConcatenationAscends(a: seq<string>, b: seq<string>)
    requires StringsAscend(a) && StringsAscend(b)
    requires a != [] ==> forall x :: x in b ==> StringLess(a[|a| - 1], x)
    ensures StringsAscend(a + b)
  {
    forall i, j | 0 <= i < j < |a + b| ensures StringLess((a + b)[i], (a + b)[j]) {
      if i < |a| <= j {
        assert b[j - |a|] in b;
        if i < |a| - 1 { StringTransitive(a[i], a[|a| - 1], b[j - |a|]); }
      }
    }
  }

  /** Even while the listing grows, following the cursor returns no id twice and none out of order, and
      everything that was listed at the first request is returned by the time it finishes. */
  lemma {:induction false} FollowingTheCursor(cs: seq<seq<string>>, limit: nat, after: Option<string>)
    requires Grows(cs) && 1 <= limit
    ensures var (rows, finished) := Follow(cs, limit, after);
            && StringsAscend(rows)
            && (forall x :: x in rows ==> Beyond(x, after))
            && (finished ==> forall x :: x in cs[0] && Beyond(x, after) ==> x in rows)
    decreases |cs|
  {
    if cs != [] {
      var page := PageOf(cs[0], limit, after);
      PageSplits(cs[0], limit, after);
      if page.truncated {
        var rows := Follow(cs[1..], limit, page.nextAfter).0;
        var last := page.rows[|page.rows| - 1];
        GrowsTail(cs);
        FollowingTheCursor(cs[1..], limit, page.nextAfter);
        ConcatenationAscends(page.rows, rows);
        assert last in page.rows;
        forall x | x in rows ensures Beyond(x, after) {
          if after.Some? { StringTransitive(after.value, last, x); }
        }
      }
    }
  }

  function Copies(c: seq<string>, n: nat): seq<seq<string>> {
    seq(n, _ => c)
  }

  lemma {:induction false} IndicesFollowOrder(c: seq<string>, i: nat, j: nat)
    requires StringsAscend(c) && i < |c| && j < |c|
    ensures StringLess(c[i], c[j]) ==> i < j
  {
    StringTrichotomy(c[i], c[j]);
    if j < i { assert StringLess(c[j], c[i]); }
  }

  lemma {:induction false} RestAfterPage(c: seq<string>, k: nat, after: Option<string>)
    requires StringsAscend(c) && k < |Filtered(c, after)|
    ensures Filtered(c, Some(Filtered(c, after)[k])) == Filtered(c, after)[k + 1..]
  {
    var rest := Filtered(c, after);
    var cursor := rest[k];
    FilteredAscends(c, after);
    FilteredAscends(c, Some(cursor));
    FilteredMembers(c, after);
    FilteredMembers(c, Some(cursor));
    assert cursor in rest;
    forall x ensures x in Filtered(c, Some(cursor)) <==> x in rest[k + 1..] {
      if x in c && StringLess(cursor, x) {
        if after.Some? { StringTransitive(after.value, cursor, x); }
        assert x in rest;
        var i :| 0 <= i < |rest| && rest[i] == x;
        IndicesFollowOrder(rest, k, i);
        assert rest[k + 1..][i - k - 1] == x;
      }
      if x in rest[k + 1..] {
        var i :| 0 <= i < |rest[k + 1..]| && rest[k + 1..][i] == x;
        assert rest[k + 1 + i] == x && x in rest;
      }
    }
    AscendingUnique(Filtered(c, Some(cursor)), rest[k + 1..]);
  }

  function Capacity(limit: nat, n: nat): nat {
    if n == 0 then 0 else limit + Capacity(limit, n - 1)
  }

  lemma {:induction false} CapacityIsProduct(limit: nat, n: nat)
    ensures Capacity(limit, n) == n * limit
  {
    if n > 0 { CapacityIsProduct(limit, n - 1); }
  }

  /** Following the cursor over n requests that all find the same listing. */
  function FollowSame(c: seq<string>, limit: nat, after: Option<string>, n: nat): (seq<string>, bool)
    decreases n
  {
    if n == 0 then ([], false)
    else
      var page := PageOf(c, limit, after);
      if !page.truncated then (page.rows, true)
      else
        var (rows, finished) := FollowSame(c, limit, page.nextAfter, n - 1);
        (page.rows + rows, finished)
  }

  lemma {:induction false} CopiesFollowTheSame(c: seq<string>, limit: nat, after: Option<string>, n: nat)
    ensures Follow(Copies(c, n), limit, after) == FollowSame(c, limit, after, n)
    decreases n
  {
    if n > 0 {
      CopiesTail(c, n);
      CopiesFollowTheSame(c, limit, PageOf(c, limit, after).nextAfter, n - 1);
    }
  }

  lemma {:induction false} PageThenRest(rest: seq<string>, left: seq<string>, limit: nat, more: nat)
    requires limit < |rest| && left == rest[limit..]
    ensures Take(rest, limit) + Take(left, more) == Take(rest, limit + more)
    ensures |left| <= more <==> |rest| <= limit + more
  {
    TakeTwice(rest, limit, more);
  }

  /** One request over a listing: everything that is left, or the first page of it and what the cursor leaves. */
  lemma {:induction false} OnePage(c: seq<string>, limit: nat, after: Option<string>)
    requires StringsAscend(c) && 1 <= limit
    ensures var page, rest := PageOf(c, limit, after), Filtered(c, after);
            if page.truncated then limit < |rest| && page.rows == Take(rest, limit) && Filtered(c, page.nextAfter) == rest[limit..]
            else |rest| <= limit && page.rows == rest
  {
    if PageOf(c, limit, after).truncated { RestAfterPage(c, limit - 1, after); }
  }

  /** What n requests over the same listing have returned. */
  ghost predicate Took(c: seq<string>, limit: nat, after: Option<string>, n: nat) {
    var rest, result := Filtered(c, after), FollowSame(c, limit, after, n);
    && result.0 == Take(rest, Capacity(limit, n))
    && (result.1 <==> 1 <= n && |rest| <= Capacity(limit, n))
  }

  lemma {:induction false} LastPageTook(c: seq<string>, limit: nat, after: Option<string>, n: nat)
    requires 0 < n && !PageOf(c, limit, after).truncated
    requires |Filtered(c, after)| <= limit && PageOf(c, limit, after).rows == Filtered(c, after)
    ensures Took(c, limit, after, n)
  {
    assert limit <= Capacity(limit, n);
  }

  lemma {:induction false} NextPageTook(c: seq<string>, limit: nat, after: Option<string>, n: nat)
    requires 0 < n && PageOf(c, limit, after).truncated && limit < |Filtered(c, after)|
    requires PageOf(c, limit, after).rows == Take(Filtered(c, after), limit)
    requires Filtered(c, PageOf(c, limit, after).nextAfter) == Filtered(c, after)[limit..]
    requires Took(c, limit, PageOf(c, limit, after).nextAfter, n - 1)
    ensures Took(c, limit, after, n)
  {
    PageThenRest(Filtered(c, after), Filtered(c, PageOf(c, limit, after).nextAfter), limit, Capacity(limit, n - 1));
  }

  lemma {:induction false} FollowSameTakes(c: seq<string>, limit: nat, after: Option<string>, n: nat)
    requires StringsAscend(c) && 1 <= limit
    ensures FollowSame(c, limit, after, n).0 == Take(Filtered(c, after), Capacity(limit, n))
    ensures FollowSame(c, limit, after, n).1 <==> 1 <= n && |Filtered(c, after)| <= Capacity(limit, n)
    decreases n
  {
    if n > 0 {
      OnePage(c, limit, after);
      if PageOf(c, limit, after).truncated {
        FollowSameTakes(c, limit, PageOf(c, limit, after).nextAfter, n - 1);
        NextPageTook(c, limit, after, n);
      } else {
        LastPageTook(c, limit, after, n);
      }
      assert Took(c, limit, after, n);
    }
  }

  /** Over a listing that does not change, the first n requests return the first n * limit entries in
      order, and they finish exactly when that is everything. */
  lemma {:induction false} EveryEntryExactlyOnce(c: seq<string>, limit: nat, after: Option<string>, n: nat)
    requires StringsAscend(c) && 1 <= limit
    ensures var (rows, finished) := Follow(Copies(c, n), limit, after);
            && rows == Take(Filtered(c, after), n * limit)
            && (finished <==> 1 <= n && |Filtered(c, after)| <= n * limit)
  {
    CapacityIsProduct(limit, n);
    CopiesFollowTheSame(c, limit, after, n);
    FollowSameTakes(c, limit, after, n);
  }

  lemma {:induction false} CopiesTail(c: seq<string>, n: nat)
    requires 0 < n
    ensures Copies(c, n) != [] && Copies(c, n)[0] == c && Copies(c, n)[1..] == Copies(c, n - 1)
  {
  }

  lemma {:induction false} TakeTwice(s: seq<string>, m: nat, n: nat)
    requires m <= |s|
    ensures Take(s, m + n) == Take(s, m) + Take(s[m..], n)
  {
    if m + n < |s| { assert s[..m + n] == s[..m] + s[m..][..n]; } else { assert s == s[..m] + s[m..]; }
  }

  lemma {:induction false} NoCursorKeepsAll(c: seq<string>)
    ensures Filtered(c, None) == c
  {
    if c != [] { NoCursorKeepsAll(c[..|c| - 1]); }
  }

  /** Without a starting cursor, enough requests return the whole listing. */
  lemma {:induction false} WholeListing(c: seq<string>, limit: nat, n: nat)
    requires StringsAscend(c) && 1 <= limit && 1 <= n && |c| <= n * limit
    ensures Follow(Copies(c, n), limit, None) == (c, true)
  {
    NoCursorKeepsAll(c);
    EveryEntryExactlyOnce(c, limit, None, n);
  }

  /** A limit of zero, which the command line does not accept, would give a truncated page without a cursor. */
  lemma {:induction false} ZeroLimitHasNoCursor(c: seq<string>, after: Option<string>)
    requires exists x :: x in c && Beyond(x, after)
    ensures PageOf(c, 0, after).truncated && PageOf(c, 0, after).nextAfter.None?
  {
    FilteredMembers(c, after);
    var x :| x in c && Beyond(x, after);
    assert x in Filtered(c, after);
  }
}
