/** The order in which both repositories list users, and the pages cut from it. */
module Listings {
  import opened Common
  import opened Uuids
  import opened Users

  /** ORDER BY created_at, id: PostgreSQL compares the sixteen bytes of a uuid. */
  predicate ByBytes(a: UserData, b: UserData) {
    a.createdAt < b.createdAt || (a.createdAt == b.createdAt && Less(a.id, b.id))
  }

  /** The comparison the in-memory repository sorts with: creation time, then the text of the identifier. */
  predicate ByText(a: UserData, b: UserData) {
    if a.createdAt == b.createdAt then TextLess(Text(a.id), Text(b.id)) else a.createdAt < b.createdAt
  }

  lemma SameOrder(a: UserData, b: UserData)
    ensures ByText(a, b) <==> ByBytes(a, b)
  {
    TextOrderIsByteOrder(a.id, b.id);
  }

  lemma TotalOrder(a: UserData, b: UserData)
    ensures !ByBytes(a, a)
    ensures a.id != b.id ==> ByBytes(a, b) || ByBytes(b, a)
    ensures !(ByBytes(a, b) && ByBytes(b, a))
  {
    LessIsStrictTotal(a.id, b.id);
    LessIsStrictTotal(a.id, a.id);
  }

  lemma TransitiveOrder(a: UserData, b: UserData, c: UserData)
    requires ByBytes(a, b) && ByBytes(b, c)
    ensures ByBytes(a, c)
  {
    if a.createdAt == b.createdAt == c.createdAt {
      LessTransitive(a.id, b.id, c.id);
    }
  }

  ghost predicate Increasing(s: seq<UserData>) { forall i, j :: 0 <= i < j < |s| ==> ByBytes(s[i], s[j]) }

  /** All records of the table, each once, in order. */
  ghost predicate IsListing(s: seq<UserData>, t: Table) {
    Increasing(s) && |s| == |t| && (forall u :: u in s <==> u.id in t && t[u.id] == u)
  }

  lemma {:induction false} SameElementsSameSequence(s: seq<UserData>, s': seq<UserData>)
    requires Increasing(s) && Increasing(s') && forall u :: u in s <==> u in s'
    ensures s == s'
  {
    assert s != [] ==> s[0] in s;
    assert s' != [] ==> s'[0] in s';
    if s != [] && s' != [] {
      var i :| 0 <= i < |s'| && s'[i] == s[0];
      var j :| 0 <= j < |s| && s[j] == s'[0];
      TotalOrder(s[0], s'[0]);
      assert s[0] == s'[0];
      forall u ensures u in s[1..] <==> u in s'[1..] {
        TotalOrder(s[0], u);
        TailMember(s, u);
        TailMember(s', u);
      }
      SameElementsSameSequence(s[1..], s'[1..]);
    }
  }

  lemma TailMember(s: seq<UserData>, u: UserData)
    requires s != [] && Increasing(s)
    ensures u in s[1..] <==> u in s && u != s[0]
  {
    TotalOrder(s[0], s[0]);
    if u in s && u != s[0] {
      var k :| 0 <= k < |s| && s[k] == u;
      assert s[1..][k - 1] == u;
    }
    if u in s[1..] {
      var k :| 0 <= k < |s| - 1 && s[1..][k] == u;
      assert s[k + 1] == u && ByBytes(s[0], s[k + 1]);
    }
  }

  /** A table has one listing, whatever order a map is visited in and however it is sorted. */
  lemma ListingIsUnique(s: seq<UserData>, s': seq<UserData>, t: Table)
    requires IsListing(s, t) && IsListing(s', t)
    ensures s == s'
  {
    SameElementsSameSequence(s, s');
  }

  /** Older users come first, and users of one time in the order of their identifiers' first differing byte. */
  lemma ListingOrder(s: seq<UserData>, t: Table, i: nat, j: nat)
    requires IsListing(s, t) && i < j < |s|
    ensures s[i].createdAt <= s[j].createdAt
    ensures s[i].createdAt == s[j].createdAt ==>
      exists k :: 0 <= k < 16 && s[i].id[..k] == s[j].id[..k] && s[i].id[k] < s[j].id[k]
  {
    assert ByBytes(s[i], s[j]);
    LessAtFirstDifference(s[i].id, s[j].id);
  }

  ghost predicate HasListing(t: Table) { exists s :: IsListing(s, t) }

  ghost function ListingOf(t: Table): (s: seq<UserData>)
    requires HasListing(t)
    ensures IsListing(s, t)
  {
    var s :| IsListing(s, t); s
  }

  /** Both order relations give the same listing. */
  lemma SortedByTextIsListing(s: seq<UserData>, t: Table)
    requires |s| == |t| && (forall u :: u in s <==> u.id in t && t[u.id] == u)
    requires forall i, j :: 0 <= i < j < |s| ==> ByText(s[i], s[j])
    ensures IsListing(s, t)
  {
    forall i, j | 0 <= i < j < |s| ensures ByBytes(s[i], s[j]) {
      SameOrder(s[i], s[j]);
    }
  }

  /** The slice the in-memory repository copies. */
  function Slice<T>(s: seq<T>, offset: int, limit: int): (page: seq<T>)
    requires 0 <= offset && 0 <= limit
    ensures |page| <= limit
  {
    var start := Min(offset, |s|);
    s[start..Min(start + limit, |s|)]
  }

  /** `clampLimit` of the PostgreSQL repository. */
  function ClampLimit(limit: int): (l: int)
    ensures l == limit <==> 1 <= limit <= 100
    ensures 1 <= l <= 100
    ensures limit <= 0 ==> l == 20
    ensures limit > 100 ==> l == 100
  {
    if limit <= 0 then 20 else if limit > 100 then 100 else limit
  }

  function Drop<T>(s: seq<T>, n: nat): seq<T> { if n >= |s| then [] else s[n..] }

  function Take<T>(s: seq<T>, n: nat): seq<T> { if n >= |s| then s else s[..n] }

  /** OFFSET and LIMIT of a query whose ordered rows are `s`. */
  function QueryPage<T>(s: seq<T>, offset: nat, limit: int): seq<T> { Take(Drop(s, offset), ClampLimit(limit)) }

  /** The rows of a page, one by one: in the slice of the in-memory repository, and in the database's query. */
  lemma PageRows<T>(s: seq<T>, offset: nat, limit: int)
    requires limit >= 0
    ensures |Slice(s, offset, limit)| == Max(0, Min(limit, |s| - offset))
    ensures forall i :: 0 <= i < |Slice(s, offset, limit)| ==> Slice(s, offset, limit)[i] == s[offset + i]
    ensures var size := if limit <= 0 then 20 else if limit > 100 then 100 else limit;
      |QueryPage(s, offset, limit)| == Max(0, Min(size, |s| - offset))
    ensures forall i :: 0 <= i < |QueryPage(s, offset, limit)| ==> QueryPage(s, offset, limit)[i] == s[offset + i]
  {
  }

  /**
   * The two repositories answer every page request of the use case alike: rows sorted by text and sliced, and rows
   * sorted by bytes and queried.
   */
  lemma RepositoriesAgree(t: Table, byText: seq<UserData>, byBytes: seq<UserData>, offset: nat, limit: int)
    requires |byText| == |t| && (forall u :: u in byText <==> u.id in t && t[u.id] == u)
    requires forall i, j :: 0 <= i < j < |byText| ==> ByText(byText[i], byText[j])
    requires IsListing(byBytes, t) && 1 <= limit <= 100
    ensures Slice(byText, offset, limit) == QueryPage(byBytes, offset, limit)
  {
    SortedByTextIsListing(byText, t);
    ListingIsUnique(byText, byBytes, t);
  }

  /** Where page `k` (from 0) starts. */
  function PageStart(k: nat, size: nat): nat { k * size }

  /** Pages 0 to `n - 1` one after another. */
  function Pages<T>(s: seq<T>, size: nat, n: nat): seq<T> {
    if n == 0 then [] else Pages(s, size, n - 1) + Slice(s, PageStart(n - 1, size), size)
  }

  lemma NextPageStart(n: nat, size: nat)
    requires n > 0
    ensures PageStart(n, size) == PageStart(n - 1, size) + size
  {
  }

  lemma {:induction false} PagesArePrefix<T>(s: seq<T>, size: nat, n: nat)
    ensures Pages(s, size, n) == s[..Min(PageStart(n, size), |s|)]
  {
    if n > 0 {
      PagesArePrefix(s, size, n - 1);
      NextPageStart(n, size);
    }
  }

  /** The number of pages, as the use case computes it before narrowing. */
  function PageCount(total: nat, size: nat): nat
    requires size >= 1
  {
    if total > 0 then (total - 1) / size + 1 else 0
  }

  /** It is the exact ceiling. */
  lemma PageCountIsCeiling(total: nat, size: nat)
    requires size >= 1
    ensures PageStart(PageCount(total, size), size) >= total
    ensures total > 0 ==> PageStart(PageCount(total, size) - 1, size) < total
  {
    if total > 0 {
      var q := (total - 1) / size;
      assert total - 1 == q * size + (total - 1) % size;
      assert (q + 1) * size == q * size + size;
    }
  }

  lemma PageStartMonotone(a: nat, b: nat, size: nat)
    requires a <= b
    ensures PageStart(a, size) <= PageStart(b, size)
  {
    assert b * size == a * size + (b - a) * size;
  }

  /** A page starts before the end exactly when it is below the count. */
  lemma PageStartsInside(total: nat, size: nat, k: nat)
    requires size >= 1
    ensures PageStart(k, size) < total <==> k < PageCount(total, size)
  {
    var n := PageCount(total, size);
    PageCountIsCeiling(total, size);
    if k >= n {
      PageStartMonotone(n, k, size);
    } else {
      PageStartMonotone(k, n - 1, size);
    }
  }

  lemma EnoughPages<T>(s: seq<T>, size: nat, n: nat)
    requires PageStart(n, size) >= |s|
    ensures Pages(s, size, n) == s
  {
    PagesArePrefix(s, size, n);
    assert s[..|s|] == s;
  }

  lemma SliceIsEmpty<T>(s: seq<T>, offset: nat, limit: nat)
    requires limit >= 1
    ensures Slice(s, offset, limit) == [] <==> offset >= |s|
  {
  }

  /** All pages together are the whole list; every later page is empty; and no page before is. */
  lemma PagesPartition<T>(s: seq<T>, size: nat, k: nat)
    requires size >= 1
    ensures Pages(s, size, PageCount(|s|, size)) == s
    ensures Slice(s, PageStart(k, size), size) == [] <==> k >= PageCount(|s|, size)
  {
    PageCountIsCeiling(|s|, size);
    EnoughPages(s, size, PageCount(|s|, size));
    PageStartsInside(|s|, size, k);
    SliceIsEmpty(s, PageStart(k, size), size);
  }
}
