/** The paging use case of internal/application/usecase/list_users.go, on the in-memory repository. */
module ListUsersCase {
  import opened Common
  import opened Users
  import opened Listings
  import opened MemoryAccounts

  type int32 = x: int | -0x8000_0000 <= x < 0x8000_0000

  const DEFAULT_PAGE_SIZE: int := 20
  const MAX_PAGE_SIZE: int := 100

  function ClampPage(page: int32): int32 { if page < 1 then 1 else page }

  function ClampSize(size: int32): int32 {
    if size < 1 then DEFAULT_PAGE_SIZE else if size > MAX_PAGE_SIZE then MAX_PAGE_SIZE else size
  }

  /** The conversion `int32(x)`. */
  function Narrow32(x: int): (w: int32)
    ensures -0x8000_0000 <= x < 0x8000_0000 ==> w == x
  {
    var y := x % 0x1_0000_0000;
    if y >= 0x8000_0000 then y - 0x1_0000_0000 else y
  }

  datatype Page = Page(items: seq<UserData>, page: int32, pageSize: int32, totalItems: int, totalPages: int32)

  datatype Answer = Listed(page: Page) | Denied

  /** The offset `int64(page-1) * int64(pageSize)`. */
  function Offset(page: int32, pageSize: int32): nat { PageStart(ClampPage(page) - 1, ClampSize(pageSize)) }

  /** It never overflows 64 bits. */
  lemma OffsetFits(page: int32, pageSize: int32)
    ensures Fits64(Offset(page, pageSize))
  {
    PageStartMonotone(ClampPage(page) - 1, 0x8000_0000, ClampSize(pageSize));
  }

  /** The answer for a repository with this listing. */
  function PageOf(all: seq<UserData>, page: int32, pageSize: int32): Page {
    var size := ClampSize(pageSize);
    Page(Slice(all, Offset(page, pageSize), size), ClampPage(page), size, |all|, Narrow32(PageCount(|all|, size)))
  }

  /**
   * `pages` pages of `size` hold `total` users and one page fewer does not, as long as 32 bits hold the number of
   * pages.
   */
  predicate IsCeiling(pages: int, size: int, total: nat) {
    total > 0x7fff_ffff * size || (if total == 0 then pages == 0 else (pages - 1) * size < total <= pages * size)
  }

  /** The figures an answer reports for `total` users: the page and size asked for, put in range, and the ceiling. */
  predicate Figures(p: Page, total: nat, page: int32, pageSize: int32) {
    && p.page == (if page >= 1 then page else 1)
    && p.pageSize == (if pageSize < 1 then 20 else if pageSize > 100 then 100 else pageSize)
    && p.totalItems == total
    && IsCeiling(p.totalPages, p.pageSize, total)
    && |p.items| == Max(0, Min(p.pageSize, total - (p.page - 1) * p.pageSize))
  }

  lemma PageCountLaw(total: nat, size: int)
    requires 1 <= size <= 100
    ensures IsCeiling(Narrow32(PageCount(total, size)), size, total)
  {
    CountFits(total, size);
    PageCountIsCeiling(total, size);
    assert PageStart(0x7fff_ffff, size) == 0x7fff_ffff * size;
    assert PageStart(PageCount(total, size), size) == PageCount(total, size) * size;
    if total > 0 {
      assert PageStart(PageCount(total, size) - 1, size) == (PageCount(total, size) - 1) * size;
    }
  }

  /** The figures and the rows of an answer. */
  lemma PageFigures(all: seq<UserData>, page: int32, pageSize: int32)
    ensures var p := PageOf(all, page, pageSize);
      && Figures(p, |all|, page, pageSize)
      && forall i :: 0 <= i < |p.items| ==> p.items[i] == all[(p.page - 1) * p.pageSize + i]
  {
    var size: int := ClampSize(pageSize);
    PageRows(all, Offset(page, pageSize), size);
    PageCountLaw(|all|, size);
  }

  /** 45 users are three pages of 20. */
  lemma FortyFiveUsers(all: seq<UserData>)
    requires |all| == 45
    ensures PageOf(all, 1, 20).totalPages == 3 && |PageOf(all, 3, 20).items| == 5 && PageOf(all, 4, 20).items == []
  {
    PageFigures(all, 1, 20);
    PageFigures(all, 3, 20);
    PageFigures(all, 4, 20);
  }

  method Outputs(users: seq<User>) returns (items: seq<UserData>)
    ensures items == Records(users)
  {
    items := [];
    for i := 0 to |users|
      invariant items == Records(users)[..i]
    {
      var record := users[i].Record();
      items := items + [record];
    }
  }

  /**
   * For every 32-bit page number and size and every repository: the page of the listing, or a refusal for callers who
   * may not manage roles.
   */
  method Execute(repo: UserRepository, callerRole: Role, page: int32, pageSize: int32) returns (r: Answer)
    requires repo.Valid()
    ensures r.Denied? <==> callerRole != Owner && callerRole != Admin
    ensures r.Listed? ==> HasListing(repo.View()) && r.page == PageOf(ListingOf(repo.View()), page, pageSize)
    ensures r.Listed? ==> Figures(r.page, |repo.View()|, page, pageSize)
  {
    if !CanManageRoles(callerRole) {
      return Denied;
    }
    var p := page;
    if p < 1 {
      p := 1;
    }
    var size := pageSize;
    if size < 1 {
      size := DEFAULT_PAGE_SIZE;
    } else if size > MAX_PAGE_SIZE {
      size := MAX_PAGE_SIZE;
    }
    var offset := PageStart(p - 1, size);
    assert p == ClampPage(page) && size == ClampSize(pageSize) && offset == Offset(page, pageSize);
    var users, total := FindPaginated(repo, offset, size);
    ghost var t, rows := repo.View(), Records(users);
    var totalPages := TotalPages(total, size);
    assert Records(users) == rows;
    var items := Outputs(users);
    assert items == rows && repo.View() == t;
    r := Listed(Page(items, p, size, total, totalPages));
    PageFigures(ListingOf(t), page, pageSize);
  }

  method TotalPages(total: nat, size: int32) returns (pages: int32)
    requires size >= 1
    ensures pages == Narrow32(PageCount(total, size))
  {
    pages := 0;
    if total > 0 {
      pages := Narrow32((total - 1) / size + 1);
    }
  }

  /** Nor does the end of the slice, for any number of users below 2^62. */
  lemma SliceEndFits(page: int32, pageSize: int32, total: nat)
    requires total < 0x4000_0000_0000_0000
    ensures Fits64(Min(Offset(page, pageSize), total) + ClampSize(pageSize))
  {
  }

  lemma CountFits(total: nat, size: nat)
    requires size >= 1
    ensures PageCount(total, size) <= 0x7fff_ffff <==> total <= PageStart(0x7fff_ffff, size)
    ensures Narrow32(PageCount(total, size)) == PageCount(total, size) <==> total <= PageStart(0x7fff_ffff, size)
  {
    PageStartsInside(total, size, 0x7fff_ffff);
  }

  lemma ListingIsDistinct(all: seq<UserData>)
    requires Increasing(all)
    ensures Distinct(all)
  {
    forall i, j | 0 <= i < j < |all| ensures all[i] != all[j] {
      TotalOrder(all[i], all[j]);
    }
  }

  /**
   * Over an unchanged repository the pages show every user exactly once, in order, later pages are empty, and the
   * reported number of pages is the number of non-empty pages exactly while that number fits 32 bits.
   */
  lemma PagesShowEveryUserOnce(all: seq<UserData>, t: Table, page: int32, pageSize: int32)
    requires IsListing(all, t)
    ensures var size := ClampSize(pageSize);
      && size >= 1
      && Pages(all, size, PageCount(|all|, size)) == all
      && Distinct(all)
      && (PageOf(all, page, pageSize).items == [] <==> ClampPage(page) > PageCount(|all|, size))
      && (Narrow32(PageCount(|all|, size)) == PageCount(|all|, size) <==> |all| <= PageStart(0x7fff_ffff, size))
  {
    PagesPartition(all, ClampSize(pageSize), ClampPage(page) - 1);
    ListingIsDistinct(all);
    CountFits(|all|, ClampSize(pageSize));
  }

  /** The use case only ever asks for sizes that the PostgreSQL repository's own clamp leaves alone. */
  lemma RepositoriesAgreeOnPages(t: Table, byText: seq<UserData>, byBytes: seq<UserData>, page: int32, pageSize: int32)
    requires |byText| == |t| && (forall u :: u in byText <==> u.id in t && t[u.id] == u)
    requires forall i, j :: 0 <= i < j < |byText| ==> ByText(byText[i], byText[j])
    requires IsListing(byBytes, t)
    ensures Slice(byText, Offset(page, pageSize), ClampSize(pageSize))
      == QueryPage(byBytes, Offset(page, pageSize), ClampSize(pageSize))
  {
    RepositoriesAgree(t, byText, byBytes, Offset(page, pageSize), ClampSize(pageSize));
  }
}
