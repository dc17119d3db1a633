/** app/admin/users/page.tsx: the pagination bar, the result-range caption,
    the admin/active counters and the `/users` query string. */
module UsersPage {
  import opened Wrappers
  import opened Seqs
  import opened Text
  import opened Query
  import opened Types

  const MaxVisiblePages: int := 5

  function Min(a: int, b: int): int { if a <= b then a else b }
  function Max(a: int, b: int): int { if a >= b then a else b }

  /** The first and last page of the numbered window around `currentPage`:
      always within 1..totalPages, and when the current page is a real page
      the window holds exactly min(5, totalPages) pages around it. */
  function PageWindow(currentPage: int, totalPages: int): (w: (int, int))
    ensures 1 <= w.0 && w.1 <= totalPages
    ensures totalPages >= 1 ==> w.1 - w.0 + 1 == Min(MaxVisiblePages, totalPages)
    ensures 1 <= currentPage <= totalPages ==> w.0 <= currentPage <= w.1
    ensures totalPages < 1 ==> w.0 == 1 && w.1 == totalPages
  {
    var start := Max(1, currentPage - MaxVisiblePages / 2);
    var end := Min(totalPages, start + MaxVisiblePages - 1);
    if end - start + 1 < MaxVisiblePages then (Max(1, end - MaxVisiblePages + 1), end)
    else (start, end)
  }

  datatype PageItem = PageLink(page: int, isActive: bool) | Ellipsis

  /** The links to pages `first..last`, one per page, in order. */
  function PageLinks(first: int, last: int, currentPage: int): seq<PageItem>
    decreases last - first + 1
  {
    if last < first then [] else PageLinks(first, last - 1, currentPage) + [PageLink(last, last == currentPage)]
  }

  /** The window holds one link per page from `first` to `last`, in order. */
  lemma {:induction false} PageLinksAt(first: int, last: int, currentPage: int)
    ensures var items := PageLinks(first, last, currentPage);
      |items| == Max(0, last - first + 1)
      && forall i :: 0 <= i < |items| ==> items[i] == PageLink(first + i, first + i == currentPage)
    decreases last - first + 1
  {
    if last >= first {
      PageLinksAt(first, last - 1, currentPage);
    }
  }

  function LeadingItems(startPage: int, currentPage: int): seq<PageItem> {
    if startPage > 1 then [PageLink(1, currentPage == 1)] + (if startPage > 2 then [Ellipsis] else [])
    else []
  }

  function TrailingItems(endPage: int, totalPages: int, currentPage: int): seq<PageItem> {
    if endPage < totalPages then
      (if endPage < totalPages - 1 then [Ellipsis] else []) + [PageLink(totalPages, currentPage == totalPages)]
    else []
  }

  /** The items `renderPaginationItems` produces. */
  function PaginationItems(currentPage: int, totalPages: int): seq<PageItem> {
    var (startPage, endPage) := PageWindow(currentPage, totalPages);
    LeadingItems(startPage, currentPage) + PageLinks(startPage, endPage, currentPage)
      + TrailingItems(endPage, totalPages, currentPage)
  }

  /** `renderPaginationItems`: narrow the window, then push the first-page
      link and ellipsis, the window's pages, and the ellipsis and last-page link. */
  method RenderPaginationItems(currentPage: int, totalPages: int) returns (items: seq<PageItem>)
    ensures items == PaginationItems(currentPage, totalPages)
  {
    items := [];
    var startPage := Max(1, currentPage - MaxVisiblePages / 2);
    var endPage := Min(totalPages, startPage + MaxVisiblePages - 1);
    if endPage - startPage + 1 < MaxVisiblePages {
      startPage := Max(1, endPage - MaxVisiblePages + 1);
    }
    assert (startPage, endPage) == PageWindow(currentPage, totalPages);
    if startPage > 1 {
      items := items + [PageLink(1, currentPage == 1)];
      if startPage > 2 {
        items := items + [Ellipsis];
      }
    }
    assert items == LeadingItems(startPage, currentPage);
    items := PushPageLinks(items, startPage, endPage, currentPage);
    ghost var beforeTrailing := items;
    if endPage < totalPages {
      if endPage < totalPages - 1 {
        items := items + [Ellipsis];
      }
      items := items + [PageLink(totalPages, currentPage == totalPages)];
    }
    assert items == beforeTrailing + TrailingItems(endPage, totalPages, currentPage);
  }

  /** The `for (let i = startPage; i <= endPage; i++)` loop of `renderPaginationItems`. */
  method PushPageLinks(items: seq<PageItem>, first: int, last: int, currentPage: int) returns (r: seq<PageItem>)
    ensures r == items + PageLinks(first, last, currentPage)
  {
    r := items;
    var i := first;
    while i <= last
      invariant first <= i <= Max(first, last + 1)
      invariant r == items + PageLinks(first, i - 1, currentPage)
      decreases last - i
    {
      r := r + [PageLink(i, currentPage == i)];
      i := i + 1;
    }
  }

  /** The bar always links page 1 first and the last page last when there
      is at least one page, and is empty otherwise. */
  lemma PaginationEnds(currentPage: int, totalPages: int)
    ensures var items := PaginationItems(currentPage, totalPages);
      (totalPages >= 1 ==>
        |items| > 0 && items[0] == PageLink(1, currentPage == 1)
        && items[|items| - 1] == PageLink(totalPages, currentPage == totalPages))
      && (totalPages < 1 ==> items == [])
  {
    var (s, e) := PageWindow(currentPage, totalPages);
    var lead, mid, trail := LeadingItems(s, currentPage), PageLinks(s, e, currentPage), TrailingItems(e, totalPages, currentPage);
    var items := lead + mid + trail;
    assert items == PaginationItems(currentPage, totalPages);
    PageLinksAt(s, e, currentPage);
    if totalPages >= 1 {
      assert |mid| > 0;
      if |lead| > 0 {
        assert items[0] == lead[0];
      } else {
        assert items[0] == mid[0];
      }
      if |trail| > 0 {
        assert items[|items| - 1] == trail[|trail| - 1];
      } else {
        assert items[|items| - 1] == mid[|mid| - 1];
      }
    }
  }

  /** The leading ellipsis is shown exactly when the window starts after
      page 2, and the trailing one exactly when it ends before the
      second-to-last page. */
  lemma PaginationEllipses(currentPage: int, totalPages: int)
    ensures var (s, e) := PageWindow(currentPage, totalPages);
      var items := PaginationItems(currentPage, totalPages);
      (|items| > 1 && items[1].Ellipsis? <==> s > 2)
      && (|items| > 1 && items[|items| - 2].Ellipsis? <==> e < totalPages - 1)
  {
    var (s, e) := PageWindow(currentPage, totalPages);
    var lead, mid, trail := LeadingItems(s, currentPage), PageLinks(s, e, currentPage), TrailingItems(e, totalPages, currentPage);
    var items := lead + mid + trail;
    assert items == PaginationItems(currentPage, totalPages);
    PageLinksAt(s, e, currentPage);
    if totalPages >= 1 {
      assert |mid| == e - s + 1 >= 1;
      if |mid| == 1 {
        assert s == e && totalPages == 1 && lead == [] && trail == [];
      } else {
        assert items[|lead|] == mid[0] && items[|lead| + 1] == mid[1];
        assert items[|lead| + |mid| - 2] == mid[|mid| - 2] && items[|lead| + |mid| - 1] == mid[|mid| - 1];
        if s > 2 {
          assert items[1] == lead[1];
        } else if s == 2 {
          assert items[1] == mid[0];
        }
        if e < totalPages - 1 {
          assert items[|items| - 2] == trail[0];
        } else if e == totalPages - 1 {
          assert items[|items| - 2] == mid[|mid| - 1];
        }
      }
    }
  }

  /** Every link is to a page in 1..totalPages and is marked active exactly
      when it is the current page, and the linked page numbers strictly
      increase along the bar. */
  lemma PaginationLinksOrdered(currentPage: int, totalPages: int)
    ensures var items := PaginationItems(currentPage, totalPages);
      (forall i :: 0 <= i < |items| && items[i].PageLink? ==>
            1 <= items[i].page <= totalPages && (items[i].isActive <==> items[i].page == currentPage))
      && (forall i, j :: 0 <= i < j < |items| && items[i].PageLink? && items[j].PageLink? ==>
            items[i].page < items[j].page)
  {
    var items := PaginationItems(currentPage, totalPages);
    forall i | 0 <= i < |items| && items[i].PageLink?
      ensures 1 <= items[i].page <= totalPages && (items[i].isActive <==> items[i].page == currentPage)
    {
      PaginationLinkPage(currentPage, totalPages, i);
    }
    forall i, j | 0 <= i < j < |items| && items[i].PageLink? && items[j].PageLink?
      ensures items[i].page < items[j].page
    {
      PaginationLinkPage(currentPage, totalPages, i);
      PaginationLinkPage(currentPage, totalPages, j);
    }
  }

  /** The page of the link at position `i`: page 1 before the window, the
      window's pages in order, and the last page after it. */
  lemma PaginationLinkPage(currentPage: int, totalPages: int, i: int)
    requires 0 <= i < |PaginationItems(currentPage, totalPages)|
    requires PaginationItems(currentPage, totalPages)[i].PageLink?
    ensures var (s, e) := PageWindow(currentPage, totalPages);
      var lead, link := |LeadingItems(s, currentPage)|, PaginationItems(currentPage, totalPages)[i];
      1 <= link.page <= totalPages && (link.isActive <==> link.page == currentPage)
      && (i < lead ==> i == 0 && link.page == 1 && 1 < s)
      && (lead <= i < lead + Max(0, e - s + 1) ==> link.page == s + (i - lead))
      && (lead + Max(0, e - s + 1) <= i ==>
            i == |PaginationItems(currentPage, totalPages)| - 1 && link.page == totalPages && e < totalPages)
  {
    var (s, e) := PageWindow(currentPage, totalPages);
    var lead, mid, trail := LeadingItems(s, currentPage), PageLinks(s, e, currentPage), TrailingItems(e, totalPages, currentPage);
    var items := lead + mid + trail;
    assert items == PaginationItems(currentPage, totalPages);
    PageLinksAt(s, e, currentPage);
    if i < |lead| {
      assert items[i] == lead[i];
    } else if i < |lead| + |mid| {
      assert items[i] == mid[i - |lead|];
    } else {
      assert items[i] == trail[i - |lead| - |mid|];
    }
  }

  /** An ellipsis stands exactly where pages are skipped: it sits between two
      links whose pages are at least 2 apart. */
  lemma PaginationEllipsisMarksGap(currentPage: int, totalPages: int)
    ensures var items := PaginationItems(currentPage, totalPages);
      forall i :: 0 <= i < |items| && items[i].Ellipsis? ==>
          0 < i < |items| - 1 && items[i - 1].PageLink? && items[i + 1].PageLink?
          && items[i + 1].page - items[i - 1].page >= 2
  {
    var (s, e) := PageWindow(currentPage, totalPages);
    var lead, mid, trail := LeadingItems(s, currentPage), PageLinks(s, e, currentPage), TrailingItems(e, totalPages, currentPage);
    var items := lead + mid + trail;
    assert items == PaginationItems(currentPage, totalPages);
    PageLinksAt(s, e, currentPage);
    assert totalPages >= 1 ==> |mid| > 0;
    assert totalPages < 1 ==> items == [];
    forall i | 0 <= i < |items| && items[i].Ellipsis?
      ensures 0 < i < |items| - 1 && items[i - 1].PageLink? && items[i + 1].PageLink?
          && items[i + 1].page - items[i - 1].page >= 2
    {
      if i < |lead| {
        assert items[i] == lead[i];
        assert i == 1;
        assert items[0] == lead[0];
        assert items[2] == mid[0];
      } else if i < |lead| + |mid| {
        assert false;
      } else {
        var k := i - |lead| - |mid|;
        assert items[i] == trail[k];
        assert k == 0;
        assert items[i - 1] == mid[|mid| - 1];
        assert items[i + 1] == trail[1];
      }
    }
  }

  /** Two links side by side are consecutive pages: no page is skipped
      without an ellipsis. */
  lemma PaginationAdjacentLinksConsecutive(currentPage: int, totalPages: int)
    ensures var items := PaginationItems(currentPage, totalPages);
      forall i :: 0 <= i < |items| - 1 && items[i].PageLink? && items[i + 1].PageLink? ==>
          items[i + 1].page == items[i].page + 1
  {
    var (s, e) := PageWindow(currentPage, totalPages);
    var lead, mid, trail := LeadingItems(s, currentPage), PageLinks(s, e, currentPage), TrailingItems(e, totalPages, currentPage);
    var items := lead + mid + trail;
    assert items == PaginationItems(currentPage, totalPages);
    PageLinksAt(s, e, currentPage);
    assert totalPages >= 1 ==> |mid| > 0;
    assert totalPages < 1 ==> items == [];
    forall i | 0 <= i < |items| - 1 && items[i].PageLink? && items[i + 1].PageLink?
      ensures items[i + 1].page == items[i].page + 1
    {
      if i < |lead| {
        assert items[i] == lead[i];
        if i + 1 < |lead| {
          assert false;
        } else {
          assert items[i + 1] == mid[0];
        }
      } else if i < |lead| + |mid| {
        assert items[i] == mid[i - |lead|];
        if i + 1 < |lead| + |mid| {
          assert items[i + 1] == mid[i + 1 - |lead|];
        } else {
          assert items[i + 1] == trail[0];
        }
      } else {
        assert false;
      }
    }
  }

  /** The caption "showing first–last of total" of the users table. */
  function RangeCaption(currentPage: int, pageSize: int, totalUsers: int): (int, int) {
    ((currentPage - 1) * pageSize + 1, Min(currentPage * pageSize, totalUsers))
  }

  /** On any page that holds users, the caption names a non-empty range inside
      1..total whose size is the number of users on that page, and
      consecutive pages' ranges follow on without gap or overlap. */
  lemma RangeCaptionCoversPage(currentPage: int, pageSize: int, totalUsers: int)
    requires pageSize > 0 && currentPage >= 1
    requires (currentPage - 1) * pageSize < totalUsers
    ensures var (first, last) := RangeCaption(currentPage, pageSize, totalUsers);
      1 <= first <= last <= totalUsers
      && last - first + 1 == Min(pageSize, totalUsers - (currentPage - 1) * pageSize)
      && (currentPage * pageSize < totalUsers ==> RangeCaption(currentPage + 1, pageSize, totalUsers).0 == last + 1)
  {
    var offset := (currentPage - 1) * pageSize;
    assert currentPage * pageSize == offset + pageSize;
    assert (currentPage + 1 - 1) * pageSize == currentPage * pageSize;
    assert offset >= 0;
  }

  /** With no users at all the table still shows a caption: it reads "1-0"
      on the first page, and on every page its first bound exceeds its last. */
  lemma RangeCaptionEmptyTable(currentPage: int, pageSize: int)
    requires pageSize > 0 && currentPage >= 1
    ensures RangeCaption(1, pageSize, 0) == (1, 0)
    ensures RangeCaption(currentPage, pageSize, 0).1 == 0 < RangeCaption(currentPage, pageSize, 0).0
  {
  }

  predicate IsAdmin(u: User) {
    u.isAdmin
  }

  predicate IsActive(u: User) {
    |u.scratchResults| > 0
  }

  /** `users.filter((user) => user.is_admin).length` */
  function AdminCount(users: seq<User>): (n: nat)
    ensures n <= |users|
    ensures n == 0 <==> forall i :: 0 <= i < |users| ==> !users[i].isAdmin
    ensures n == |users| <==> forall i :: 0 <= i < |users| ==> users[i].isAdmin
  {
    FilterKeepsAll(users, IsAdmin);
    |Filter(users, IsAdmin)|
  }

  /** The admin counter adds up over any split of the list, one per admin:
      it is the number of admins. */
  lemma AdminCountAdds(a: seq<User>, b: seq<User>, u: User)
    ensures AdminCount(a + b) == AdminCount(a) + AdminCount(b)
    ensures AdminCount([u]) == if u.isAdmin then 1 else 0
  {
    FilterAppend(a, b, IsAdmin);
    FilterSingle(u, IsAdmin);
  }

  /** `users.filter((user) => user.scratch_results.length > 0).length` */
  function ActiveCount(users: seq<User>): (n: nat)
    ensures n <= |users|
    ensures n == 0 <==> forall i :: 0 <= i < |users| ==> users[i].scratchResults == []
    ensures n == |users| <==> forall i :: 0 <= i < |users| ==> users[i].scratchResults != []
  {
    FilterKeepsAll(users, IsActive);
    |Filter(users, IsActive)|
  }

  /** The active counter adds up over any split of the list, one per user
      with a result: it is the number of such users. */
  lemma ActiveCountAdds(a: seq<User>, b: seq<User>, u: User)
    ensures ActiveCount(a + b) == ActiveCount(a) + ActiveCount(b)
    ensures ActiveCount([u]) == if u.scratchResults != [] then 1 else 0
  {
    FilterAppend(a, b, IsActive);
    FilterSingle(u, IsActive);
  }

  /** A parameter that is sent only when given and non-empty. */
  function OptionalParam(name: string, value: Option<string>): seq<Param> {
    if value.Some? && value.value != "" then [Param(name, value.value)] else []
  }

  /** The query `fetchUsers` builds. */
  function UsersQuery(userId: Option<string>, displayName: Option<string>, page: int, size: int): seq<Param> {
    OptionalParam("user_id", userId) + OptionalParam("display_name", displayName)
    + [Param("page", IntToString(page)), Param("page_size", IntToString(size))]
  }

  /** `fetchUsers`' query: `user_id` and `display_name` only when given and
      non-empty, then `page` and `page_size`, appended in that order. */
  method FetchUsersParams(userId: Option<string>, displayName: Option<string>, page: int, size: int)
    returns (params: seq<Param>)
    ensures params == UsersQuery(userId, displayName, page, size)
  {
    params := [];
    if userId.Some? && userId.value != "" {
      params := Append(params, "user_id", userId.value);
    }
    if displayName.Some? && displayName.value != "" {
      params := Append(params, "display_name", displayName.value);
    }
    params := Append(params, "page", IntToString(page));
    params := Append(params, "page_size", IntToString(size));
  }

  lemma GetOptionalParam(name: string, value: Option<string>, key: string)
    ensures Get(OptionalParam(name, value), key)
      == if key == name && value.Some? && value.value != "" then value else None
    ensures HasKey(OptionalParam(name, value), key) <==> key == name && value.Some? && value.value != ""
  {
    if key == name && value.Some? && value.value != "" {
      assert OptionalParam(name, value)[0].key == key;
    }
  }

  /** Reading the users query back: each optional filter is present exactly
      when it was given non-empty, with its value, and `page` and `page_size`
      always close the query with their decimal values. */
  lemma UsersQueryParams(userId: Option<string>, displayName: Option<string>, page: int, size: int)
    ensures var q := UsersQuery(userId, displayName, page, size);
      Get(q, "user_id") == (if userId.Some? && userId.value != "" then userId else None)
      && Get(q, "display_name") == (if displayName.Some? && displayName.value != "" then displayName else None)
      && Get(q, "page") == Some(IntToString(page)) && Get(q, "page_size") == Some(IntToString(size))
      && |q| >= 2 && q[|q| - 2].key == "page" && q[|q| - 1].key == "page_size"
  {
    var u, d := OptionalParam("user_id", userId), OptionalParam("display_name", displayName);
    var fixed := [Param("page", IntToString(page)), Param("page_size", IntToString(size))];
    assert UsersQuery(userId, displayName, page, size) == u + d + fixed;
    assert |"user_id"| == 7 && |"display_name"| == 12 && |"page"| == 4 && |"page_size"| == 9;
    assert fixed[1..] == [Param("page_size", IntToString(size))];
    GetOptionalParam("user_id", userId, "user_id");
    GetOptionalParam("user_id", userId, "display_name");
    GetOptionalParam("user_id", userId, "page");
    GetOptionalParam("user_id", userId, "page_size");
    GetOptionalParam("display_name", displayName, "user_id");
    GetOptionalParam("display_name", displayName, "display_name");
    GetOptionalParam("display_name", displayName, "page");
    GetOptionalParam("display_name", displayName, "page_size");
    GetConcat(u, d, "user_id");
    GetConcat(u, d, "display_name");
    GetConcat(u, d, "page");
    GetConcat(u, d, "page_size");
    GetConcat(u + d, fixed, "user_id");
    GetConcat(u + d, fixed, "display_name");
    GetConcat(u + d, fixed, "page");
    GetConcat(u + d, fixed, "page_size");
  }

  /** `text.trim() || undefined`: a search box counts only when non-blank. */
  function SearchTerm(input: string): (term: Option<string>)
    ensures term.Some? <==> !IsBlank(input)
    ensures term.Some? ==> term.value == Trim(input) && term.value != ""
  {
    if Trim(input) == "" then None else Some(Trim(input))
  }

  /** The query `handleSearch`, `handlePageChange` and `handlePageSizeChange`
      send: the requested page and size, and each search box as a trimmed
      parameter exactly when it is not blank (`handleSearch` asks for page 1). */
  method RefetchParams(userIdSearch: string, displayNameSearch: string, page: int, pageSize: int)
    returns (params: seq<Param>)
    ensures params == UsersQuery(SearchTerm(userIdSearch), SearchTerm(displayNameSearch), page, pageSize)
    ensures Get(params, "user_id") == SearchTerm(userIdSearch)
    ensures Get(params, "display_name") == SearchTerm(displayNameSearch)
    ensures Get(params, "page") == Some(IntToString(page))
    ensures Get(params, "page_size") == Some(IntToString(pageSize))
    ensures |params| >= 2 && params[|params| - 2].key == "page" && params[|params| - 1].key == "page_size"
  {
    var userId, displayName := SearchTerm(userIdSearch), SearchTerm(displayNameSearch);
    params := FetchUsersParams(userId, displayName, page, pageSize);
    UsersQueryParams(userId, displayName, page, pageSize);
  }

  /** The page's search and paging state. The fields the response sets
      (`users`, totals, and the page and size the server echoes) are not
      held here. */
  class UsersPageState {
    var userIdSearch: string
    var displayNameSearch: string
    var currentPage: int
    var pageSize: int

    constructor()
      ensures userIdSearch == "" && displayNameSearch == "" && currentPage == 1 && pageSize == 20
    {
      userIdSearch, displayNameSearch, currentPage, pageSize := "", "", 1, 20;
    }

    /** `handleSearch`: back to page 1 and fetch with the trimmed boxes. */
    method HandleSearch() returns (params: seq<Param>)
      modifies this
      ensures currentPage == 1
      ensures pageSize == old(pageSize) && userIdSearch == old(userIdSearch)
      ensures displayNameSearch == old(displayNameSearch)
      ensures params == UsersQuery(SearchTerm(userIdSearch), SearchTerm(displayNameSearch), 1, pageSize)
    {
      currentPage := 1;
      params := RefetchParams(userIdSearch, displayNameSearch, 1, pageSize);
    }

    /** `handleClearSearch`: empty both boxes, back to page 1, fetch unfiltered. */
    method HandleClearSearch() returns (params: seq<Param>)
      modifies this
      ensures userIdSearch == "" && displayNameSearch == "" && currentPage == 1
      ensures pageSize == old(pageSize)
      ensures params == UsersQuery(None, None, 1, pageSize)
    {
      userIdSearch, displayNameSearch := "", "";
      currentPage := 1;
      params := FetchUsersParams(None, None, 1, pageSize);
    }

    /** `handlePageChange`: go to `page` and fetch it with the trimmed boxes. */
    method HandlePageChange(page: int) returns (params: seq<Param>)
      modifies this
      ensures currentPage == page
      ensures pageSize == old(pageSize) && userIdSearch == old(userIdSearch)
      ensures displayNameSearch == old(displayNameSearch)
      ensures params == UsersQuery(SearchTerm(userIdSearch), SearchTerm(displayNameSearch), page, pageSize)
    {
      currentPage := page;
      params := RefetchParams(userIdSearch, displayNameSearch, page, pageSize);
    }

    /** `handlePageSizeChange`: take the new size, back to page 1, and fetch. */
    method HandlePageSizeChange(size: int) returns (params: seq<Param>)
      modifies this
      ensures pageSize == size && currentPage == 1
      ensures userIdSearch == old(userIdSearch) && displayNameSearch == old(displayNameSearch)
      ensures params == UsersQuery(SearchTerm(userIdSearch), SearchTerm(displayNameSearch), 1, size)
    {
      pageSize := size;
      currentPage := 1;
      params := RefetchParams(userIdSearch, displayNameSearch, 1, size);
    }
  }
}
