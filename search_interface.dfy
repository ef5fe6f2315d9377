/**
  The search view of components/SearchInterface.tsx: its React state is the
  fields of `SearchView`. The view asks the item list for one page at a time,
  narrows the page by status, category and room on the client, offers a
  window of at most five page numbers and toggles an item's status in place.
 */
module SearchInterface {
  import opened Wrappers
  import opened Strings
  import opened Records
  import opened Sequences
  import opened ItemLists
  import opened ItemsRoute

  /** The value of a filter that is switched off. */
  const All: string := "all"

  /** Rows per page the view asks for. */
  const PageSize: int := 20

  // ---------------------------------------------------------------- filters

  function StatusMatch(status: string): ListedItem -> bool
  {
    (t: ListedItem) => t.item.status == status
  }

  /** `item.category_id?.toString() === category`: an item without a category matches no category. */
  function CategoryMatch(category: string): ListedItem -> bool
  {
    (t: ListedItem) => t.item.category_id.Some? && IntToString(t.item.category_id.value) == category
  }

  /** `item.box_location === room`: an item whose box was not joined matches no room. */
  function RoomMatch(room: string): ListedItem -> bool
  {
    (t: ListedItem) => t.box_location == Some(room)
  }

  /** An item passes when it matches every filter that is not `All`. */
  predicate Matches(t: ListedItem, status: string, category: string, room: string)
  {
    && (status == All || StatusMatch(status)(t))
    && (category == All || CategoryMatch(category)(t))
    && (room == All || RoomMatch(room)(t))
  }

  function Passes(status: string, category: string, room: string): ListedItem -> bool
  {
    t => Matches(t, status, category, room)
  }

  /** With every filter off, the filtered list is the whole list. */
  lemma {:induction false} FiltersOffKeepAll(items: seq<ListedItem>)
    ensures Keep(items, Passes(All, All, All)) == items
  {
    KeepAll(items, Passes(All, All, All));
  }

  /** The filtered list is the list with some rows left out, the rest in their order. */
  lemma FilteredIsSubsequence(items: seq<ListedItem>, status: string, category: string, room: string)
    ensures IsSubsequence(Keep(items, Passes(status, category, room)), items)
    ensures |Keep(items, Passes(status, category, room))| <= |items|
  {
    KeepIsSubsequence(items, Passes(status, category, room));
  }

  // -------------------------------------------------------------- requests

  /** The query `searchItems(page)` sends: page, limit, and the search text unless it is blank. */
  function SearchQuery(page: int, limit: int, searchTerm: string): ItemsQuery
  {
    ItemsQuery(Some(IntToString(limit)), Some(IntToString(page)),
               if Trim(searchTerm) != "" then Some(searchTerm) else None, None)
  }

  /**
    The item list reads back exactly the page and limit the view sends, and
    searches for the view's text exactly when that text is not blank.
   */
  lemma SearchQueryReadBack(page: int, limit: int, searchTerm: string)
    requires page >= 1 && limit >= 1
    ensures QueryNumber(SearchQuery(page, limit, searchTerm).page, PageFallback) == Some(page)
    ensures QueryNumber(SearchQuery(page, limit, searchTerm).limit, LimitFallback) == Some(limit)
    ensures PagingWellFormed(SearchQuery(page, limit, searchTerm))
    ensures NonEmpty(SearchQuery(page, limit, searchTerm).search) ==
      if IsBlank(searchTerm) then None else Some(searchTerm)
  {
    NumberReadBack(page, PageFallback);
    NumberReadBack(limit, LimitFallback);
    TrimEmptyIffBlank(searchTerm);
  }

  // ------------------------------------------------------------ page window

  function Max(a: int, b: int): int { if a >= b then a else b }

  /** The first page number offered. */
  function WindowStart(page: int, totalPages: int): int
  {
    Max(1, Min(totalPages - 4, page - 2))
  }

  /** `Array.from({ length: Math.min(5, totalPages) })`: a negative length counts as 0. */
  function WindowSize(totalPages: int): nat
  {
    if totalPages <= 0 then 0 else Min(5, totalPages)
  }

  function NotPast(totalPages: int): int -> bool
  {
    n => n <= totalPages
  }

  /** The page numbers offered: consecutive numbers from the start, with those past the last page dropped. */
  function PageWindow(page: int, totalPages: int): seq<int>
  {
    var start := WindowStart(page, totalPages);
    Keep(seq(WindowSize(totalPages), i => start + i), NotPast(totalPages))
  }

  /**
    The window holds min(5, totalPages) consecutive numbers from its start, all
    of them real pages (so the check for numbers past the last page drops
    nothing), and it holds the current page whenever that is a real page.
   */
  lemma PageWindowShape(page: int, totalPages: int)
    ensures |PageWindow(page, totalPages)| == WindowSize(totalPages)
    ensures forall i :: 0 <= i < |PageWindow(page, totalPages)| ==>
      PageWindow(page, totalPages)[i] == WindowStart(page, totalPages) + i
    ensures forall n :: n in PageWindow(page, totalPages) ==> 1 <= n <= totalPages
    ensures 1 <= page <= totalPages ==> page in PageWindow(page, totalPages)
  {
    var start := WindowStart(page, totalPages);
    var size := WindowSize(totalPages);
    var raw := seq(size, i => start + i);
    assert size > 0 ==> start + size - 1 <= totalPages;
    forall n | n in raw ensures NotPast(totalPages)(n) {
      var i :| 0 <= i < size && raw[i] == n;
    }
    KeepAll(raw, NotPast(totalPages));
    if 1 <= page <= totalPages {
      assert raw[page - start] == page;
    }
  }

  // ------------------------------------------------------------------ rooms

  function Locations(boxes: seq<Box>): seq<string>
  {
    seq(|boxes|, i requires 0 <= i < |boxes| => boxes[i].location)
  }

  /** `filter(Boolean)` on strings. */
  predicate IsFilled(s: string)
  {
    s != ""
  }

  /** `Array.from(new Set(boxes.map(box => box.location).filter(Boolean)))`. */
  function Rooms(boxes: seq<Box>): seq<string>
  {
    Distinct(Keep(Locations(boxes), IsFilled))
  }

  /** The rooms are the non-empty locations of the boxes, each named once. */
  lemma RoomsAreLocations(boxes: seq<Box>)
    ensures forall r :: r in Rooms(boxes) <==> r != "" && exists b :: b in boxes && b.location == r
    ensures NoDuplicates(Rooms(boxes))
  {
    var locations := Locations(boxes);
    forall r ensures r in Rooms(boxes) <==> r != "" && exists b :: b in boxes && b.location == r {
      if r in locations {
        var i :| 0 <= i < |locations| && locations[i] == r;
        assert boxes[i] in boxes;
      }
      if exists b :: b in boxes && b.location == r {
        var b :| b in boxes && b.location == r;
        var i :| 0 <= i < |boxes| && boxes[i] == b;
        assert locations[i] == r;
      }
    }
  }

  // ------------------------------------------------------------------- view

  class SearchView {
    var searchTerm: string
    var items: seq<ListedItem>
    var filteredItems: seq<ListedItem>
    var boxes: seq<Box>
    var statusFilter: string
    var categoryFilter: string
    var roomFilter: string
    var pagination: Pagination

    /** The view before anything is fetched: no text, every filter off, page 1 of 20 rows. */
    constructor()
      ensures searchTerm == "" && items == [] && filteredItems == [] && boxes == []
      ensures statusFilter == All && categoryFilter == All && roomFilter == All
      ensures pagination == Pagination(1, PageSize, 0, 0, false)
      ensures !HasActiveFilters()
    {
      searchTerm := "";
      items := [];
      filteredItems := [];
      boxes := [];
      statusFilter := All;
      categoryFilter := All;
      roomFilter := All;
      pagination := Pagination(1, PageSize, 0, 0, false);
    }

    /** Some search text is typed or some filter is on. */
    predicate HasActiveFilters()
      reads this
    {
      searchTerm != "" || statusFilter != All || categoryFilter != All || roomFilter != All
    }

    /** `filterItems`: narrows the fetched rows one filter at a time. */
    method FilterItems()
      modifies this`filteredItems
      ensures filteredItems == Keep(items, Passes(statusFilter, categoryFilter, roomFilter))
    {
      var filtered := items;
      FiltersOffKeepAll(items);
      if statusFilter != All {
        KeepTwice(items, Passes(All, All, All), StatusMatch(statusFilter), Passes(statusFilter, All, All));
        filtered := Keep(filtered, StatusMatch(statusFilter));
      }
      assert filtered == Keep(items, Passes(statusFilter, All, All));
      if categoryFilter != All {
        KeepTwice(items, Passes(statusFilter, All, All), CategoryMatch(categoryFilter), Passes(statusFilter, categoryFilter, All));
        filtered := Keep(filtered, CategoryMatch(categoryFilter));
      }
      assert filtered == Keep(items, Passes(statusFilter, categoryFilter, All));
      if roomFilter != All {
        KeepTwice(items, Passes(statusFilter, categoryFilter, All), RoomMatch(roomFilter), Passes(statusFilter, categoryFilter, roomFilter));
        filtered := Keep(filtered, RoomMatch(roomFilter));
      }
      filteredItems := filtered;
    }

    /**
      `searchItems(page)`: sends the query for `page`; an OK response (`reply`)
      replaces the rows and the pagination, anything else leaves them.
     */
    method SearchItems(page: int, reply: Option<ItemsPage>) returns (q: ItemsQuery)
      modifies this`items, this`pagination
      ensures q == SearchQuery(page, old(pagination.limit), searchTerm)
      ensures reply.Some? ==> items == reply.value.items && pagination == reply.value.pagination
      ensures reply.None? ==> items == old(items) && pagination == old(pagination)
    {
      q := SearchQuery(page, pagination.limit, searchTerm);
      if reply.Some? {
        items := reply.value.items;
        pagination := reply.value.pagination;
      }
    }

    /** `handlePageChange`: a request goes out only for a page between 1 and the last one. */
    method HandlePageChange(newPage: int, reply: Option<ItemsPage>) returns (q: Option<ItemsQuery>)
      modifies this`items, this`pagination
      ensures q.Some? <==> 1 <= newPage <= old(pagination.totalPages)
      ensures q.Some? ==> q.value == SearchQuery(newPage, old(pagination.limit), searchTerm)
      ensures q.Some? && reply.Some? ==> items == reply.value.items && pagination == reply.value.pagination
      ensures q.None? || reply.None? ==> items == old(items) && pagination == old(pagination)
    {
      q := None;
      if newPage >= 1 && newPage <= pagination.totalPages {
        var sent := SearchItems(newPage, reply);
        q := Some(sent);
      }
    }

    /** `toggleItemStatus`: on an OK response the row with that id gets the toggled status. */
    method ToggleItemStatus(itemId: int, currentStatus: string, ok: bool)
      modifies this`items
      ensures items == if ok then WithStatus(old(items), itemId, Toggled(currentStatus)) else old(items)
    {
      if ok {
        items := WithStatus(items, itemId, Toggled(currentStatus));
      }
    }

    /** `clearFilters`: clears the text and switches every filter off. */
    method ClearFilters()
      modifies this`searchTerm, this`statusFilter, this`categoryFilter, this`roomFilter
      ensures searchTerm == "" && statusFilter == All && categoryFilter == All && roomFilter == All
      ensures !HasActiveFilters()
    {
      searchTerm := "";
      statusFilter := All;
      categoryFilter := All;
      roomFilter := All;
    }
  }
}
