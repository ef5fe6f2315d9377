/**
  The dashboard list of components/RecentItems.tsx: the five newest items
  and the status toggle. The fields of `RecentList` are the component's state.
 */
module RecentItems {
  import opened Wrappers
  import opened Strings
  import opened Records
  import opened ItemLists
  import opened ItemsRoute
  import opened ItemsReply

  const RecentLimit: int := 5

  /** The query the list sends: `limit=5` and nothing else. */
  function RecentQuery(): ItemsQuery
  {
    ItemsQuery(Some(IntToString(RecentLimit)), None, None, None)
  }

  /** The item list reads the query as the first page of five rows. */
  lemma RecentQueryAsksFirstFive()
    ensures QueryNumber(RecentQuery().limit, LimitFallback) == Some(RecentLimit)
    ensures QueryNumber(RecentQuery().page, PageFallback) == Some(1)
    ensures PagingWellFormed(RecentQuery())
  {
    NumberReadBack(RecentLimit, LimitFallback);
    DefaultPage();
  }

  class RecentList {
    var items: seq<ListedItem>
    var loading: bool

    constructor()
      ensures items == [] && loading
    {
      items := [];
      loading := true;
    }

    /** `fetchRecentItems`: sends the recent query; an OK response replaces the items with its rows, anything else keeps them. */
    method FetchRecentItems(fetch: ItemsFetch) returns (q: ItemsQuery)
      modifies this`items, this`loading
      ensures q == RecentQuery()
      ensures !loading
      ensures fetch.ItemsArrived? ==> Some(items) == Listed(StoredRows(fetch.body))
      ensures !fetch.ItemsArrived? ==> items == old(items)
    {
      q := RecentQuery();
      if fetch.ItemsArrived? {
        items := fetch.body.items;
      }
      loading := false;
    }

    /** `toggleItemStatus`: on an OK response the row with that id gets the toggled status. */
    method ToggleItemStatus(itemId: int, currentStatus: string, ok: bool)
      modifies this`items
      ensures items == if ok then WithStatus(old(items), itemId, Toggled(currentStatus)) else old(items)
    {
      if ok {
        items := WithStatus(items, itemId, Toggled(currentStatus));
      }
    }
  }
}
