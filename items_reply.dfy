/**
  What the client views do with the item list's reply. The handler of
  app/api/items/route.ts answers with an object `{ items, pagination }`;
  components/RecentItems.tsx and components/BoxContents.tsx hand that body to
  `setItems`, whose state the page then lists with `.map` and `.filter`.
 */
module ItemsReply {
  import opened Wrappers
  import opened Records
  import opened ItemsRoute

  /** How a request to the item list ended: a body, a response that is not OK, or a throw. */
  datatype ItemsFetch = ItemsArrived(body: ItemsPage) | ItemsRefused | ItemsThrew

  /** The JSON value an `items` state holds: an array of rows, or the reply object. */
  datatype ItemsState = Rows(rows: seq<ListedItem>) | PageObject(page: ItemsPage)

  /** The rows `.map` and `.filter` walk; `None` where they throw a TypeError because the value is no array. */
  function Listed(s: ItemsState): Option<seq<ListedItem>>
  {
    if s.Rows? then Some(s.rows) else None
  }

  /** `setItems(data)` as written: the whole reply object. */
  function StoredAsWritten(body: ItemsPage): ItemsState
  {
    PageObject(body)
  }

  /** As written, whatever rows the reply carries, the stored state has none the page can list. */
  lemma AsWrittenListsNothing(body: ItemsPage)
    ensures Listed(StoredAsWritten(body)) == None
    ensures body.items != [] ==> Listed(StoredAsWritten(body)) != Some(body.items)
  {
  }

  /** `setItems(data.items)`: the rows of the reply, which the page lists as they came. */
  function StoredRows(body: ItemsPage): (s: ItemsState)
    ensures Listed(s) == Some(body.items)
  {
    Rows(body.items)
  }
}
