/**
  The box page of components/BoxContents.tsx: one box, its items split by
  status, the status toggle and the QR code button. The fields of `BoxView`
  are the component's React state.
 */
module BoxContents {
  import opened Wrappers
  import opened Records
  import opened Sequences
  import opened ItemLists
  import opened ItemsReply

  const LoadError: string := "Failed to load box contents"

  function HasStatus(status: string): ListedItem -> bool
  {
    (t: ListedItem) => t.item.status == status
  }

  /** The items listed under "In box". */
  function ItemsInBox(items: seq<ListedItem>): (r: seq<ListedItem>)
    ensures forall t :: t in r <==> t in items && t.item.status == InBox
  {
    Keep(items, HasStatus(InBox))
  }

  /** The items listed under "Out of box". */
  function ItemsOutOfBox(items: seq<ListedItem>): (r: seq<ListedItem>)
    ensures forall t :: t in r <==> t in items && t.item.status == OutOfBox
  {
    Keep(items, HasStatus(OutOfBox))
  }

  /**
    The two lists never show more rows than were fetched, and show every row
    when every status is one of the two legal ones.
   */
  lemma PartitionBound(items: seq<ListedItem>)
    ensures |ItemsInBox(items)| + |ItemsOutOfBox(items)| <= |items|
    ensures (forall t :: t in items ==> t.item.status == InBox || t.item.status == OutOfBox) ==>
      |ItemsInBox(items)| + |ItemsOutOfBox(items)| == |items|
  {
    CountDisjoint(items, HasStatus(InBox), HasStatus(OutOfBox));
  }

  /** After a toggle to `status`, the item with that id is listed under `status` and not under the other heading. */
  lemma ToggledItemMoves(items: seq<ListedItem>, id: int, status: string)
    requires status == InBox || status == OutOfBox
    ensures forall t :: t in WithStatus(items, id, status) && t.item.id == id ==> t.item.status == status
    ensures forall t :: t in ItemsInBox(WithStatus(items, id, status)) && t.item.id == id ==> status == InBox
    ensures forall t :: t in ItemsOutOfBox(WithStatus(items, id, status)) && t.item.id == id ==> status == OutOfBox
  {
    var r := WithStatus(items, id, status);
    WithStatusOnlyTarget(items, id, status);
    forall t | t in r && t.item.id == id ensures t.item.status == status {
      var i :| 0 <= i < |r| && r[i] == t;
    }
  }

  class BoxView {
    var box: Option<Box>
    var items: seq<ListedItem>
    var loading: bool
    var error: Option<string>

    constructor()
      ensures box == None && items == [] && loading && error == None
    {
      box := None;
      items := [];
      loading := true;
      error := None;
    }

    /**
      `fetchBoxData`: a box that cannot be fetched sets the error and keeps
      the rest; otherwise the box is shown, an OK item list replaces the rows
      with its `items`, a refused one changes nothing more, and a throw
      after the box was shown sets the error.
     */
    method FetchBoxData(boxReply: Option<Box>, itemsFetch: ItemsFetch)
      modifies this`box, this`items, this`loading, this`error
      ensures !loading
      ensures boxReply.None? ==> box == old(box) && items == old(items) && error == Some(LoadError)
      ensures boxReply.Some? ==> box == boxReply
      ensures boxReply.Some? && itemsFetch.ItemsArrived? ==>
        Some(items) == Listed(StoredRows(itemsFetch.body)) && error == old(error)
      ensures boxReply.Some? && itemsFetch.ItemsRefused? ==> items == old(items) && error == old(error)
      ensures boxReply.Some? && itemsFetch.ItemsThrew? ==> items == old(items) && error == Some(LoadError)
    {
      loading := true;
      if boxReply.None? {
        error := Some(LoadError);
      } else {
        box := boxReply;
        match itemsFetch {
          case ItemsArrived(body) => items := body.items;
          case ItemsRefused =>
          case ItemsThrew => error := Some(LoadError);
        }
      }
      loading := false;
    }

    /** `toggleItemStatus`: on an OK response the row with that id gets the toggled status. */
    method ToggleItemStatus(itemId: int, currentStatus: string, ok: bool)
      modifies this`items
      ensures items == if ok then WithStatus(old(items), itemId, Toggled(currentStatus)) else old(items)
    {
      if ok {
        items := WithStatus(items, itemId, Toggled(currentStatus));
      }
    }

    /** `generateQRCode`: an OK response sets the QR path of the shown box; no box stays no box. */
    method GenerateQrCode(qrCodePath: Option<string>)
      modifies this`box
      ensures qrCodePath.Some? && old(box).Some? ==> box == Some(old(box).value.(qr_code_path := qrCodePath))
      ensures qrCodePath.None? || old(box).None? ==> box == old(box)
    {
      if qrCodePath.Some? && box.Some? {
        box := Some(box.value.(qr_code_path := qrCodePath));
      }
    }
  }
}
