/**
  The list updates the client views apply after a successful request: the
  status toggle of components/SearchInterface.tsx, components/BoxContents.tsx
  and components/RecentItems.tsx, and the QR path update of
  components/BoxesGrid.tsx. Each replaces the record with a matching id and
  keeps everything else.
 */
module ItemLists {
  import opened Wrappers
  import opened Records

  /** The status a toggle asks for: out of the box when in it, otherwise back in. */
  function Toggled(status: string): (r: string)
    ensures r == InBox || r == OutOfBox
    ensures r == OutOfBox <==> status == InBox
  {
    if status == InBox then OutOfBox else InBox
  }

  /** On the two statuses an item is meant to have, toggling twice is no change. */
  lemma ToggleInvolution(status: string)
    requires status == InBox || status == OutOfBox
    ensures Toggled(Toggled(status)) == status
  {
  }

  /** `items.map(item => item.id === id ? { ...item, status } : item)`. */
  function WithStatus(items: seq<ListedItem>, id: int, status: string): (r: seq<ListedItem>)
    ensures |r| == |items|
  {
    if items == [] then []
    else
      var head := if items[0].item.id == id then items[0].(item := items[0].item.(status := status)) else items[0];
      [head] + WithStatus(items[1..], id, status)
  }

  /** The update sets the status of the rows with that id, and changes nothing else: not their order, not another row, not another field. */
  lemma {:induction false} WithStatusOnlyTarget(items: seq<ListedItem>, id: int, status: string)
    ensures |WithStatus(items, id, status)| == |items|
    ensures forall i :: 0 <= i < |items| && items[i].item.id == id ==>
      WithStatus(items, id, status)[i] == items[i].(item := items[i].item.(status := status))
    ensures forall i :: 0 <= i < |items| && items[i].item.id != id ==>
      WithStatus(items, id, status)[i] == items[i]
  {
    if items != [] {
      WithStatusOnlyTarget(items[1..], id, status);
      var r := WithStatus(items, id, status);
      assert forall i :: 1 <= i < |items| ==> r[i] == WithStatus(items[1..], id, status)[i - 1];
    }
  }

  /** A list without that id is left as it was. */
  lemma WithStatusOfAbsentId(items: seq<ListedItem>, id: int, status: string)
    requires forall t :: t in items ==> t.item.id != id
    ensures WithStatus(items, id, status) == items
  {
    WithStatusOnlyTarget(items, id, status);
  }

  /** `boxes.map(box => box.id === id ? { ...box, qr_code_path: path } : box)`. */
  function WithQrPath(boxes: seq<Box>, id: int, path: string): (r: seq<Box>)
    ensures |r| == |boxes|
  {
    if boxes == [] then []
    else
      var head := if boxes[0].id == id then boxes[0].(qr_code_path := Some(path)) else boxes[0];
      [head] + WithQrPath(boxes[1..], id, path)
  }

  /** Only the boxes with that id get the new QR path; order and the other boxes are kept. */
  lemma {:induction false} WithQrPathOnlyTarget(boxes: seq<Box>, id: int, path: string)
    ensures |WithQrPath(boxes, id, path)| == |boxes|
    ensures forall i :: 0 <= i < |boxes| && boxes[i].id == id ==>
      WithQrPath(boxes, id, path)[i] == boxes[i].(qr_code_path := Some(path))
    ensures forall i :: 0 <= i < |boxes| && boxes[i].id != id ==>
      WithQrPath(boxes, id, path)[i] == boxes[i]
  {
    if boxes != [] {
      WithQrPathOnlyTarget(boxes[1..], id, path);
      var r := WithQrPath(boxes, id, path);
      assert forall i :: 1 <= i < |boxes| ==> r[i] == WithQrPath(boxes[1..], id, path)[i - 1];
    }
  }
}
