/**
  The box grid of components/BoxesGrid.tsx: the caller's boxes, a QR code
  button on each box that has none, and the marker of the box whose code is
  being generated. The fields of `Grid` are the component's state.
 */
module BoxesGrid {
  import opened Wrappers
  import opened Records
  import opened ItemLists

  /** `!box.qr_code_path`: the button shows for a missing or empty path. */
  predicate OffersQrButton(b: Box)
  {
    b.qr_code_path.None? || b.qr_code_path.value == ""
  }

  /**
    Once a box has a generated (non-empty) path its button is gone, and every
    other box keeps or lacks its button as before.
   */
  lemma GeneratedBoxLosesButton(boxes: seq<Box>, id: int, path: string)
    requires path != ""
    ensures forall i :: 0 <= i < |boxes| && boxes[i].id == id ==> !OffersQrButton(WithQrPath(boxes, id, path)[i])
    ensures forall i :: 0 <= i < |boxes| && boxes[i].id != id ==>
      OffersQrButton(WithQrPath(boxes, id, path)[i]) == OffersQrButton(boxes[i])
  {
    WithQrPathOnlyTarget(boxes, id, path);
  }

  class Grid {
    var boxes: seq<Box>
    var generatingQR: Option<int>
    var loading: bool

    constructor()
      ensures boxes == [] && generatingQR == None && loading
    {
      boxes := [];
      generatingQR := None;
      loading := true;
    }

    /** The button of `b` is disabled and spinning. */
    predicate IsGenerating(b: Box)
      reads this
    {
      generatingQR == Some(b.id)
    }

    /** `fetchBoxes`: an OK response replaces the boxes. */
    method FetchBoxes(reply: Option<seq<Box>>)
      modifies this`boxes, this`loading
      ensures !loading
      ensures boxes == if reply.Some? then reply.value else old(boxes)
    {
      if reply.Some? {
        boxes := reply.value;
      }
      loading := false;
    }

    /** First step of `generateQRCode`: the box is marked as in progress. */
    method BeginQr(boxId: int)
      modifies this`generatingQR
      ensures generatingQR == Some(boxId)
    {
      generatingQR := Some(boxId);
    }

    /** The rest of `generateQRCode`: an OK response sets that box's path, and the marker is always cleared. */
    method FinishQr(boxId: int, qrCodePath: Option<string>)
      modifies this`boxes, this`generatingQR
      ensures generatingQR == None
      ensures boxes == if qrCodePath.Some? then WithQrPath(old(boxes), boxId, qrCodePath.value) else old(boxes)
    {
      if qrCodePath.Some? {
        boxes := WithQrPath(boxes, boxId, qrCodePath.value);
      }
      generatingQR := None;
    }

    /** `generateQRCode`, both steps. */
    method GenerateQrCode(boxId: int, qrCodePath: Option<string>)
      modifies this`boxes, this`generatingQR
      ensures generatingQR == None
      ensures boxes == if qrCodePath.Some? then WithQrPath(old(boxes), boxId, qrCodePath.value) else old(boxes)
    {
      BeginQr(boxId);
      FinishQr(boxId, qrCodePath);
    }
  }
}
