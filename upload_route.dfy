/** POST of app/api/upload/route.ts: validate a multipart upload, store it, point a record at it. */
module UploadRoute {
  import opened Wrappers
  import opened Strings
  import opened Records
  import opened Sequences
  import opened Store
  import opened Storage

  /** The multipart fields the handler reads: `image`, `type` and `id`. */
  datatype UploadForm = UploadForm(image: Option<ImageFile>, kind: Option<string>, id: Option<string>)

  const NoFile: string := "No file provided"
  const BadKind: string := "Invalid type. Must be \"box\" or \"item\""
  const BadId: string := "Invalid ID provided"
  const BadMime: string := "Invalid file type. Only JPEG, PNG, GIF, and WebP are allowed."
  const TooLarge: string := "File too large. Maximum size is 10MB."

  predicate KindOk(kind: Option<string>)
  {
    kind.Some? && (kind.value == "box" || kind.value == "item")
  }

  /** `id` is present, non-empty and `parseInt` gives a number. */
  predicate IdOk(id: Option<string>)
  {
    id.Some? && id.value != "" && ParseInt(id.value).Some?
  }

  /** The message of the first check the form fails, in the handler's order; none when it passes them all. */
  function Problem(form: UploadForm): (r: Option<string>)
    ensures r == Some(NoFile) <==> form.image.None?
    ensures r == Some(BadKind) <==> form.image.Some? && !KindOk(form.kind)
    ensures r == Some(BadId) <==> form.image.Some? && KindOk(form.kind) && !IdOk(form.id)
    ensures r == Some(BadMime) <==> form.image.Some? && KindOk(form.kind) && IdOk(form.id) && !IsValidImageType(form.image.value.mime)
    ensures r == Some(TooLarge) <==>
      form.image.Some? && KindOk(form.kind) && IdOk(form.id) && IsValidImageType(form.image.value.mime) && !ValidateImageSize(form.image.value.size)
    ensures r.None? <==>
      form.image.Some? && KindOk(form.kind) && IdOk(form.id) && IsValidImageType(form.image.value.mime) && ValidateImageSize(form.image.value.size)
  {
    if form.image.None? then Some(NoFile)
    else if !KindOk(form.kind) then Some(BadKind)
    else if !IdOk(form.id) then Some(BadId)
    else if !IsValidImageType(form.image.value.mime) then Some(BadMime)
    else if !ValidateImageSize(form.image.value.size) then Some(TooLarge)
    else None
  }

  /** `update({ image_path }).eq('id', id).eq('user_id', owner)` on boxes. */
  function WithBoxImage(boxes: seq<Box>, id: int, owner: string, path: string): (r: seq<Box>)
    ensures |r| == |boxes|
    ensures forall i :: 0 <= i < |r| ==> r[i].id == boxes[i].id
    ensures forall i :: 0 <= i < |r| ==>
      r[i] == if boxes[i].id == id && boxes[i].user_id == owner then boxes[i].(image_path := Some(path)) else boxes[i]
  {
    seq(|boxes|, i requires 0 <= i < |boxes| =>
      if boxes[i].id == id && boxes[i].user_id == owner then boxes[i].(image_path := Some(path)) else boxes[i])
  }

  /** The same update on items. */
  function WithItemImage(items: seq<Item>, id: int, owner: string, path: string): (r: seq<Item>)
    ensures |r| == |items|
    ensures forall i :: 0 <= i < |r| ==> r[i].id == items[i].id
    ensures forall i :: 0 <= i < |r| ==>
      r[i] == if items[i].id == id && items[i].user_id == owner then items[i].(image_path := Some(path)) else items[i]
  {
    seq(|items|, i requires 0 <= i < |items| =>
      if items[i].id == id && items[i].user_id == owner then items[i].(image_path := Some(path)) else items[i])
  }

  /** An update for a box the caller does not own changes nothing. */
  lemma UnownedBoxUntouched(boxes: seq<Box>, id: int, owner: string, path: string)
    requires forall b :: b in boxes ==> !(b.id == id && b.user_id == owner)
    ensures WithBoxImage(boxes, id, owner, path) == boxes
  {
    var r := WithBoxImage(boxes, id, owner, path);
    forall i | 0 <= i < |r| ensures r[i] == boxes[i] {
      assert boxes[i] in boxes;
    }
  }

  /**
    The record update after a stored upload: `image_path` of the caller's box
    or item with that id; a failed update leaves the tables as they were.
   */
  method RecordImage(db: Database, kind: string, id: int, owner: string, imagePath: string, updateFails: bool)
    requires db.Valid()
    modifies db`boxes, db`items
    ensures db.Valid()
    ensures db.boxes == if kind == "box" && !updateFails then WithBoxImage(old(db.boxes), id, owner, imagePath) else old(db.boxes)
    ensures db.items == if kind == "item" && !updateFails then WithItemImage(old(db.items), id, owner, imagePath) else old(db.items)
  {
    if updateFails {
      return;
    }
    if kind == "box" {
      BoxIdsKept(db.boxes, WithBoxImage(db.boxes, id, owner, imagePath), db.nextBoxId);
      db.boxes := WithBoxImage(db.boxes, id, owner, imagePath);
    } else if kind == "item" {
      ItemIdsKept(db.items, WithItemImage(db.items, id, owner, imagePath), db.nextItemId);
      db.items := WithItemImage(db.items, id, owner, imagePath);
    }
  }

  /**
    The part of the handler after the checks: store the file (a storage
    failure becomes a 500), then point the caller's record at it.
   */
  method StoreAndRecord(db: Database, owner: string, file: ImageFile, kind: string, id: int, now: int,
                        publicBase: string, storageFails: bool, updateFails: bool) returns (reply: Reply<string>)
    requires db.Valid()
    modifies db`bucket, db`boxes, db`items
    ensures db.Valid()
    ensures var key := ObjectKey(kind, id, now, file.name);
      && (reply.Success? <==> !storageFails && key !in old(db.bucket))
      && (reply.Failure? ==> reply == Failure(500, "Failed to upload image") && db.bucket == old(db.bucket))
      && (reply.Failure? ==> db.boxes == old(db.boxes) && db.items == old(db.items))
      && (reply.Success? ==>
            && reply == Success(200, publicBase + "/" + key)
            && db.bucket == old(db.bucket) + {key}
            && db.boxes == (if kind == "box" && !updateFails then WithBoxImage(old(db.boxes), id, owner, reply.value) else old(db.boxes))
            && db.items == (if kind == "item" && !updateFails then WithItemImage(old(db.items), id, owner, reply.value) else old(db.items)))
  {
    var stored := UploadImage(db, file, kind, id, now, publicBase, storageFails);
    if stored.Err? {
      return Failure(500, "Failed to upload image");
    }
    var imagePath := stored.value;
    RecordImage(db, kind, id, owner, imagePath, updateFails);
    reply := Success(200, imagePath);
  }

  /**
    POST /api/upload. After the checks the file is stored (a storage failure
    is thrown and becomes a 500); the record update's failure is only logged
    and the reply is still the image's URL.
   */
  method Upload(db: Database, user: Option<string>, form: UploadForm, now: int, publicBase: string,
                storageFails: bool, updateFails: bool) returns (reply: Reply<string>)
    requires db.Valid()
    modifies db`bucket, db`boxes, db`items
    ensures db.Valid()
    ensures user.None? ==> reply == Failure(401, "Unauthorized")
    ensures user.Some? && Problem(form).Some? ==> reply == Failure(400, Problem(form).value)
    ensures reply.Failure? ==> db.bucket == old(db.bucket)
    ensures reply.status != 200 ==> db.boxes == old(db.boxes) && db.items == old(db.items)
    ensures user.Some? && Problem(form).None? ==>
      var key := ObjectKey(form.kind.value, ParseInt(form.id.value).value, now, form.image.value.name);
      && (reply.Success? <==> !storageFails && key !in old(db.bucket))
      && (reply.Failure? ==> reply == Failure(500, "Failed to upload image"))
      && (reply.Success? ==>
            && reply == Success(200, publicBase + "/" + key)
            && db.bucket == old(db.bucket) + {key}
            && db.boxes == (if form.kind.value == "box" && !updateFails
                            then WithBoxImage(old(db.boxes), ParseInt(form.id.value).value, user.value, reply.value)
                            else old(db.boxes))
            && db.items == (if form.kind.value == "item" && !updateFails
                            then WithItemImage(old(db.items), ParseInt(form.id.value).value, user.value, reply.value)
                            else old(db.items)))
  {
    if user.None? {
      return Failure(401, "Unauthorized");
    }
    var problem := Problem(form);
    if problem.Some? {
      return Failure(400, problem.value);
    }
    assert form.image.Some? && KindOk(form.kind) && IdOk(form.id);
    var id := ParseInt(form.id.value).value;
    reply := StoreAndRecord(db, user.value, form.image.value, form.kind.value, id, now, publicBase, storageFails, updateFails);
  }
}
