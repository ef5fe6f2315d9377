/**
  DELETE of app/api/account/delete/route.ts: remove the caller's images, then
  their categories, boxes and items, then their sign-in account. Every step
  after authentication is best effort: a failure is logged and the next step
  still runs.
 */
module AccountDeleteRoute {
  import opened Wrappers
  import opened Records
  import opened Sequences
  import opened Store
  import opened Storage

  const DoneMessage: string := "Account and all data deleted successfully"
  const PartialMessage: string := "User data deleted successfully, but account deletion failed. Please contact support."

  /** The success body: a message, and `warning: true` when the account itself survived. */
  datatype Farewell = Farewell(message: string, warning: bool)

  /** `if (row.image_path) imagePaths.push(row.image_path)` over rows in order. */
  function ImagePaths<T>(rows: seq<T>, imageOf: T -> Option<string>): (paths: seq<string>)
    ensures |paths| <= |rows|
    ensures forall i :: 0 <= i < |paths| ==> paths[i] != ""
  {
    if rows == [] then []
    else
      var last := imageOf(rows[|rows| - 1]);
      ImagePaths(rows[..|rows| - 1], imageOf) + (if last.Some? && last.value != "" then [last.value] else [])
  }

  /** A path is collected exactly when some row holds it as a non-empty image path. */
  lemma {:induction false} ImagePathsMembers<T>(rows: seq<T>, imageOf: T -> Option<string>, p: string)
    ensures p in ImagePaths(rows, imageOf) <==> p != "" && exists r :: r in rows && imageOf(r) == Some(p)
  {
    if rows != [] {
      var init := rows[..|rows| - 1];
      ImagePathsMembers(init, imageOf, p);
      assert rows == init + [rows[|rows| - 1]];
      if exists r :: r in rows && imageOf(r) == Some(p) {
        var r :| r in rows && imageOf(r) == Some(p);
        if r != rows[|rows| - 1] {
          assert r in init;
        }
      }
    }
  }

  function BoxImage(b: Box): Option<string> { b.image_path }
  function ItemImage(t: Item): Option<string> { t.image_path }

  /** The image paths the handler collects: boxes' first, then items', each in query order. */
  method CollectImagePaths(boxes: seq<Box>, items: seq<Item>) returns (paths: seq<string>)
    ensures paths == ImagePaths(boxes, BoxImage) + ImagePaths(items, ItemImage)
  {
    paths := PushImagePaths([], boxes, BoxImage);
    paths := PushImagePaths(paths, items, ItemImage);
  }

  /** One `forEach` of the collection: the rows' non-empty image paths pushed after `start`, in row order. */
  method PushImagePaths<T>(start: seq<string>, rows: seq<T>, imageOf: T -> Option<string>) returns (paths: seq<string>)
    ensures paths == start + ImagePaths(rows, imageOf)
  {
    paths := start;
    var i := 0;
    while i < |rows|
      invariant 0 <= i <= |rows|
      invariant paths == start + ImagePaths(rows[..i], imageOf)
    {
      assert rows[..i + 1][..i] == rows[..i];
      var image := imageOf(rows[i]);
      if image.Some? && image.value != "" {
        paths := paths + [image.value];
      }
      i := i + 1;
    }
    assert rows[..|rows|] == rows;
  }

  /** Keys of the paths whose removal goes ahead and succeeds (deleteImage skips an empty path). */
  function RemovedKeys(paths: seq<string>, failing: set<string>): set<string>
  {
    set p | p in paths && p != "" && p !in failing :: KeyOfPath(p)
  }

  lemma RemovedKeysStep(paths: seq<string>, k: int, failing: set<string>)
    requires 0 <= k < |paths|
    ensures RemovedKeys(paths[..k + 1], failing) ==
      RemovedKeys(paths[..k], failing) + (if paths[k] == "" || paths[k] in failing then {} else {KeyOfPath(paths[k])})
  {
    assert paths[..k + 1] == paths[..k] + [paths[k]];
  }

  /**
    `Promise.all(imagePaths.map(p => deleteImage(p).catch(warn)))`, run one
    path after another: every path is tried. A path in `badUrls` makes
    deleteImage throw (the rejection is caught and logged) and a path in
    `refused` has its removal refused; either way its object stays.
   */
  method RemoveImages(db: Database, paths: seq<string>, badUrls: set<string>, refused: set<string>)
    modifies db`bucket
    ensures db.bucket == old(db.bucket) - RemovedKeys(paths, badUrls + refused)
  {
    var k := 0;
    while k < |paths|
      invariant 0 <= k <= |paths|
      invariant db.bucket == old(db.bucket) - RemovedKeys(paths[..k], badUrls + refused)
    {
      var _ := DeleteImage(db, paths[k], paths[k] !in badUrls, paths[k] in refused);
      RemovedKeysStep(paths, k, badUrls + refused);
      k := k + 1;
    }
    assert paths[..|paths|] == paths;
  }

  /** The rows of a read that the handler iterates: none when the read fails and `data` is null. */
  function ReadRows<T>(readFails: bool, rows: seq<T>): (r: seq<T>)
    ensures readFails ==> r == []
    ensures !readFails ==> r == rows
  {
    if readFails then [] else rows
  }

  /** What can go wrong in the handler, step by step: each is logged or swallowed and the next step runs. */
  datatype Faults = Faults(
    boxesReadFails: bool, itemsReadFails: bool,
    badUrls: set<string>, refused: set<string>,
    categoriesFail: bool, boxesFail: bool, itemsFail: bool,
    accountFails: bool)

  /** The image paths collected from the caller's rows, given which reads fail. */
  function CollectedPaths(boxes: seq<Box>, items: seq<Item>, owner: string, f: Faults): seq<string>
  {
    ImagePaths(ReadRows(f.boxesReadFails, OwnedBoxes(boxes, owner)), BoxImage)
      + ImagePaths(ReadRows(f.itemsReadFails, OwnedItems(items, owner)), ItemImage)
  }

  /** A failed read contributes no path; a successful one contributes its rows' paths. */
  lemma CollectedPathsOfReads(boxes: seq<Box>, items: seq<Item>, owner: string, f: Faults)
    ensures f.boxesReadFails && f.itemsReadFails ==> CollectedPaths(boxes, items, owner, f) == []
    ensures forall p :: p in CollectedPaths(boxes, items, owner, f) <==>
      && p != ""
      && ((!f.boxesReadFails && exists b :: b in boxes && b.user_id == owner && b.image_path == Some(p))
          || (!f.itemsReadFails && exists t :: t in items && t.user_id == owner && t.image_path == Some(p)))
  {
    var bs := ReadRows(f.boxesReadFails, OwnedBoxes(boxes, owner));
    var ts := ReadRows(f.itemsReadFails, OwnedItems(items, owner));
    forall p ensures p in CollectedPaths(boxes, items, owner, f) <==>
      && p != ""
      && ((!f.boxesReadFails && exists b :: b in boxes && b.user_id == owner && b.image_path == Some(p))
          || (!f.itemsReadFails && exists t :: t in items && t.user_id == owner && t.image_path == Some(p)))
    {
      ImagePathsMembers(bs, BoxImage, p);
      ImagePathsMembers(ts, ItemImage, p);
    }
  }

  function NotBoxOwner(user: string): Box -> bool { (b: Box) => b.user_id != user }
  function NotItemOwner(user: string): Item -> bool { (t: Item) => t.user_id != user }
  function NotCategoryOwner(user: string): Category -> bool { (c: Category) => c.user_id != user }

  /** After a successful `delete().eq('user_id', user)` the owner has no rows left and everyone else's remain. */
  lemma WipeLeavesOthers(boxes: seq<Box>, user: string)
    ensures OwnedBoxes(Keep(boxes, NotBoxOwner(user)), user) == []
    ensures forall other :: other != user ==> OwnedBoxes(Keep(boxes, NotBoxOwner(user)), other) == OwnedBoxes(boxes, other)
  {
    KeepNone(Keep(boxes, NotBoxOwner(user)), BoxOwner(user));
    forall other | other != user
      ensures OwnedBoxes(Keep(boxes, NotBoxOwner(user)), other) == OwnedBoxes(boxes, other)
    {
      KeepTwice(boxes, NotBoxOwner(user), BoxOwner(other), BoxOwner(other));
    }
  }

  /**
    The three table deletions in the handler's order (categories, boxes,
    items); each one that fails leaves its table as it was and the next
    still runs.
   */
  method WipeTables(db: Database, owner: string, categoriesFail: bool, boxesFail: bool, itemsFail: bool)
    requires db.Valid()
    modifies db`categories, db`boxes, db`items
    ensures db.Valid()
    ensures db.categories == if categoriesFail then old(db.categories) else Keep(old(db.categories), NotCategoryOwner(owner))
    ensures db.boxes == if boxesFail then old(db.boxes) else Keep(old(db.boxes), NotBoxOwner(owner))
    ensures db.items == if itemsFail then old(db.items) else Keep(old(db.items), NotItemOwner(owner))
  {
    if !categoriesFail {
      WipeCategories(db, owner);
    }
    if !boxesFail {
      WipeBoxes(db, owner);
    }
    if !itemsFail {
      WipeItems(db, owner);
    }
  }

  /** `from('categories').delete().eq('user_id', owner)`. */
  method WipeCategories(db: Database, owner: string)
    requires db.Valid()
    modifies db`categories
    ensures db.Valid()
    ensures db.categories == Keep(old(db.categories), NotCategoryOwner(owner))
  {
    CategoriesFiltered(db.categories, NotCategoryOwner(owner), db.nextCategoryId);
    db.categories := Keep(db.categories, NotCategoryOwner(owner));
  }

  /** `from('boxes').delete().eq('user_id', owner)`. */
  method WipeBoxes(db: Database, owner: string)
    requires db.Valid()
    modifies db`boxes
    ensures db.Valid()
    ensures db.boxes == Keep(old(db.boxes), NotBoxOwner(owner))
  {
    BoxesFiltered(db.boxes, NotBoxOwner(owner), db.nextBoxId);
    db.boxes := Keep(db.boxes, NotBoxOwner(owner));
  }

  /** `from('items').delete().eq('user_id', owner)`. */
  method WipeItems(db: Database, owner: string)
    requires db.Valid()
    modifies db`items
    ensures db.Valid()
    ensures db.items == Keep(old(db.items), NotItemOwner(owner))
  {
    ItemsFiltered(db.items, NotItemOwner(owner), db.nextItemId);
    db.items := Keep(db.items, NotItemOwner(owner));
  }

  /** The caller's images, rows and account, each step best effort. */
  method DeleteEverything(db: Database, owner: string, f: Faults)
    requires db.Valid()
    modifies db`bucket, db`categories, db`boxes, db`items, db`accounts
    ensures db.Valid()
    ensures db.bucket == old(db.bucket) - RemovedKeys(CollectedPaths(old(db.boxes), old(db.items), owner, f), f.badUrls + f.refused)
    ensures db.categories == if f.categoriesFail then old(db.categories) else Keep(old(db.categories), NotCategoryOwner(owner))
    ensures db.boxes == if f.boxesFail then old(db.boxes) else Keep(old(db.boxes), NotBoxOwner(owner))
    ensures db.items == if f.itemsFail then old(db.items) else Keep(old(db.items), NotItemOwner(owner))
    ensures db.accounts == if f.accountFails then old(db.accounts) else old(db.accounts) - {owner}
  {
    var boxRows := ReadRows(f.boxesReadFails, OwnedBoxes(db.boxes, owner));
    var itemRows := ReadRows(f.itemsReadFails, OwnedItems(db.items, owner));
    var paths := CollectImagePaths(boxRows, itemRows);
    RemoveImages(db, paths, f.badUrls, f.refused);
    WipeTables(db, owner, f.categoriesFail, f.boxesFail, f.itemsFail);
    if !f.accountFails {
      db.DeleteUser(owner);
    }
  }

  /** DELETE /api/account/delete. */
  method DeleteAccount(db: Database, user: Option<string>, f: Faults) returns (reply: Reply<Farewell>)
    requires db.Valid()
    modifies db`bucket, db`categories, db`boxes, db`items, db`accounts
    ensures db.Valid()
    ensures user.None? ==>
      && reply == Failure(401, "Unauthorized")
      && db.bucket == old(db.bucket) && db.categories == old(db.categories) && db.boxes == old(db.boxes)
      && db.items == old(db.items) && db.accounts == old(db.accounts)
    ensures user.Some? ==>
      var owner := user.value;
      && db.bucket == old(db.bucket) - RemovedKeys(CollectedPaths(old(db.boxes), old(db.items), owner, f), f.badUrls + f.refused)
      && db.categories == (if f.categoriesFail then old(db.categories) else Keep(old(db.categories), NotCategoryOwner(owner)))
      && db.boxes == (if f.boxesFail then old(db.boxes) else Keep(old(db.boxes), NotBoxOwner(owner)))
      && db.items == (if f.itemsFail then old(db.items) else Keep(old(db.items), NotItemOwner(owner)))
      && db.accounts == (if f.accountFails then old(db.accounts) else old(db.accounts) - {owner})
      && reply == Success(200, if f.accountFails then Farewell(PartialMessage, true) else Farewell(DoneMessage, false))
  {
    if user.None? {
      return Failure(401, "Unauthorized");
    }
    DeleteEverything(db, user.value, f);
    if f.accountFails {
      return Success(200, Farewell(PartialMessage, true));
    }
    reply := Success(200, Farewell(DoneMessage, false));
  }
}
