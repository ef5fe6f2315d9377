/**
  The hosted database as in-memory tables. Every handler scopes its queries by
  the caller's user id; row-level security and foreign-key cascades are the
  platform's and are not part of this model. `bucket` holds the object keys of
  the "images" storage bucket and `accounts` the identity provider's users.
 */
module Store {
  import opened Wrappers
  import opened Records
  import opened Sequences

  function BoxOwner(user: string): Box -> bool { (b: Box) => b.user_id == user }
  function ItemOwner(user: string): Item -> bool { (t: Item) => t.user_id == user }
  function CategoryOwner(user: string): Category -> bool { (c: Category) => c.user_id == user }

  /** `.eq('user_id', user)` on the boxes table. */
  function OwnedBoxes(boxes: seq<Box>, user: string): (r: seq<Box>)
    ensures forall b :: b in r <==> b in boxes && b.user_id == user
  {
    Keep(boxes, BoxOwner(user))
  }

  /** `.eq('user_id', user)` on the items table. */
  function OwnedItems(items: seq<Item>, user: string): (r: seq<Item>)
    ensures forall t :: t in r <==> t in items && t.user_id == user
  {
    Keep(items, ItemOwner(user))
  }

  /** `.eq('user_id', user)` on the categories table. */
  function OwnedCategories(categories: seq<Category>, user: string): (r: seq<Category>)
    ensures forall c :: c in r <==> c in categories && c.user_id == user
  {
    Keep(categories, CategoryOwner(user))
  }

  predicate BoxIdBefore(a: Box, b: Box) { a.id < b.id }
  predicate ItemIdBefore(a: Item, b: Item) { a.id < b.id }
  predicate CategoryIdBefore(a: Category, b: Category) { a.id < b.id }

  /** No owner has two boxes with the same number. */
  ghost predicate BoxNumbersUnique(boxes: seq<Box>)
  {
    forall i, j :: 0 <= i < j < |boxes| && boxes[i].user_id == boxes[j].user_id ==>
      boxes[i].box_number != boxes[j].box_number
  }

  /** No owner has two categories with the same name. */
  ghost predicate CategoryNamesUnique(categories: seq<Category>)
  {
    forall i, j :: 0 <= i < j < |categories| && categories[i].user_id == categories[j].user_id ==>
      categories[i].name != categories[j].name
  }

  class Database {
    var boxes: seq<Box>
    var items: seq<Item>
    var categories: seq<Category>
    var nextBoxId: int
    var nextItemId: int
    var nextCategoryId: int
    var bucket: set<string>
    var accounts: set<string>

    /** Identity columns: every table's ids increase along the table and stay below the next id to hand out. */
    ghost predicate Valid()
      reads this`boxes, this`items, this`categories, this`nextBoxId, this`nextItemId, this`nextCategoryId
    {
      && 0 < nextBoxId && 0 < nextItemId && 0 < nextCategoryId
      && SortedBy(boxes, BoxIdBefore) && SortedBy(items, ItemIdBefore) && SortedBy(categories, CategoryIdBefore)
      && (forall i :: 0 <= i < |boxes| ==> 0 < boxes[i].id < nextBoxId)
      && (forall i :: 0 <= i < |items| ==> 0 < items[i].id < nextItemId)
      && (forall i :: 0 <= i < |categories| ==> 0 < categories[i].id < nextCategoryId)
    }

    constructor (accounts: set<string>)
      ensures Valid()
      ensures boxes == [] && items == [] && categories == [] && bucket == {}
      ensures this.accounts == accounts
    {
      boxes, items, categories := [], [], [];
      nextBoxId, nextItemId, nextCategoryId := 1, 1, 1;
      bucket := {};
      this.accounts := accounts;
    }

    /** `insert(row).select().single()` on boxes: the row gets the next identity value. */
    method InsertBox(row: Box) returns (box: Box)
      requires Valid()
      modifies this`boxes, this`nextBoxId
      ensures Valid()
      ensures box == row.(id := old(nextBoxId))
      ensures boxes == old(boxes) + [box]
      ensures forall b :: b in old(boxes) ==> b.id < box.id
    {
      box := row.(id := nextBoxId);
      boxes := boxes + [box];
      nextBoxId := nextBoxId + 1;
    }

    /** `insert(row).select().single()` on items. */
    method InsertItem(row: Item) returns (item: Item)
      requires Valid()
      modifies this`items, this`nextItemId
      ensures Valid()
      ensures item == row.(id := old(nextItemId))
      ensures items == old(items) + [item]
      ensures forall t :: t in old(items) ==> t.id < item.id
    {
      item := row.(id := nextItemId);
      items := items + [item];
      nextItemId := nextItemId + 1;
    }

    /** `insert(row).select().single()` on categories. */
    method InsertCategory(row: Category) returns (category: Category)
      requires Valid()
      modifies this`categories, this`nextCategoryId
      ensures Valid()
      ensures category == row.(id := old(nextCategoryId))
      ensures categories == old(categories) + [category]
      ensures forall c :: c in old(categories) ==> c.id < category.id
    {
      category := row.(id := nextCategoryId);
      categories := categories + [category];
      nextCategoryId := nextCategoryId + 1;
    }

    /** `auth.admin.deleteUser(user)`: the account is gone and no table changes. */
    method DeleteUser(user: string)
      requires Valid()
      modifies this`accounts
      ensures Valid()
      ensures accounts == old(accounts) - {user}
    {
      accounts := accounts - {user};
    }
  }

  /** Rewriting rows without touching their ids keeps a box table's identity invariant. */
  lemma BoxIdsKept(a: seq<Box>, b: seq<Box>, next: int)
    requires SortedBy(a, BoxIdBefore) && forall i :: 0 <= i < |a| ==> 0 < a[i].id < next
    requires |b| == |a| && forall i :: 0 <= i < |b| ==> b[i].id == a[i].id
    ensures SortedBy(b, BoxIdBefore) && forall i :: 0 <= i < |b| ==> 0 < b[i].id < next
  {
    forall i, j | 0 <= i < j < |b| ensures BoxIdBefore(b[i], b[j]) {
      assert BoxIdBefore(a[i], a[j]);
    }
  }

  /** The same for items. */
  lemma ItemIdsKept(a: seq<Item>, b: seq<Item>, next: int)
    requires SortedBy(a, ItemIdBefore) && forall i :: 0 <= i < |a| ==> 0 < a[i].id < next
    requires |b| == |a| && forall i :: 0 <= i < |b| ==> b[i].id == a[i].id
    ensures SortedBy(b, ItemIdBefore) && forall i :: 0 <= i < |b| ==> 0 < b[i].id < next
  {
    forall i, j | 0 <= i < j < |b| ensures ItemIdBefore(b[i], b[j]) {
      assert ItemIdBefore(a[i], a[j]);
    }
  }

  /** Deleting rows keeps a box table's identity invariant. */
  lemma BoxesFiltered(a: seq<Box>, p: Box -> bool, next: int)
    requires SortedBy(a, BoxIdBefore) && forall i :: 0 <= i < |a| ==> 0 < a[i].id < next
    ensures SortedBy(Keep(a, p), BoxIdBefore) && forall i :: 0 <= i < |Keep(a, p)| ==> 0 < Keep(a, p)[i].id < next
  {
    KeepSorted(a, p, BoxIdBefore);
    var r := Keep(a, p);
    forall i | 0 <= i < |r| ensures 0 < r[i].id < next {
      assert r[i] in a;
    }
  }

  /** The same for items. */
  lemma ItemsFiltered(a: seq<Item>, p: Item -> bool, next: int)
    requires SortedBy(a, ItemIdBefore) && forall i :: 0 <= i < |a| ==> 0 < a[i].id < next
    ensures SortedBy(Keep(a, p), ItemIdBefore) && forall i :: 0 <= i < |Keep(a, p)| ==> 0 < Keep(a, p)[i].id < next
  {
    KeepSorted(a, p, ItemIdBefore);
    var r := Keep(a, p);
    forall i | 0 <= i < |r| ensures 0 < r[i].id < next {
      assert r[i] in a;
    }
  }

  /** The same for categories. */
  lemma CategoriesFiltered(a: seq<Category>, p: Category -> bool, next: int)
    requires SortedBy(a, CategoryIdBefore) && forall i :: 0 <= i < |a| ==> 0 < a[i].id < next
    ensures SortedBy(Keep(a, p), CategoryIdBefore) && forall i :: 0 <= i < |Keep(a, p)| ==> 0 < Keep(a, p)[i].id < next
  {
    KeepSorted(a, p, CategoryIdBefore);
    var r := Keep(a, p);
    forall i | 0 <= i < |r| ensures 0 < r[i].id < next {
      assert r[i] in a;
    }
  }

  function BoxKey(id: int, user: string): Box -> bool { (b: Box) => b.id == id && b.user_id == user }
  function CategoryKey(id: int, user: string): Category -> bool { (c: Category) => c.id == id && c.user_id == user }

  /** `.eq('id', id).eq('user_id', user).single()` on boxes finds a row: exactly one matches. */
  predicate BoxFound(boxes: seq<Box>, id: int, user: string)
  {
    Count(boxes, BoxKey(id, user)) == 1
  }

  /** `.eq('id', id).eq('user_id', user).single()` on categories finds a row. */
  predicate CategoryFound(categories: seq<Category>, id: int, user: string)
  {
    Count(categories, CategoryKey(id, user)) == 1
  }

  /** Ids are distinct in a valid table, so the lookup succeeds exactly when the caller owns a box with that id. */
  lemma BoxFoundIffOwned(db: Database, id: int, user: string)
    requires db.Valid()
    ensures BoxFound(db.boxes, id, user) <==> exists b :: b in db.boxes && b.id == id && b.user_id == user
  {
    var p := BoxKey(id, user);
    forall i, j | 0 <= i < j < |db.boxes| ensures !(p(db.boxes[i]) && p(db.boxes[j])) {
      assert BoxIdBefore(db.boxes[i], db.boxes[j]);
    }
    CountAtMostOne(db.boxes, p);
    var hits := Keep(db.boxes, p);
    if exists b :: b in db.boxes && b.id == id && b.user_id == user {
      var b :| b in db.boxes && b.id == id && b.user_id == user;
      assert b in hits;
    }
    if |hits| == 1 {
      assert hits[0] in hits;
    }
  }

  /** The same for categories. */
  lemma CategoryFoundIffOwned(db: Database, id: int, user: string)
    requires db.Valid()
    ensures CategoryFound(db.categories, id, user) <==> exists c :: c in db.categories && c.id == id && c.user_id == user
  {
    var p := CategoryKey(id, user);
    forall i, j | 0 <= i < j < |db.categories| ensures !(p(db.categories[i]) && p(db.categories[j])) {
      assert CategoryIdBefore(db.categories[i], db.categories[j]);
    }
    CountAtMostOne(db.categories, p);
    var hits := Keep(db.categories, p);
    if exists c :: c in db.categories && c.id == id && c.user_id == user {
      var c :| c in db.categories && c.id == id && c.user_id == user;
      assert c in hits;
    }
    if |hits| == 1 {
      assert hits[0] in hits;
    }
  }
}
