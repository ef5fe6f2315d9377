/** GET and POST of app/api/items/route.ts. */
module ItemsRoute {
  import opened Wrappers
  import opened Strings
  import opened Records
  import opened Sequences
  import opened Store

  // ------------------------------------------------------------- pagination

  /** The texts read when the `limit` and `page` parameters are missing: "20" and "1". */
  const LimitFallback: string := IntToString(20)
  const PageFallback: string := IntToString(1)

  lemma FallbackTexts()
    ensures LimitFallback == "20" && PageFallback == "1"
  {
    assert NatToString(2) == "2";
  }

  /** `parseInt(searchParams.get(name) || fallback)`: a missing or empty parameter falls back. */
  function QueryNumber(param: Option<string>, fallback: string): Option<int>
  {
    ParseInt(if param.None? || param.value == "" then fallback else param.value)
  }

  /** A parameter holding a printed number reads back as that number. */
  lemma NumberReadBack(n: int, fallback: string)
    ensures QueryNumber(Some(IntToString(n)), fallback) == Some(n)
  {
    var s := IntToString(n);
    assert s != "";
    assert QueryNumber(Some(s), fallback) == ParseInt(s);
    ParseIntOfIntToString(n);
  }

  /** Without a `limit` parameter a page holds 20 rows. */
  lemma DefaultLimit()
    ensures QueryNumber(None, LimitFallback) == Some(20)
  {
    ParseIntOfIntToString(20);
  }

  /** Without a `page` parameter the first page is asked for. */
  lemma DefaultPage()
    ensures QueryNumber(None, PageFallback) == Some(1)
  {
    ParseIntOfIntToString(1);
  }

  /** Index of the first row of `page` (pages count from 1). */
  function Offset(page: int, limit: int): int
  {
    (page - 1) * limit
  }

  /** `Math.ceil(total / limit)`. */
  function TotalPages(total: nat, limit: int): int
    requires limit >= 1
  {
    (total + limit - 1) / limit
  }

  /** `offset + limit < total`. */
  predicate HasMore(offset: int, limit: int, total: nat)
  {
    offset + limit < total
  }

  /** The page count is the ceiling of total / limit: the fewest pages of `limit` rows that hold every row. */
  lemma TotalPagesIsCeiling(total: nat, limit: int)
    requires limit >= 1
    ensures var n := TotalPages(total, limit); n >= 0 && (n - 1) * limit < total <= n * limit
  {
    var q := (total + limit - 1) / limit;
    var r := (total + limit - 1) % limit;
    assert total + limit - 1 == q * limit + r;
    assert (q - 1) * limit == q * limit - limit;
  }

  /** Another page follows exactly when the current page is not the last one. */
  lemma HasMoreIffNotLastPage(page: int, limit: int, total: nat)
    requires page >= 1 && limit >= 1
    ensures HasMore(Offset(page, limit), limit, total) <==> page < TotalPages(total, limit)
  {
    var n := TotalPages(total, limit);
    TotalPagesIsCeiling(total, limit);
    assert Offset(page, limit) + limit == page * limit;
    if page < n {
      MulMonotone(page, n - 1, limit);
    } else {
      MulMonotone(n, page, limit);
    }
  }

  lemma OffsetNonNegative(page: int, limit: int)
    requires page >= 1 && limit >= 1
    ensures Offset(page, limit) >= 0
  {
    MulMonotone(0, page - 1, limit);
  }

  lemma MulMonotone(a: int, b: int, c: int)
    requires a <= b && c >= 0
    ensures a * c <= b * c
  {
    assert b * c - a * c == (b - a) * c;
  }

  /** `.range(offset, offset + limit - 1)`: rows `offset` to `offset + limit - 1` inclusive, those that exist. */
  function Window<T>(rows: seq<T>, offset: int, limit: int): (r: seq<T>)
    requires offset >= 0 && limit >= 1
    ensures |r| <= limit
    ensures |r| == if offset >= |rows| then 0 else Min(limit, |rows| - offset)
    ensures forall i :: 0 <= i < |r| ==> r[i] == rows[offset + i]
  {
    if offset >= |rows| then [] else rows[offset..offset + Min(limit, |rows| - offset)]
  }

  function Min(a: int, b: int): int { if a <= b then a else b }

  /** Consecutive pages are consecutive stretches of the rows: page p followed by page p + 1. */
  lemma {:induction false} PagesAreConsecutive<T>(rows: seq<T>, page: int, limit: int)
    requires page >= 1 && limit >= 1
    requires Offset(page, limit) + limit <= |rows|
    ensures Window(rows, Offset(page, limit), limit) + Window(rows, Offset(page + 1, limit), limit)
         == rows[Offset(page, limit)..Offset(page, limit) + limit + Min(limit, |rows| - Offset(page, limit) - limit)]
  {
    var o := Offset(page, limit);
    assert Offset(page + 1, limit) == o + limit;
    var a := Window(rows, o, limit);
    var b := Window(rows, o + limit, limit);
    assert a == rows[o..o + limit];
    if o + limit < |rows| {
      assert b == rows[o + limit..o + limit + Min(limit, |rows| - o - limit)];
    }
  }

  // -------------------------------------------------------------- selection

  /** What the `or(name.ilike…, description.ilike…, notes.ilike…)` filter accepts. */
  predicate MatchesSearch(t: Item, search: string)
  {
    || ContainsIgnoringCase(t.name, search)
    || (t.description.Some? && ContainsIgnoringCase(t.description.value, search))
    || (t.notes.Some? && ContainsIgnoringCase(t.notes.value, search))
  }

  /** The rows the GET query selects: the caller's, matching the search and the box when those are given. */
  predicate Selects(t: Item, owner: string, search: Option<string>, box: Option<int>)
  {
    && t.user_id == owner
    && (search.Some? ==> MatchesSearch(t, search.value))
    && (box.Some? ==> t.box_id == box.value)
  }

  function Selection(owner: string, search: Option<string>, box: Option<int>): Item -> bool
  {
    (t: Item) => Selects(t, owner, search, box)
  }

  function SearchMatch(search: string): Item -> bool
  {
    (t: Item) => MatchesSearch(t, search)
  }

  function BoxMatch(box: int): Item -> bool
  {
    (t: Item) => t.box_id == box
  }

  /** `.order('date_added', { ascending: false })`. */
  predicate NewestFirst(a: Item, b: Item)
  {
    a.date_added >= b.date_added
  }

  /** A query parameter that takes effect only when present and non-empty (`if (search)`). */
  function NonEmpty(param: Option<string>): (r: Option<string>)
    ensures r.Some? <==> param.Some? && param.value != ""
  {
    if param.Some? && param.value != "" then param else None
  }

  // ------------------------------------------------------------- flattening

  /** The row the `box:boxes(...)` join finds for a box id. */
  function FindBox(boxes: seq<Box>, id: int): (r: Option<Box>)
    ensures r.Some? ==> r.value in boxes && r.value.id == id
    ensures r.None? ==> forall b :: b in boxes ==> b.id != id
  {
    if boxes == [] then None
    else if boxes[0].id == id then Some(boxes[0])
    else FindBox(boxes[1..], id)
  }

  /** The row the `category:categories(...)` join finds; none for a null category. */
  function FindCategory(categories: seq<Category>, id: Option<int>): (r: Option<Category>)
    ensures r.Some? ==> id.Some? && r.value in categories && r.value.id == id.value
    ensures r.None? ==> id.None? || forall c :: c in categories ==> c.id != id.value
  {
    if id.None? || categories == [] then None
    else if categories[0].id == id.value then Some(categories[0])
    else FindCategory(categories[1..], id)
  }

  /** One transformed row: the item with its box's and category's display fields beside it. */
  function Flatten(t: Item, boxes: seq<Box>, categories: seq<Category>): (r: ListedItem)
    ensures r.item == t
    ensures r.box_number.Some? <==> exists b :: b in boxes && b.id == t.box_id
    ensures r.box_number.Some? ==> exists b :: (b in boxes && b.id == t.box_id &&
      r.box_number == Some(b.box_number) && r.box_label == b.label_text && r.box_location == Some(b.location))
    ensures r.box_number.None? ==> r.box_label.None? && r.box_location.None?
    ensures r.category_name.Some? <==> t.category_id.Some? && exists c :: c in categories && c.id == t.category_id.value
    ensures r.category_name.Some? ==> exists c :: (c in categories && Some(c.id) == t.category_id &&
      r.category_name == Some(c.name) && r.category_color == Some(c.color))
    ensures r.category_name.None? ==> r.category_color.None?
  {
    var box := FindBox(boxes, t.box_id);
    var category := FindCategory(categories, t.category_id);
    ListedItem(
      t,
      if box.Some? then Some(box.value.box_number) else None,
      if box.Some? then box.value.label_text else None,
      if box.Some? then Some(box.value.location) else None,
      if category.Some? then Some(category.value.name) else None,
      if category.Some? then Some(category.value.color) else None)
  }

  function FlattenAll(rows: seq<Item>, boxes: seq<Box>, categories: seq<Category>): (r: seq<ListedItem>)
    ensures |r| == |rows| && forall i :: 0 <= i < |rows| ==> r[i] == Flatten(rows[i], boxes, categories)
  {
    seq(|rows|, i requires 0 <= i < |rows| => Flatten(rows[i], boxes, categories))
  }

  // -------------------------------------------------------------------- GET

  datatype ItemsQuery = ItemsQuery(limit: Option<string>, page: Option<string>, search: Option<string>, box_id: Option<string>)

  datatype Pagination = Pagination(page: int, limit: int, total: nat, totalPages: int, hasMore: bool)

  datatype ItemsPage = ItemsPage(items: seq<ListedItem>, pagination: Pagination)

  /** The page and limit parse to positive numbers (with their defaults). */
  predicate PagingWellFormed(q: ItemsQuery)
  {
    && QueryNumber(q.limit, LimitFallback).Some? && QueryNumber(q.limit, LimitFallback).value >= 1
    && QueryNumber(q.page, PageFallback).Some? && QueryNumber(q.page, PageFallback).value >= 1
  }

  /** The box filter: the parsed `box_id` when the parameter is non-empty. */
  function BoxFilter(q: ItemsQuery): Option<int>
  {
    if NonEmpty(q.box_id).None? then None else ParseInt(NonEmpty(q.box_id).value)
  }

  /** A non-empty `box_id` that is no number: the query compares an integer column with NaN and fails. */
  predicate BadBoxFilter(q: ItemsQuery)
  {
    NonEmpty(q.box_id).Some? && ParseInt(NonEmpty(q.box_id).value).None?
  }

  /** The rows of one page, flattened. */
  function PageRows(db_items: seq<Item>, boxes: seq<Box>, categories: seq<Category>,
                    owner: string, search: Option<string>, box: Option<int>, page: int, limit: int): seq<ListedItem>
    requires page >= 1 && limit >= 1
  {
    FlattenAll(Window(SortBy(Keep(db_items, Selection(owner, search, box)), NewestFirst), Offset(page, limit), limit), boxes, categories)
  }

  /** Every row of a page is a stored item the query selects, and a page holds at most `limit` rows. */
  lemma PageRowsSelected(db_items: seq<Item>, boxes: seq<Box>, categories: seq<Category>,
                         owner: string, search: Option<string>, box: Option<int>, page: int, limit: int)
    requires page >= 1 && limit >= 1
    ensures |PageRows(db_items, boxes, categories, owner, search, box, page, limit)| <= limit
    ensures forall r :: r in PageRows(db_items, boxes, categories, owner, search, box, page, limit) ==>
      r.item in db_items && Selects(r.item, owner, search, box)
  {
    var rows := Keep(db_items, Selection(owner, search, box));
    var ordered := SortBy(rows, NewestFirst);
    var offset := Offset(page, limit);
    OffsetNonNegative(page, limit);
    var window := Window(ordered, offset, limit);
    var listed := FlattenAll(window, boxes, categories);
    forall r | r in listed ensures r.item in db_items && Selects(r.item, owner, search, box) {
      var i :| 0 <= i < |listed| && listed[i] == r;
      var t := window[i];
      assert r.item == t;
      assert t == ordered[offset + i];
      SortByMembers(rows, NewestFirst, t);
    }
  }

  /**
    GET /api/items: one page of the caller's items, newest first, filtered by
    search text and box, with pagination figures over all the caller's items.
   */
  method List(db: Database, user: Option<string>, q: ItemsQuery) returns (reply: Reply<ItemsPage>)
    requires PagingWellFormed(q)
    ensures user.None? <==> reply == Failure(401, "Unauthorized")
    ensures user.Some? && BadBoxFilter(q) ==> reply == Failure(500, "Failed to fetch items")
    ensures reply.Success? <==> user.Some? && !BadBoxFilter(q)
    ensures reply.Success? ==>
      var limit := QueryNumber(q.limit, LimitFallback).value;
      var page := QueryNumber(q.page, PageFallback).value;
      var total := |OwnedItems(db.items, user.value)|;
      && reply.status == 200
      && reply.value.pagination == Pagination(page, limit, total, TotalPages(total, limit), HasMore(Offset(page, limit), limit, total))
      && reply.value.items == PageRows(db.items, db.boxes, db.categories, user.value, NonEmpty(q.search), BoxFilter(q), page, limit)
  {
    if user.None? {
      return Failure(401, "Unauthorized");
    }
    var owner := user.value;
    var limit := QueryNumber(q.limit, LimitFallback).value;
    var page := QueryNumber(q.page, PageFallback).value;
    var offset := Offset(page, limit);
    var search := NonEmpty(q.search);

    var rows := OwnedItems(db.items, owner);
    KeepSame(db.items, ItemOwner(owner), Selection(owner, None, None));
    if search.Some? {
      KeepTwice(db.items, Selection(owner, None, None), SearchMatch(search.value), Selection(owner, search, None));
      rows := Keep(rows, SearchMatch(search.value));
    }
    var box: Option<int> := None;
    var boxText := NonEmpty(q.box_id);
    if boxText.Some? {
      var id := ParseInt(boxText.value);
      if id.None? {
        return Failure(500, "Failed to fetch items");
      }
      box := id;
      KeepTwice(db.items, Selection(owner, search, None), BoxMatch(id.value), Selection(owner, search, box));
      rows := Keep(rows, BoxMatch(id.value));
    }
    assert box == BoxFilter(q);
    assert rows == Keep(db.items, Selection(owner, search, box));
    var total := |OwnedItems(db.items, owner)|;
    OffsetNonNegative(page, limit);
    var listed := FlattenAll(Window(SortBy(rows, NewestFirst), offset, limit), db.boxes, db.categories);
    reply := Success(200, ItemsPage(listed, Pagination(page, limit, total, TotalPages(total, limit), HasMore(offset, limit, total))));
  }

  // ------------------------------------------------------------------- POST

  /** The JSON body of a POST. */
  datatype NewItem = NewItem(
    name: Field<string>,
    description: Field<string>,
    box_id: Field<int>,
    category_id: Field<int>,
    status: Field<string>,
    quantity: Field<int>,
    image_path: Field<string>,
    notes: Field<string>)

  /**
    POST /api/items: required name and box, a box and (when given) a category
    the caller owns, then an insert with defaults; the reply is the new row
    flattened like a listed one.
   */
  method Create(db: Database, user: Option<string>, body: NewItem, now: int) returns (reply: Reply<ListedItem>)
    requires db.Valid()
    modifies db`items, db`nextItemId
    ensures db.Valid()
    ensures user.None? ==> reply == Failure(401, "Unauthorized")
    ensures user.Some? && (!TextTruthy(body.name) || !NumTruthy(body.box_id)) ==>
      reply == Failure(400, "Name and box_id are required")
    ensures (&& user.Some? && TextTruthy(body.name) && NumTruthy(body.box_id)
             && !exists b :: b in db.boxes && b.id == body.box_id.value && b.user_id == user.value) ==>
      reply == Failure(400, "Invalid box ID")
    ensures (&& user.Some? && TextTruthy(body.name) && NumTruthy(body.box_id)
             && (exists b :: b in db.boxes && b.id == body.box_id.value && b.user_id == user.value)
             && NumTruthy(body.category_id)
             && !exists c :: c in db.categories && c.id == body.category_id.value && c.user_id == user.value) ==>
      reply == Failure(400, "Invalid category ID")
    ensures reply.Success? <==>
      && user.Some? && TextTruthy(body.name) && NumTruthy(body.box_id)
      && (exists b :: b in db.boxes && b.id == body.box_id.value && b.user_id == user.value)
      && (NumTruthy(body.category_id) ==> exists c :: c in db.categories && c.id == body.category_id.value && c.user_id == user.value)
    ensures reply.Failure? ==> db.items == old(db.items)
    ensures reply.Success? ==>
      var t := reply.value.item;
      && reply.status == 201
      && db.items == old(db.items) + [t]
      && (forall u :: u in old(db.items) ==> u.id < t.id)
      && t == Item(t.id, user.value, body.name.value, TextOrNull(body.description), body.box_id.value,
           NumOrNull(body.category_id), OrDefault(body.status, InBox), OrDefault(body.quantity, 1),
           TextOrNull(body.image_path), now, now, TextOrNull(body.notes))
      && reply.value == Flatten(t, db.boxes, db.categories)
  {
    if user.None? {
      return Failure(401, "Unauthorized");
    }
    var owner := user.value;
    if !TextTruthy(body.name) || !NumTruthy(body.box_id) {
      return Failure(400, "Name and box_id are required");
    }
    BoxFoundIffOwned(db, body.box_id.value, owner);
    if !BoxFound(db.boxes, body.box_id.value, owner) {
      return Failure(400, "Invalid box ID");
    }
    if NumTruthy(body.category_id) {
      CategoryFoundIffOwned(db, body.category_id.value, owner);
      if !CategoryFound(db.categories, body.category_id.value, owner) {
        return Failure(400, "Invalid category ID");
      }
    }
    var row := Item(0, owner, body.name.value, TextOrNull(body.description), body.box_id.value,
      NumOrNull(body.category_id), OrDefault(body.status, InBox), OrDefault(body.quantity, 1),
      TextOrNull(body.image_path), now, now, TextOrNull(body.notes));
    var item := db.InsertItem(row);
    reply := Success(201, Flatten(item, db.boxes, db.categories));
  }
}
