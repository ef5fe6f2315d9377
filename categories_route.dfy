/** GET and POST of app/api/categories/route.ts. */
module CategoriesRoute {
  import opened Wrappers
  import opened Strings
  import opened Records
  import opened Sequences
  import opened Store

  const DefaultColor: string := "#3b82f6"

  /** One category the default-seeding procedure creates for a new owner. */
  datatype Preset = Preset(name: string, color: string)

  /** The JSON body of a POST. */
  datatype NewCategory = NewCategory(name: Field<string>, color: Field<string>)

  /** `.order('name')`, comparing names code point by code point. */
  predicate NameOrder(a: Category, b: Category)
  {
    LexLe(a.name, b.name)
  }

  lemma NameOrderIsTotal()
    ensures TotalPreorder(NameOrder)
  {
    forall a: Category, b: Category ensures NameOrder(a, b) || NameOrder(b, a) {
      LexLeTotal(a.name, b.name);
    }
    forall a: Category, b: Category, c: Category | NameOrder(a, b) && NameOrder(b, c) ensures NameOrder(a, c) {
      LexLeTransitive(a.name, b.name, c.name);
    }
  }

  /** The read that ends GET: the caller's categories by name. */
  function Listing(categories: seq<Category>, user: string): seq<Category>
  {
    SortBy(OwnedCategories(categories, user), NameOrder)
  }

  /** The listing holds every category of the caller, of nobody else, once each, in name order. */
  lemma ListingIsOwnedAndOrdered(categories: seq<Category>, user: string)
    ensures SortedBy(Listing(categories, user), NameOrder)
    ensures multiset(Listing(categories, user)) == multiset(OwnedCategories(categories, user))
    ensures forall c :: c in Listing(categories, user) <==> c in categories && c.user_id == user
  {
    NameOrderIsTotal();
    SortByCorrect(OwnedCategories(categories, user), NameOrder);
    forall c ensures c in Listing(categories, user) <==> c in OwnedCategories(categories, user) {
      SortByMembers(OwnedCategories(categories, user), NameOrder, c);
    }
  }

  /** `c` is the row seeding created from preset `p` for `owner`. */
  predicate Seeded(c: Category, owner: string, p: Preset, now: int)
  {
    c.user_id == owner && c.name == p.name && c.color == p.color && c.created_at == now
  }

  predicate PresetNamesDistinct(presets: seq<Preset>)
  {
    forall a, b :: 0 <= a < b < |presets| ==> presets[a].name != presets[b].name
  }

  /** Seeding an owner who has no categories with distinct names keeps names unique per owner. */
  lemma SeedingKeepsNamesUnique(start: seq<Category>, added: seq<Category>, owner: string, presets: seq<Preset>, now: int)
    requires CategoryNamesUnique(start)
    requires forall c :: c in start ==> c.user_id != owner
    requires |added| == |presets|
    requires forall m :: 0 <= m < |added| ==> Seeded(added[m], owner, presets[m], now)
    requires PresetNamesDistinct(presets)
    ensures CategoryNamesUnique(start + added)
  {
    var all := start + added;
    forall i, j | 0 <= i < j < |all|
      ensures all[i].user_id == all[j].user_id ==> all[i].name != all[j].name
    {
      if j < |start| {
        assert all[i] == start[i] && all[j] == start[j];
      } else if i < |start| {
        assert all[i] in start;
        assert all[j] == added[j - |start|];
        assert all[i].user_id != all[j].user_id;
      } else {
        assert all[i] == added[i - |start|] && all[j] == added[j - |start|];
      }
    }
  }

  /**
    GET /api/categories. An owner with no categories first gets the preset
    list inserted (the seeding procedure's contents are a parameter here);
    then the caller's categories are read by name.
   */
  method List(db: Database, user: Option<string>, presets: seq<Preset>, now: int) returns (reply: Reply<seq<Category>>)
    requires db.Valid()
    modifies db`categories, db`nextCategoryId
    ensures db.Valid()
    ensures user.None? ==> reply == Failure(401, "Unauthorized") && db.categories == old(db.categories)
    ensures user.Some? && OwnedCategories(old(db.categories), user.value) != [] ==> db.categories == old(db.categories)
    ensures user.Some? && OwnedCategories(old(db.categories), user.value) == [] ==>
      && |db.categories| == |old(db.categories)| + |presets|
      && db.categories[..|old(db.categories)|] == old(db.categories)
      && forall m :: 0 <= m < |presets| ==> Seeded(db.categories[|old(db.categories)| + m], user.value, presets[m], now)
    ensures CategoryNamesUnique(old(db.categories)) && PresetNamesDistinct(presets) ==> CategoryNamesUnique(db.categories)
    ensures user.Some? ==> reply == Success(200, Listing(db.categories, user.value))
  {
    if user.None? {
      return Failure(401, "Unauthorized");
    }
    var owner := user.value;
    if OwnedCategories(db.categories, owner) == [] {
      SeedPresets(db, owner, presets, now);
    }
    reply := Success(200, Listing(db.categories, owner));
  }

  /** The seeding procedure: one category per preset, appended in the presets' order. */
  method SeedPresets(db: Database, owner: string, presets: seq<Preset>, now: int)
    requires db.Valid()
    modifies db`categories, db`nextCategoryId
    ensures db.Valid()
    ensures |db.categories| == |old(db.categories)| + |presets|
    ensures db.categories[..|old(db.categories)|] == old(db.categories)
    ensures forall m :: 0 <= m < |presets| ==> Seeded(db.categories[|old(db.categories)| + m], owner, presets[m], now)
    ensures (&& CategoryNamesUnique(old(db.categories)) && PresetNamesDistinct(presets)
             && forall c :: c in old(db.categories) ==> c.user_id != owner) ==> CategoryNamesUnique(db.categories)
  {
    var start := db.categories;
    var k := 0;
    while k < |presets|
      invariant 0 <= k <= |presets|
      invariant db.Valid()
      invariant |db.categories| == |start| + k
      invariant db.categories[..|start|] == start
      invariant forall m :: 0 <= m < k ==> Seeded(db.categories[|start| + m], owner, presets[m], now)
    {
      var _ := db.InsertCategory(Category(0, owner, presets[k].name, presets[k].color, now));
      k := k + 1;
    }
    if CategoryNamesUnique(start) && PresetNamesDistinct(presets) && forall c :: c in start ==> c.user_id != owner {
      assert db.categories == start + db.categories[|start|..];
      SeedingKeepsNamesUnique(start, db.categories[|start|..], owner, presets, now);
    }
  }

  function NameMatch(user: string, name: string): Category -> bool
  {
    (c: Category) => c.user_id == user && c.name == name
  }

  /** The duplicate lookup: `.eq('user_id').eq('name').single()` yields a row only when exactly one matches. */
  predicate NameTaken(categories: seq<Category>, user: string, name: string)
  {
    Count(categories, NameMatch(user, name)) == 1
  }

  /** While names are unique per owner, the lookup finds a row exactly when the caller already uses the name. */
  lemma NameTakenIffUsed(categories: seq<Category>, user: string, name: string)
    requires CategoryNamesUnique(categories)
    ensures NameTaken(categories, user, name) <==> exists c :: c in categories && c.user_id == user && c.name == name
  {
    var p := NameMatch(user, name);
    CountAtMostOne(categories, p);
    var hits := Keep(categories, p);
    if exists c :: c in categories && c.user_id == user && c.name == name {
      var c :| c in categories && c.user_id == user && c.name == name;
      assert c in hits;
    }
    if |hits| == 1 {
      assert hits[0] in hits;
    }
  }

  /** POST /api/categories: a check-then-insert keyed by the trimmed name. */
  method Create(db: Database, user: Option<string>, body: NewCategory, now: int) returns (reply: Reply<Category>)
    requires db.Valid() && CategoryNamesUnique(db.categories)
    modifies db`categories, db`nextCategoryId
    ensures db.Valid() && CategoryNamesUnique(db.categories)
    ensures user.None? ==> reply == Failure(401, "Unauthorized")
    ensures user.Some? && (!body.name.Given? || IsBlank(body.name.value)) ==> reply == Failure(400, "Category name is required")
    ensures (&& user.Some? && body.name.Given? && !IsBlank(body.name.value)
             && exists c :: c in old(db.categories) && c.user_id == user.value && c.name == Trim(body.name.value)) ==>
      reply == Failure(400, "Category name already exists")
    ensures reply.Success? <==>
      && user.Some? && body.name.Given? && !IsBlank(body.name.value)
      && !(exists c :: c in old(db.categories) && c.user_id == user.value && c.name == Trim(body.name.value))
    ensures reply.Failure? ==> db.categories == old(db.categories)
    ensures reply.Success? ==>
      && reply.status == 201
      && db.categories == old(db.categories) + [reply.value]
      && (forall c :: c in old(db.categories) ==> c.id < reply.value.id)
      && reply.value == Category(reply.value.id, user.value, Trim(body.name.value), OrDefault(body.color, DefaultColor), now)
  {
    if user.None? {
      return Failure(401, "Unauthorized");
    }
    var owner := user.value;
    if body.name.Given? {
      TrimEmptyIffBlank(body.name.value);
    }
    if !TextTruthy(body.name) || Trim(body.name.value) == "" {
      return Failure(400, "Category name is required");
    }
    var name := Trim(body.name.value);
    NameTakenIffUsed(db.categories, owner, name);
    if NameTaken(db.categories, owner, name) {
      return Failure(400, "Category name already exists");
    }
    var before := db.categories;
    var category := db.InsertCategory(Category(0, owner, name, OrDefault(body.color, DefaultColor), now));
    AppendKeepsNamesUnique(before, category);
    reply := Success(201, category);
  }

  /** Appending a category whose name its owner does not use yet keeps names unique per owner. */
  lemma AppendKeepsNamesUnique(before: seq<Category>, added: Category)
    requires CategoryNamesUnique(before)
    requires !exists c :: c in before && c.user_id == added.user_id && c.name == added.name
    ensures CategoryNamesUnique(before + [added])
  {
    var all := before + [added];
    forall i, j | 0 <= i < j < |all| && all[i].user_id == all[j].user_id
      ensures all[i].name != all[j].name
    {
      if j == |before| {
        assert all[i] in before;
      } else {
        assert all[i] == before[i] && all[j] == before[j];
      }
    }
  }
}
