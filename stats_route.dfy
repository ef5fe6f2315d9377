/** GET of app/api/stats/route.ts: counts over the caller's boxes and items. */
module StatsRoute {
  import opened Wrappers
  import opened Records
  import opened Sequences
  import opened Store

  datatype Stats = Stats(totalBoxes: nat, totalItems: nat, itemsInBox: nat, itemsOutOfBox: nat)

  function StatusIs(status: string): Item -> bool
  {
    (t: Item) => t.status == status
  }

  /** GET /api/stats; either query failing is thrown and becomes a 500. */
  function Get(boxes: seq<Box>, items: seq<Item>, user: Option<string>, boxesFail: bool, itemsFail: bool): (r: Reply<Stats>)
    ensures user.None? ==> r == Failure(401, "Unauthorized")
    ensures user.Some? && (boxesFail || itemsFail) ==> r == Failure(500, "Failed to fetch stats")
    ensures r.Success? <==> user.Some? && !boxesFail && !itemsFail
  {
    if user.None? then Failure(401, "Unauthorized")
    else if boxesFail || itemsFail then Failure(500, "Failed to fetch stats")
    else
      var mine := OwnedItems(items, user.value);
      Success(200, Stats(|OwnedBoxes(boxes, user.value)|, |mine|, Count(mine, StatusIs(InBox)), Count(mine, StatusIs(OutOfBox))))
  }

  /**
    The figures describe the caller's rows only: in-box and out-of-box items
    never add up to more than all items, and exactly to all of them when every
    status is one of the two.
   */
  lemma StatsAddUp(boxes: seq<Box>, items: seq<Item>, user: string)
    ensures var s := Get(boxes, items, Some(user), false, false).value;
      && s.totalBoxes == Count(boxes, BoxOwner(user))
      && s.totalItems == Count(items, ItemOwner(user))
      && s.itemsInBox + s.itemsOutOfBox <= s.totalItems
      && ((forall t :: t in items && t.user_id == user ==> t.status == InBox || t.status == OutOfBox) ==>
            s.itemsInBox + s.itemsOutOfBox == s.totalItems)
  {
    CountDisjoint(OwnedItems(items, user), StatusIs(InBox), StatusIs(OutOfBox));
  }

  /** Rows of other owners, however many, never change the caller's figures. */
  lemma StatsIgnoreOthers(boxes: seq<Box>, items: seq<Item>, user: string, otherBoxes: seq<Box>, otherItems: seq<Item>)
    requires forall b :: b in otherBoxes ==> b.user_id != user
    requires forall t :: t in otherItems ==> t.user_id != user
    ensures Get(boxes + otherBoxes, items + otherItems, Some(user), false, false) == Get(boxes, items, Some(user), false, false)
  {
    KeepAppendRejected(boxes, otherBoxes, BoxOwner(user));
    KeepAppendRejected(items, otherItems, ItemOwner(user));
  }
}
