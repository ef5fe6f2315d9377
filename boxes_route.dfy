/** GET and POST of app/api/boxes/route.ts. */
module BoxesRoute {
  import opened Wrappers
  import opened Records
  import opened Sequences
  import opened Store

  const DefaultLocation: string := "Garage"

  /** The JSON body of a POST. */
  datatype NewBox = NewBox(
    box_number: Field<int>,
    label_text: Field<string>,
    description: Field<string>,
    location: Field<string>,
    image_path: Field<string>)

  /** `.order('box_number')`: ascending box number. */
  predicate NumberOrder(a: Box, b: Box)
  {
    a.box_number <= b.box_number
  }

  lemma NumberOrderIsTotal()
    ensures TotalPreorder(NumberOrder)
  {
  }

  /** GET /api/boxes: the caller's boxes by ascending number. */
  function List(boxes: seq<Box>, user: Option<string>): (r: Reply<seq<Box>>)
    ensures user.None? <==> r == Failure(401, "Unauthorized")
  {
    if user.None? then Failure(401, "Unauthorized")
    else Success(200, SortBy(OwnedBoxes(boxes, user.value), NumberOrder))
  }

  /** A listing holds every box of the caller, of nobody else, once each, in number order. */
  lemma ListIsOwnedAndOrdered(boxes: seq<Box>, user: string)
    ensures List(boxes, Some(user)).Success?
    ensures SortedBy(List(boxes, Some(user)).value, NumberOrder)
    ensures multiset(List(boxes, Some(user)).value) == multiset(OwnedBoxes(boxes, user))
    ensures forall b :: b in List(boxes, Some(user)).value <==> b in boxes && b.user_id == user
  {
    NumberOrderIsTotal();
    SortByCorrect(OwnedBoxes(boxes, user), NumberOrder);
    forall b ensures b in List(boxes, Some(user)).value <==> b in OwnedBoxes(boxes, user) {
      SortByMembers(OwnedBoxes(boxes, user), NumberOrder, b);
    }
  }

  predicate HasNumber(b: Box, user: string, n: int)
  {
    b.user_id == user && b.box_number == n
  }

  function NumberMatch(user: string, n: int): Box -> bool
  {
    (b: Box) => HasNumber(b, user, n)
  }

  /** The duplicate lookup: `.eq('user_id').eq('box_number').single()` yields a row only when exactly one matches. */
  predicate NumberTaken(boxes: seq<Box>, user: string, n: int)
  {
    Count(boxes, NumberMatch(user, n)) == 1
  }

  /** While numbers are unique per owner, the lookup finds a row exactly when the caller already uses the number. */
  lemma NumberTakenIffUsed(boxes: seq<Box>, user: string, n: int)
    requires BoxNumbersUnique(boxes)
    ensures NumberTaken(boxes, user, n) <==> exists b :: b in boxes && HasNumber(b, user, n)
  {
    var p := NumberMatch(user, n);
    CountAtMostOne(boxes, p);
    var hits := Keep(boxes, p);
    if exists b :: b in boxes && HasNumber(b, user, n) {
      var b :| b in boxes && HasNumber(b, user, n);
      assert b in hits;
    }
    if |hits| == 1 {
      assert hits[0] in hits;
    }
  }

  /**
    Boxes of other owners, however many and whatever their numbers, do not
    change whether a number counts as taken for the caller; in particular,
    with no box of the caller's, no number is taken.
   */
  lemma OtherOwnersDoNotBlock(boxes: seq<Box>, others: seq<Box>, user: string, n: int)
    requires forall b :: b in others ==> b.user_id != user
    ensures NumberTaken(boxes + others, user, n) == NumberTaken(boxes, user, n)
    ensures !NumberTaken(others, user, n)
  {
    KeepAppendRejected(boxes, others, NumberMatch(user, n));
    KeepNone(others, NumberMatch(user, n));
  }

  /** POST /api/boxes: a check-then-insert on the boxes table. */
  method Create(db: Database, user: Option<string>, body: NewBox, now: int) returns (reply: Reply<Box>)
    requires db.Valid() && BoxNumbersUnique(db.boxes)
    modifies db`boxes, db`nextBoxId
    ensures db.Valid() && BoxNumbersUnique(db.boxes)
    ensures user.None? ==> reply == Failure(401, "Unauthorized")
    ensures user.Some? && !NumTruthy(body.box_number) ==> reply == Failure(400, "Box number is required")
    ensures user.Some? && NumTruthy(body.box_number) && (exists b :: b in old(db.boxes) && HasNumber(b, user.value, body.box_number.value)) ==>
      reply == Failure(409, "Box number already exists")
    ensures reply.Success? <==>
      user.Some? && NumTruthy(body.box_number) && !(exists b :: b in old(db.boxes) && HasNumber(b, user.value, body.box_number.value))
    ensures reply.Failure? ==> db.boxes == old(db.boxes)
    ensures reply.Success? ==>
      && reply.status == 201
      && db.boxes == old(db.boxes) + [reply.value]
      && (forall b :: b in old(db.boxes) ==> b.id < reply.value.id)
      && reply.value == Box(reply.value.id, user.value, body.box_number.value, TextOrNull(body.label_text),
           TextOrNull(body.description), OrDefault(body.location, DefaultLocation), TextOrNull(body.image_path), None, now)
  {
    if user.None? {
      return Failure(401, "Unauthorized");
    }
    var owner := user.value;
    if !NumTruthy(body.box_number) {
      return Failure(400, "Box number is required");
    }
    var n := body.box_number.value;
    NumberTakenIffUsed(db.boxes, owner, n);
    if NumberTaken(db.boxes, owner, n) {
      return Failure(409, "Box number already exists");
    }
    var row := Box(0, owner, n, TextOrNull(body.label_text), TextOrNull(body.description),
      OrDefault(body.location, DefaultLocation), TextOrNull(body.image_path), None, now);
    var before := db.boxes;
    var box := db.InsertBox(row);
    forall i, j | 0 <= i < j < |db.boxes| && db.boxes[i].user_id == db.boxes[j].user_id
      ensures db.boxes[i].box_number != db.boxes[j].box_number
    {
      if j == |before| {
        assert db.boxes[i] in before;
      } else {
        assert db.boxes[i] == before[i] && db.boxes[j] == before[j];
      }
    }
    reply := Success(201, box);
  }
}
