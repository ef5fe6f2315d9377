/**
  The new-box form of app/boxes/add/page.tsx: it suggests the first box
  number missing from 1, 2, 3, ... and sends the form as a box-create body.
  The fields of `AddBoxView` are the page's React state.
 */
module AddBoxPage {
  import opened Wrappers
  import opened Strings
  import opened Records
  import opened Sequences
  import opened Storage
  import opened BoxesRoute

  /** `sort((a, b) => a - b)`: ascending numeric order. */
  predicate NumLe(a: int, b: int)
  {
    a <= b
  }

  lemma NumLeIsTotal()
    ensures TotalPreorder(NumLe)
  {
  }

  function BoxNumbers(boxes: seq<Box>): seq<int>
  {
    seq(|boxes|, i requires 0 <= i < |boxes| => boxes[i].box_number)
  }

  /**
    `next` is 1 plus the length of the longest prefix of `sorted` that reads
    1, 2, 3, ...: the first `next - 1` entries count up from 1, and the entry
    after them, if any, is not `next`.
   */
  predicate IsFirstGap(sorted: seq<int>, next: int)
  {
    && 1 <= next <= |sorted| + 1
    && (forall k :: 0 <= k < next - 1 ==> sorted[k] == k + 1)
    && (next - 1 < |sorted| ==> sorted[next - 1] != next)
  }

  /** At most one number is the first gap, so the scan's answer is determined. */
  lemma FirstGapUnique(sorted: seq<int>, a: int, b: int)
    requires IsFirstGap(sorted, a) && IsFirstGap(sorted, b)
    ensures a == b
  {
  }

  /** The scan of `fetchNextBoxNumber`: count up while the sorted numbers match. */
  method NextNumber(sorted: seq<int>) returns (next: int)
    ensures IsFirstGap(sorted, next)
  {
    next := 1;
    var i := 0;
    while i < |sorted|
      invariant 0 <= i <= |sorted|
      invariant next == i + 1
      invariant forall k :: 0 <= k < i ==> sorted[k] == k + 1
      decreases |sorted| - i
    {
      if sorted[i] != next {
        break;
      }
      next := next + 1;
      i := i + 1;
    }
  }

  /**
    When the numbers are distinct and positive, as one owner's box numbers
    are, the first gap of their sorted order is the least positive number not
    in use.
   */
  lemma LeastMissing(numbers: seq<int>, next: int)
    requires NoDuplicates(numbers)
    requires forall n :: n in numbers ==> n >= 1
    requires IsFirstGap(SortBy(numbers, NumLe), next)
    ensures next >= 1
    ensures next !in numbers
    ensures forall m :: 1 <= m < next ==> m in numbers
  {
    var sorted := SortBy(numbers, NumLe);
    forall x ensures x in sorted <==> x in numbers {
      SortByMembers(numbers, NumLe, x);
    }
    assert forall n :: n in sorted ==> n >= 1;
    SortedIncreasing(numbers, sorted);
    GapOfIncreasing(sorted, next);
  }

  /** Distinct numbers in ascending order strictly increase. */
  lemma SortedIncreasing(numbers: seq<int>, sorted: seq<int>)
    requires NoDuplicates(numbers)
    requires sorted == SortBy(numbers, NumLe)
    ensures forall i, j :: 0 <= i < j < |sorted| ==> sorted[i] < sorted[j]
  {
    NumLeIsTotal();
    SortByCorrect(numbers, NumLe);
    SortByKeepsNoDuplicates(numbers, NumLe);
    forall i, j | 0 <= i < j < |sorted| ensures sorted[i] < sorted[j] {
      assert NumLe(sorted[i], sorted[j]);
    }
  }

  /** In a strictly increasing sequence of positive numbers, the first gap is missing and every number below it is there. */
  lemma GapOfIncreasing(sorted: seq<int>, next: int)
    requires forall i, j :: 0 <= i < j < |sorted| ==> sorted[i] < sorted[j]
    requires forall n :: n in sorted ==> n >= 1
    requires IsFirstGap(sorted, next)
    ensures next !in sorted
    ensures forall m :: 1 <= m < next ==> m in sorted
  {
    forall k | 0 <= k < |sorted| ensures sorted[k] != next {
      if next - 1 < k {
        assert sorted[k] > sorted[next - 1];
        if next >= 2 {
          assert sorted[next - 2] == next - 1;
        } else {
          assert sorted[0] in sorted;
        }
      }
    }
    forall m | 1 <= m < next ensures m in sorted {
      assert sorted[m - 1] == m;
    }
  }

  /** With no boxes yet, the suggestion is 1. */
  lemma NoBoxesSuggestOne(next: int)
    requires IsFirstGap([], next)
    ensures next == 1
  {
  }

  // ------------------------------------------------------------------- form

  datatype BoxForm = BoxForm(
    box_number: string,
    label_text: string,
    description: string,
    location: string,
    image: Option<ImageFile>)

  /** The form before anything is typed: empty fields and the garage as location. */
  function InitialForm(): (f: BoxForm)
    ensures f.location == DefaultLocation && f.box_number == "" && f.image.None?
  {
    BoxForm("", "", "", DefaultLocation, None)
  }

  /** The body `handleSubmit` posts: the number through `parseInt` (NaN is sent as null), the texts as typed. */
  function Payload(form: BoxForm): NewBox
  {
    NewBox(JsonNumber(ParseInt(form.box_number)), Given(form.label_text), Given(form.description),
           Given(form.location), Absent)
  }

  /** A suggested number left as it is reaches the box route as that number, which passes its required-number check. */
  lemma SuggestionIsSent(form: BoxForm, n: int)
    requires n >= 1 && form.box_number == IntToString(n)
    ensures Payload(form).box_number == Given(n)
    ensures NumTruthy(Payload(form).box_number)
  {
    ParseIntOfIntToString(n);
  }

  /** What `fetch('/api/boxes')` gave: the boxes, a response that is not OK, or an exception. */
  datatype BoxesFetch = Fetched(boxes: seq<Box>) | NotOk | Threw

  class AddBoxView {
    var form: BoxForm
    var loadingBoxNumber: bool

    constructor()
      ensures form == InitialForm() && loadingBoxNumber
    {
      form := InitialForm();
      loadingBoxNumber := true;
    }

    /**
      `fetchNextBoxNumber`: on an OK response the box number field holds the
      printed first gap of the sorted numbers; after an exception it holds "1";
      after another response it is left as it was. Nothing else in the form changes.
     */
    method FetchNextBoxNumber(outcome: BoxesFetch)
      modifies this`form, this`loadingBoxNumber
      ensures !loadingBoxNumber
      ensures form == old(form).(box_number := form.box_number)
      ensures outcome.Fetched? ==>
        && ParseInt(form.box_number).Some?
        && form.box_number == IntToString(ParseInt(form.box_number).value)
        && IsFirstGap(SortBy(BoxNumbers(outcome.boxes), NumLe), ParseInt(form.box_number).value)
      ensures outcome.Threw? ==> form.box_number == "1"
      ensures outcome.NotOk? ==> form == old(form)
    {
      if outcome.Fetched? {
        var sorted := SortBy(BoxNumbers(outcome.boxes), NumLe);
        var next := NextNumber(sorted);
        form := form.(box_number := IntToString(next));
        ParseIntOfIntToString(next);
      } else if outcome.Threw? {
        form := form.(box_number := "1");
      }
      loadingBoxNumber := false;
    }
  }
}
