/**
  Array operations the handlers and views use: `filter` (order-preserving
  selection) and `order by` (sorting by a total preorder).
 */
module Sequences {

  // ----------------------------------------------------------------- filter

  /** `s.filter(p)`. */
  function Keep<T(!new)>(s: seq<T>, p: T -> bool): (r: seq<T>)
    ensures |r| <= |s|
    ensures forall x :: x in r <==> x in s && p(x)
  {
    if s == [] then []
    else if p(s[0]) then [s[0]] + Keep(s[1..], p)
    else Keep(s[1..], p)
  }

  /** `a` is `b` with some elements left out, the rest in the same order. */
  predicate IsSubsequence<T(==)>(a: seq<T>, b: seq<T>)
    decreases |b|
  {
    a == [] || (b != [] && ((a[0] == b[0] && IsSubsequence(a[1..], b[1..])) || IsSubsequence(a, b[1..])))
  }

  lemma {:induction false} KeepIsSubsequence<T(!new)>(s: seq<T>, p: T -> bool)
    ensures IsSubsequence(Keep(s, p), s)
  {
    if s != [] {
      KeepIsSubsequence(s[1..], p);
    }
  }

  /** Filtering with a predicate every element passes keeps everything. */
  lemma {:induction false} KeepAll<T(!new)>(s: seq<T>, p: T -> bool)
    requires forall x :: x in s ==> p(x)
    ensures Keep(s, p) == s
  {
    if s != [] {
      KeepAll(s[1..], p);
    }
  }

  /** Filters that agree on every element give the same result. */
  lemma {:induction false} KeepSame<T(!new)>(s: seq<T>, p: T -> bool, q: T -> bool)
    requires forall x :: x in s ==> p(x) == q(x)
    ensures Keep(s, p) == Keep(s, q)
  {
    if s != [] {
      KeepSame(s[1..], p, q);
    }
  }

  /** Two filters in a row are one filter by the conjunction. */
  lemma {:induction false} KeepTwice<T(!new)>(s: seq<T>, p: T -> bool, q: T -> bool, both: T -> bool)
    requires forall x :: x in s ==> both(x) == (p(x) && q(x))
    ensures Keep(Keep(s, p), q) == Keep(s, both)
  {
    if s != [] {
      KeepTwice(s[1..], p, q, both);
    }
  }

  /** Filtering with a predicate no element passes keeps nothing. */
  lemma {:induction false} KeepNone<T(!new)>(s: seq<T>, p: T -> bool)
    requires forall x :: x in s ==> !p(x)
    ensures Keep(s, p) == []
  {
    if s != [] {
      KeepNone(s[1..], p);
    }
  }

  /** Appended elements that all fail the filter are not kept. */
  lemma {:induction false} KeepAppendRejected<T(!new)>(s: seq<T>, t: seq<T>, p: T -> bool)
    requires forall x :: x in t ==> !p(x)
    ensures Keep(s + t, p) == Keep(s, p)
  {
    if s == [] {
      assert s + t == t;
      KeepNone(t, p);
    } else {
      assert (s + t)[1..] == s[1..] + t;
      KeepAppendRejected(s[1..], t, p);
    }
  }

  /** Filtering keeps an ordered sequence ordered. */
  lemma {:induction false} KeepSorted<T(!new)>(s: seq<T>, p: T -> bool, le: (T, T) -> bool)
    requires SortedBy(s, le)
    ensures SortedBy(Keep(s, p), le)
  {
    if s != [] {
      KeepSorted(s[1..], p, le);
      var rest := Keep(s[1..], p);
      if p(s[0]) {
        var r := [s[0]] + rest;
        forall i, j | 0 <= i < j < |r| ensures le(r[i], r[j]) {
          if i > 0 {
            assert r[i] == rest[i - 1] && r[j] == rest[j - 1];
          } else {
            assert r[j] in s[1..];
          }
        }
      }
    }
  }

  /** With no two passing elements in `s`, at most one element passes. */
  lemma {:induction false} CountAtMostOne<T(!new)>(s: seq<T>, p: T -> bool)
    requires forall i, j :: 0 <= i < j < |s| ==> !(p(s[i]) && p(s[j]))
    ensures Count(s, p) <= 1
  {
    if s != [] {
      CountAtMostOne(s[1..], p);
      if p(s[0]) {
        forall x | x in s[1..] ensures !p(x) {
          var j :| 0 <= j < |s[1..]| && s[1..][j] == x;
          assert !(p(s[0]) && p(s[j + 1]));
        }
        KeepNone(s[1..], p);
      }
    }
  }

  /** Number of elements of `s` that pass `p`. */
  function Count<T(!new)>(s: seq<T>, p: T -> bool): nat
  {
    |Keep(s, p)|
  }

  /** Elements passing one of two exclusive tests are at most all of them, and all of them when every element passes one. */
  lemma {:induction false} CountDisjoint<T(!new)>(s: seq<T>, p: T -> bool, q: T -> bool)
    requires forall x :: x in s ==> !(p(x) && q(x))
    ensures Count(s, p) + Count(s, q) <= |s|
    ensures (forall x :: x in s ==> p(x) || q(x)) ==> Count(s, p) + Count(s, q) == |s|
  {
    if s != [] {
      CountDisjoint(s[1..], p, q);
    }
  }

  // ---------------------------------------------------------- distinct values

  /** No value occurs twice. */
  predicate NoDuplicates<T(==)>(s: seq<T>)
  {
    forall i, j :: 0 <= i < j < |s| ==> s[i] != s[j]
  }

  /** `Array.from(new Set(s))`: each value once, where it first occurs. */
  function Distinct<T(==,!new)>(s: seq<T>): (r: seq<T>)
    ensures forall x :: x in r <==> x in s
    ensures NoDuplicates(r)
  {
    if s == [] then []
    else
      var d := Distinct(s[..|s| - 1]);
      if s[|s| - 1] in d then d else d + [s[|s| - 1]]
  }

  /** Without duplicates, every value occurs at most once in the multiset. */
  lemma {:induction false} NoDuplicatesCounts<T>(s: seq<T>)
    requires NoDuplicates(s)
    ensures forall x :: multiset(s)[x] <= 1
  {
    if s != [] {
      NoDuplicatesCounts(s[1..]);
      assert s == [s[0]] + s[1..];
      assert s[0] !in s[1..];
    }
  }

  /** A sequence whose multiset holds every value at most once has no duplicates. */
  lemma CountsNoDuplicates<T>(s: seq<T>)
    requires forall x :: multiset(s)[x] <= 1
    ensures NoDuplicates(s)
  {
    forall i, j | 0 <= i < j < |s| ensures s[i] != s[j] {
      assert s == s[..j] + s[j..];
      assert s[i] in s[..j] && s[j] in s[j..];
      assert multiset(s)[s[j]] == multiset(s[..j])[s[j]] + multiset(s[j..])[s[j]];
    }
  }

  // ---------------------------------------------------------------- sorting

  /** `le` orders every pair and is transitive: what an `order by` key gives. */
  ghost predicate TotalPreorder<T(!new)>(le: (T, T) -> bool)
  {
    && (forall a, b :: le(a, b) || le(b, a))
    && (forall a, b, c :: le(a, b) && le(b, c) ==> le(a, c))
  }

  predicate SortedBy<T>(s: seq<T>, le: (T, T) -> bool)
  {
    forall i, j :: 0 <= i < j < |s| ==> le(s[i], s[j])
  }

  /** Insert `x` before the first element it does not follow. */
  function Insert<T>(x: T, s: seq<T>, le: (T, T) -> bool): seq<T>
  {
    if s == [] || le(x, s[0]) then [x] + s else [s[0]] + Insert(x, s[1..], le)
  }

  /** Stable insertion sort: the order a database `order by` returns rows in. */
  function SortBy<T>(s: seq<T>, le: (T, T) -> bool): seq<T>
  {
    if s == [] then [] else Insert(s[0], SortBy(s[1..], le), le)
  }

  lemma {:induction false} InsertPermutes<T>(x: T, s: seq<T>, le: (T, T) -> bool)
    ensures multiset(Insert(x, s, le)) == multiset(s) + multiset{x}
  {
    if s != [] && !le(x, s[0]) {
      InsertPermutes(x, s[1..], le);
      assert s == [s[0]] + s[1..];
    }
  }

  /** Inserting adds `x` and keeps every element. */
  lemma {:induction false} InsertMembers<T>(x: T, s: seq<T>, le: (T, T) -> bool)
    ensures forall y :: y in Insert(x, s, le) <==> y == x || y in s
  {
    if s != [] && !le(x, s[0]) {
      InsertMembers(x, s[1..], le);
      assert s == [s[0]] + s[1..];
    }
  }

  /** A sorted sequence stays sorted with a first element that precedes all of it. */
  lemma PrependSorted<T>(h: T, s: seq<T>, le: (T, T) -> bool)
    requires SortedBy(s, le)
    requires forall y :: y in s ==> le(h, y)
    ensures SortedBy([h] + s, le)
  {
    var r := [h] + s;
    forall i, j | 0 <= i < j < |r| ensures le(r[i], r[j]) {
      if i > 0 {
        assert r[i] == s[i - 1] && r[j] == s[j - 1];
      } else {
        assert r[j] in s;
      }
    }
  }

  /** Whatever follows the head of a sorted sequence is ordered after an element the head follows. */
  lemma BeforeHead<T(!new)>(x: T, s: seq<T>, le: (T, T) -> bool)
    requires TotalPreorder(le)
    requires SortedBy(s, le)
    requires s != [] && le(x, s[0])
    ensures forall y :: y in s ==> le(x, y)
  {
    forall y | y in s ensures le(x, y) {
      var k :| 0 <= k < |s| && s[k] == y;
      if k > 0 {
        assert le(s[0], s[k]);
      }
    }
  }

  lemma {:induction false} InsertSorted<T(!new)>(x: T, s: seq<T>, le: (T, T) -> bool)
    requires TotalPreorder(le)
    requires SortedBy(s, le)
    ensures SortedBy(Insert(x, s, le), le)
  {
    if s == [] {
    } else if le(x, s[0]) {
      BeforeHead(x, s, le);
      PrependSorted(x, s, le);
    } else {
      var rest := Insert(x, s[1..], le);
      InsertSorted(x, s[1..], le);
      InsertMembers(x, s[1..], le);
      assert le(s[0], x);
      forall y | y in rest ensures le(s[0], y) {
        if y != x {
          var k :| 0 <= k < |s[1..]| && s[1..][k] == y;
          assert s[k + 1] == y;
        }
      }
      PrependSorted(s[0], rest, le);
    }
  }

  /** Sorting neither loses nor invents a row. */
  lemma {:induction false} SortByPermutes<T>(s: seq<T>, le: (T, T) -> bool)
    ensures multiset(SortBy(s, le)) == multiset(s)
    ensures |SortBy(s, le)| == |s|
  {
    if s != [] {
      SortByPermutes(s[1..], le);
      InsertPermutes(s[0], SortBy(s[1..], le), le);
      assert s == [s[0]] + s[1..];
    }
    assert |SortBy(s, le)| == |multiset(SortBy(s, le))|;
  }

  /** Sorting orders the rows and neither loses nor invents one. */
  lemma {:induction false} SortByCorrect<T(!new)>(s: seq<T>, le: (T, T) -> bool)
    requires TotalPreorder(le)
    ensures SortedBy(SortBy(s, le), le)
    ensures multiset(SortBy(s, le)) == multiset(s)
    ensures |SortBy(s, le)| == |s|
  {
    SortByPermutes(s, le);
    if s != [] {
      SortByCorrect(s[1..], le);
      InsertSorted(s[0], SortBy(s[1..], le), le);
    }
  }

  /** A sorted result holds exactly the rows it was sorted from. */
  lemma SortByMembers<T(!new)>(s: seq<T>, le: (T, T) -> bool, x: T)
    requires TotalPreorder(le)
    ensures x in SortBy(s, le) <==> x in s
  {
    SortByCorrect(s, le);
    assert x in SortBy(s, le) <==> x in multiset(SortBy(s, le));
  }

  /** Sorting a sequence without duplicates gives one without duplicates. */
  lemma SortByKeepsNoDuplicates<T(!new)>(s: seq<T>, le: (T, T) -> bool)
    requires TotalPreorder(le)
    requires NoDuplicates(s)
    ensures NoDuplicates(SortBy(s, le))
  {
    SortByCorrect(s, le);
    NoDuplicatesCounts(s);
    CountsNoDuplicates(SortBy(s, le));
  }
}
