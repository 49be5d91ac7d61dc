/** Python's `sorted()` on a list of ints, as insertion sort. */
module Sorting {

  predicate Sorted(s: seq<int>) {
    forall i, j :: 0 <= i < j < |s| ==> s[i] <= s[j]
  }

  /** `x` placed into `s` before the first element not below it. */
  function Insert(x: int, s: seq<int>): (r: seq<int>)
    ensures |r| == |s| + 1
  {
    if s == [] || x <= s[0] then [x] + s
    else [s[0]] + Insert(x, s[1..])
  }

  /** Prepending an element no greater than the head keeps a sequence sorted. */
  lemma SortedCons(h: int, t: seq<int>)
    requires Sorted(t) && (t == [] || h <= t[0])
    ensures Sorted([h] + t)
  {
    var r := [h] + t;
    forall i, j | 0 <= i < j < |r| ensures r[i] <= r[j] {
      assert r[j] == t[j - 1];
      if i == 0 {
        assert t[0] <= t[j - 1];
      } else {
        assert r[i] == t[i - 1];
      }
    }
  }

  /** The tail of a sorted sequence is sorted and no smaller than its head. */
  lemma SortedTail(s: seq<int>)
    requires Sorted(s) && s != []
    ensures Sorted(s[1..])
    ensures |s| > 1 ==> s[0] <= s[1]
  {
    var t := s[1..];
    forall i, j | 0 <= i < j < |t| ensures t[i] <= t[j] {
      assert t[i] == s[i + 1] && t[j] == s[j + 1];
    }
  }

  /** Insertion into a sorted sequence keeps it sorted; the new head is `x`
      when `x` goes first and the old head otherwise. */
  lemma {:induction false} InsertSorted(x: int, s: seq<int>)
    requires Sorted(s)
    ensures Sorted(Insert(x, s))
    ensures Insert(x, s)[0] == if s == [] || x <= s[0] then x else s[0]
  {
    if s == [] || x <= s[0] {
      SortedCons(x, s);
    } else {
      SortedTail(s);
      InsertSorted(x, s[1..]);
      SortedCons(s[0], Insert(x, s[1..]));
    }
  }

  /** Insertion adds exactly the one element. */
  lemma {:induction false} InsertPermutes(x: int, s: seq<int>)
    ensures multiset(Insert(x, s)) == multiset(s) + multiset{x}
  {
    if s != [] && x > s[0] {
      InsertPermutes(x, s[1..]);
      assert s == [s[0]] + s[1..];
      assert multiset(s) == multiset{s[0]} + multiset(s[1..]);
    }
  }

  /** `sorted(values)`: the same elements, in ascending order. */
  function Sort(s: seq<int>): (r: seq<int>)
    ensures Sorted(r)
    ensures multiset(r) == multiset(s)
    ensures |r| == |s|
  {
    if s == [] then []
    else
      var t := Sort(s[1..]);
      SortStep(s, t);
      Insert(s[0], t)
  }

  /** Inserting the head of `s` into a sorted permutation of its tail gives a
      sorted permutation of `s`. */
  lemma SortStep(s: seq<int>, t: seq<int>)
    requires s != [] && Sorted(t) && multiset(t) == multiset(s[1..])
    ensures Sorted(Insert(s[0], t))
    ensures multiset(Insert(s[0], t)) == multiset(s)
  {
    InsertSorted(s[0], t);
    InsertPermutes(s[0], t);
    assert s == [s[0]] + s[1..];
  }

  /** The first element of a sorted permutation is the least element, the last
      the greatest. */
  lemma SortEnds(s: seq<int>)
    requires |s| > 0
    ensures Sort(s)[0] in s && Sort(s)[|s| - 1] in s
    ensures forall i :: 0 <= i < |s| ==> Sort(s)[0] <= s[i] <= Sort(s)[|s| - 1]
  {
    var r := Sort(s);
    assert r[0] in multiset(r) && r[|s| - 1] in multiset(r);
    forall i | 0 <= i < |s| ensures r[0] <= s[i] <= r[|s| - 1] {
      assert s[i] in multiset(r);
      assert s[i] in r;
      var j :| 0 <= j < |r| && r[j] == s[i];
      assert r[0] <= r[j] <= r[|s| - 1];
    }
  }
}
