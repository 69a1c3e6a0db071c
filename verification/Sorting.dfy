/** The stable sorts `ingest_batch` starts with (spikes/data-model/spike.rs). */
module Sorting {
  ghost predicate Ordering<T(!new)>(le: (T, T) -> bool) {
    && (forall x, y :: le(x, y) || le(y, x))
    && (forall x, y, z :: le(x, y) && le(y, z) ==> le(x, z))
  }

  predicate Sorted<T>(le: (T, T) -> bool, s: seq<T>) {
    forall i, j :: 0 <= i < j < |s| ==> le(s[i], s[j])
  }

  /** `x` goes after the last element that is not greater. */
  function Place<T>(le: (T, T) -> bool, s: seq<T>, x: T): seq<T> {
    if s == [] then [x]
    else if le(s[|s| - 1], x) then s + [x]
    else Place(le, s[..|s| - 1], x) + [s[|s| - 1]]
  }

  function Sort<T>(le: (T, T) -> bool, s: seq<T>): seq<T> {
    if s == [] then [] else Place(le, Sort(le, s[..|s| - 1]), s[|s| - 1])
  }

  lemma SortedSnoc<T(!new)>(le: (T, T) -> bool, s: seq<T>, x: T)
    requires Sorted(le, s) && forall i :: 0 <= i < |s| ==> le(s[i], x)
    ensures Sorted(le, s + [x])
  {
  }

  lemma AllBelow<T(!new)>(le: (T, T) -> bool, s: seq<T>, x: T)
    requires Ordering(le) && Sorted(le, s) && s != [] && le(s[|s| - 1], x)
    ensures forall i :: 0 <= i < |s| ==> le(s[i], x)
  {
    forall i | 0 <= i < |s|
      ensures le(s[i], x)
    {
      assert i == |s| - 1 || le(s[i], s[|s| - 1]);
    }
  }

  lemma {:induction false} PlaceKeeps<T(!new)>(le: (T, T) -> bool, s: seq<T>, x: T)
    ensures multiset(Place(le, s, x)) == multiset(s) + multiset{x}
  {
    if s != [] && !le(s[|s| - 1], x) {
      PlaceKeeps(le, s[..|s| - 1], x);
      assert s == s[..|s| - 1] + [s[|s| - 1]];
    }
  }

  lemma PlaceAmong<T(!new)>(le: (T, T) -> bool, s: seq<T>, x: T, last: T)
    requires (forall i :: 0 <= i < |s| ==> le(s[i], last)) && le(x, last)
    ensures forall i :: 0 <= i < |Place(le, s, x)| ==> le(Place(le, s, x)[i], last)
  {
    var r := Place(le, s, x);
    PlaceKeeps(le, s, x);
    forall i | 0 <= i < |r|
      ensures le(r[i], last)
    {
      assert r[i] in multiset(r);
      assert r[i] in s || r[i] == x;
    }
  }

  lemma {:induction false} PlaceSorts<T(!new)>(le: (T, T) -> bool, s: seq<T>, x: T)
    requires Ordering(le) && Sorted(le, s)
    ensures Sorted(le, Place(le, s, x))
  {
    if s == [] {
    } else if le(s[|s| - 1], x) {
      AllBelow(le, s, x);
      SortedSnoc(le, s, x);
    } else {
      var front, last := s[..|s| - 1], s[|s| - 1];
      PlaceSorts(le, front, x);
      PlaceAmong(le, front, x, last);
      SortedSnoc(le, Place(le, front, x), last);
    }
  }

  lemma OneMore<T(!new)>(s: seq<T>, front: seq<T>, last: T, sorted: seq<T>, placed: seq<T>)
    requires s == front + [last] && multiset(sorted) == multiset(front) && multiset(placed) == multiset(sorted) + multiset{last}
    ensures multiset(placed) == multiset(s)
  {
  }

  lemma {:induction false} SortKeeps<T(!new)>(le: (T, T) -> bool, s: seq<T>)
    ensures multiset(Sort(le, s)) == multiset(s)
  {
    if s == [] {
    } else {
      var front, last := s[..|s| - 1], s[|s| - 1];
      SortKeeps(le, front);
      PlaceKeeps(le, Sort(le, front), last);
      OneMore(s, front, last, Sort(le, front), Sort(le, s));
    }
  }

  lemma {:induction false} SortOrders<T(!new)>(le: (T, T) -> bool, s: seq<T>)
    requires Ordering(le)
    ensures Sorted(le, Sort(le, s))
  {
    if s == [] {
    } else {
      SortOrders(le, s[..|s| - 1]);
      PlaceSorts(le, Sort(le, s[..|s| - 1]), s[|s| - 1]);
    }
  }

  lemma SortSorts<T(!new)>(le: (T, T) -> bool, s: seq<T>)
    requires Ordering(le)
    ensures Sorted(le, Sort(le, s)) && multiset(Sort(le, s)) == multiset(s)
  {
    SortOrders(le, s);
    SortKeeps(le, s);
  }

  lemma SortKeepsLength<T(!new)>(le: (T, T) -> bool, s: seq<T>)
    ensures |Sort(le, s)| == |s|
  {
    SortKeeps(le, s);
    assert |multiset(Sort(le, s))| == |multiset(s)|;
  }
}
