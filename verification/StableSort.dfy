/**
  Array.prototype.sort with a comparator: `before(a, b)` is "the comparator is
  negative on (a, b)".  Elements neither of which comes before the other keep
  their relative order, as the language guarantees.
*/
module StableSort {
  ghost predicate WeakOrder<T(!new)>(before: (T, T) -> bool) {
    && (forall a, b :: before(a, b) ==> !before(b, a))
    && (forall a, b, c :: !before(b, a) && !before(c, b) ==> !before(c, a))
  }

  ghost predicate Sorted<T>(s: seq<T>, before: (T, T) -> bool) {
    forall i, j :: 0 <= i < j < |s| ==> !before(s[j], s[i])
  }

  // x stood in front of every element of s, so it stays in front of its equals.
  function Insert<T>(x: T, s: seq<T>, before: (T, T) -> bool): seq<T> {
    if s == [] || !before(s[0], x) then [x] + s else [s[0]] + Insert(x, s[1..], before)
  }

  function Sort<T>(s: seq<T>, before: (T, T) -> bool): seq<T> {
    if s == [] then [] else Insert(s[0], Sort(s[1..], before), before)
  }

  lemma {:induction false} InsertKeeps<T>(x: T, s: seq<T>, before: (T, T) -> bool)
    ensures multiset(Insert(x, s, before)) == multiset{x} + multiset(s)
  {
    if s != [] && before(s[0], x) {
      InsertKeeps(x, s[1..], before);
      assert s == [s[0]] + s[1..];
    }
  }

  lemma {:induction false} InsertSorted<T(!new)>(x: T, s: seq<T>, before: (T, T) -> bool)
    requires WeakOrder(before) && Sorted(s, before)
    ensures Sorted(Insert(x, s, before), before)
  {
    if s == [] {
    } else if !before(s[0], x) {
      var r := [x] + s;
      forall j | 0 < j < |r| ensures !before(r[j], x) {
        if j > 1 { assert !before(s[j - 1], s[0]); }
      }
    } else {
      var t := Insert(x, s[1..], before);
      InsertSorted(x, s[1..], before);
      InsertKeeps(x, s[1..], before);
      forall j | 0 <= j < |t| ensures !before(t[j], s[0]) {
        assert t[j] in multiset(t);
        if t[j] != x {
          assert t[j] in s[1..];
        }
      }
    }
  }

  /** Sorting rearranges: nothing is lost, nothing is duplicated. */
  lemma {:induction false} SortKeeps<T>(s: seq<T>, before: (T, T) -> bool)
    ensures multiset(Sort(s, before)) == multiset(s)
    ensures |Sort(s, before)| == |s|
    ensures forall x :: x in Sort(s, before) <==> x in s
  {
    if s != [] {
      SortKeeps(s[1..], before);
      InsertKeeps(s[0], Sort(s[1..], before), before);
      assert s == [s[0]] + s[1..];
    }
    assert |multiset(Sort(s, before))| == |multiset(s)|;
    forall x ensures x in Sort(s, before) <==> x in s {
      assert x in multiset(Sort(s, before)) <==> x in multiset(s);
    }
  }

  lemma {:induction false} SortSorts<T(!new)>(s: seq<T>, before: (T, T) -> bool)
    requires WeakOrder(before)
    ensures Sorted(Sort(s, before), before)
  {
    if s != [] {
      SortSorts(s[1..], before);
      InsertSorted(s[0], Sort(s[1..], before), before);
    }
  }

  // The elements of s that come neither before nor after x, in order.
  ghost function Alike<T>(s: seq<T>, x: T, before: (T, T) -> bool): seq<T> {
    if s == [] then []
    else (if !before(s[0], x) && !before(x, s[0]) then [s[0]] else []) + Alike(s[1..], x, before)
  }

  lemma {:induction false} InsertIsStable<T(!new)>(y: T, s: seq<T>, x: T, before: (T, T) -> bool)
    requires WeakOrder(before)
    ensures Alike(Insert(y, s, before), x, before) == Alike([y] + s, x, before)
  {
    assert ([y] + s)[1..] == s;
    if s != [] && before(s[0], y) {
      var rest := s[1..];
      InsertIsStable(y, rest, x, before);
      assert ([y] + rest)[1..] == rest;
      assert Insert(y, s, before)[1..] == Insert(y, rest, before);
    }
  }

  /** Elements that are alike stay in the order they were in. */
  lemma {:induction false} SortIsStable<T(!new)>(s: seq<T>, x: T, before: (T, T) -> bool)
    requires WeakOrder(before)
    ensures Alike(Sort(s, before), x, before) == Alike(s, x, before)
  {
    if s != [] {
      SortIsStable(s[1..], x, before);
      InsertIsStable(s[0], Sort(s[1..], before), x, before);
      assert ([s[0]] + Sort(s[1..], before))[1..] == Sort(s[1..], before);
    }
  }
}
