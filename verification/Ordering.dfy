/** Strict total orders, the ascending list of a finite set, and the sort the program calls. */
module Ordering {

  ghost predicate StrictTotalOrder<T(!new)>(less: (T, T) -> bool) {
    && (forall x :: !less(x, x))
    && (forall x, y, z :: less(x, y) && less(y, z) ==> less(x, z))
    && (forall x, y :: less(x, y) || x == y || less(y, x))
  }

  ghost predicate Ascending<T>(less: (T, T) -> bool, s: seq<T>) {
    forall i, j | 0 <= i < j < |s| :: less(s[i], s[j])
  }

  function Elements<T>(s: seq<T>): set<T> {
    set x | x in s
  }

  /** `s` lists exactly the elements of `elems`, each once, in ascending order. */
  ghost predicate Enumerates<T>(less: (T, T) -> bool, s: seq<T>, elems: set<T>) {
    Ascending(less, s) && Elements(s) == elems
  }

  lemma HeadIsLeast<T(!new)>(less: (T, T) -> bool, s: seq<T>, x: T)
    requires StrictTotalOrder(less) && Ascending(less, s) && x in s
    ensures x == s[0] || less(s[0], x)
  {
  }

  lemma EnumeratesTail<T(!new)>(less: (T, T) -> bool, s: seq<T>, elems: set<T>)
    requires StrictTotalOrder(less) && Enumerates(less, s, elems) && s != []
    ensures Enumerates(less, s[1..], elems - {s[0]})
  {
    assert s == [s[0]] + s[1..];
    forall x ensures x in Elements(s[1..]) <==> x in elems - {s[0]} {
      if x in s[1..] {
        var i :| 0 <= i < |s[1..]| && s[1..][i] == x;
        assert less(s[0], s[i + 1]);
        assert x in s;
      }
    }
    assert Elements(s[1..]) == elems - {s[0]};
  }

  /** A finite set has only one ascending list. */
  lemma {:induction false} EnumerationIsUnique<T(!new)>(less: (T, T) -> bool, s: seq<T>, t: seq<T>, elems: set<T>)
    requires StrictTotalOrder(less)
    requires Enumerates(less, s, elems) && Enumerates(less, t, elems)
    ensures s == t
  {
    assert s != [] ==> s[0] in Elements(s) && s[0] in t;
    assert t != [] ==> t[0] in Elements(t) && t[0] in s;
    if s != [] && t != [] {
      HeadIsLeast(less, s, t[0]);
      HeadIsLeast(less, t, s[0]);
      EnumeratesTail(less, s, elems);
      EnumeratesTail(less, t, elems);
      EnumerationIsUnique(less, s[1..], t[1..], elems - {s[0]});
      assert s == [s[0]] + s[1..] && t == [t[0]] + t[1..];
    }
  }

  lemma {:induction false} LeastElement<T(!new)>(less: (T, T) -> bool, elems: set<T>) returns (least: T)
    requires StrictTotalOrder(less) && elems != {}
    ensures least in elems && forall x | x in elems && x != least :: less(least, x)
    decreases |elems|
  {
    least :| least in elems;
    if elems != {least} {
      var rest := LeastElement(less, elems - {least});
      if less(rest, least) {
        least := rest;
      }
    }
  }

  lemma LeastElementExists<T(!new)>(less: (T, T) -> bool, elems: set<T>)
    requires StrictTotalOrder(less) && elems != {}
    ensures exists least :: least in elems && forall x | x in elems && x != least :: less(least, x)
  {
    var least := LeastElement(less, elems);
  }

  lemma EnumeratesCons<T(!new)>(less: (T, T) -> bool, least: T, rest: seq<T>, elems: set<T>)
    requires least in elems && forall x | x in elems && x != least :: less(least, x)
    requires Enumerates(less, rest, elems - {least})
    ensures Enumerates(less, [least] + rest, elems)
  {
    var s := [least] + rest;
    forall x ensures x in Elements(s) <==> x in elems {
      assert x in rest <==> x in Elements(rest);
    }
    forall i, j | 0 <= i < j < |s| ensures less(s[i], s[j]) {
      assert s[j] == rest[j - 1] && rest[j - 1] in Elements(rest);
    }
  }

  /** The ascending list of a finite set. */
  ghost function Enumerate<T(!new)>(less: (T, T) -> bool, elems: set<T>): (s: seq<T>)
    requires StrictTotalOrder(less)
    ensures Enumerates(less, s, elems)
    decreases |elems|
  {
    if elems == {} then [] else
      LeastElementExists(less, elems);
      var least :| least in elems && forall x | x in elems && x != least :: less(least, x);
      EnumeratesCons(less, least, Enumerate(less, elems - {least}), elems);
      [least] + Enumerate(less, elems - {least})
  }

  /** No element stands before a smaller one. */
  ghost predicate Sorted<T>(less: (T, T) -> bool, s: seq<T>) {
    forall i, j | 0 <= i < j < |s| :: !less(s[j], s[i])
  }

  ghost predicate StrictWeakOrder<T(!new)>(less: (T, T) -> bool) {
    && (forall x, y :: less(x, y) ==> !less(y, x))
    && (forall x, y, z :: !less(x, y) && !less(y, z) ==> !less(x, z))
  }

  lemma PermutationKeepsElements<T>(s: seq<T>, t: seq<T>)
    requires multiset(s) == multiset(t)
    ensures Elements(s) == Elements(t) && |s| == |t|
    ensures forall x :: x in s <==> x in t
  {
    assert forall x :: x in s <==> x in multiset(s);
    assert forall x :: x in t <==> x in multiset(t);
    assert |s| == |multiset(s)| && |t| == |multiset(t)|;
  }

  ghost predicate Distinct<T>(s: seq<T>) {
    forall i, j | 0 <= i < j < |s| :: s[i] != s[j]
  }

  lemma {:induction false} MultisetOfDistinct<T>(s: seq<T>)
    ensures Distinct(s) <==> forall x :: multiset(s)[x] <= 1
  {
    if s != [] {
      var front, last := s[..|s| - 1], s[|s| - 1];
      assert s == front + [last];
      MultisetOfDistinct(front);
      assert multiset(s) == multiset(front) + multiset{last};
      if Distinct(s) {
        assert Distinct(front);
        assert last !in front;
        assert last !in multiset(front);
        forall x ensures multiset(s)[x] <= 1 {
          assert multiset(front)[x] <= 1;
        }
      } else if Distinct(front) {
        var i, j :| 0 <= i < j < |s| && s[i] == s[j];
        assert forall k | 0 <= k < |front| :: front[k] == s[k];
        assert j == |s| - 1;
        assert front[i] == last;
        assert last in multiset(front);
        assert multiset(s)[last] >= 2;
      } else {
        var x :| multiset(front)[x] > 1;
        assert multiset(s)[x] > 1;
      }
    }
  }

  /** A sorted permutation of a list without repetitions is the ascending list of its elements. */
  lemma SortedDistinctEnumerates<T(!new)>(less: (T, T) -> bool, s: seq<T>, r: seq<T>)
    requires StrictTotalOrder(less) && Distinct(s)
    requires multiset(r) == multiset(s) && Sorted(less, r)
    ensures Enumerates(less, r, Elements(s))
  {
    PermutationKeepsElements(s, r);
    MultisetOfDistinct(s);
    MultisetOfDistinct(r);
  }

  /** Place one value into a sorted list. */
  method Insert<T(!new)>(less: (T, T) -> bool, s: seq<T>, x: T) returns (r: seq<T>)
    requires StrictWeakOrder(less) && Sorted(less, s)
    ensures Sorted(less, r) && multiset(r) == multiset(s) + multiset{x}
  {
    var i := 0;
    while i < |s| && !less(x, s[i])
      invariant 0 <= i <= |s|
      invariant forall j | 0 <= j < i :: !less(x, s[j])
    {
      i := i + 1;
    }
    r := s[..i] + [x] + s[i..];
    assert s == s[..i] + s[i..];
    if i < |s| {
      forall j | i <= j < |s| ensures !less(s[j], x) {
        assert i < j ==> !less(s[j], s[i]);
      }
    }
  }

  /** The library sort: some sorted permutation of its input. */
  method Sort<T(!new)>(less: (T, T) -> bool, s: seq<T>) returns (r: seq<T>)
    requires StrictWeakOrder(less)
    ensures Sorted(less, r) && multiset(r) == multiset(s)
  {
    r := [];
    for i := 0 to |s|
      invariant Sorted(less, r) && multiset(r) == multiset(s[..i])
    {
      assert s[..i + 1] == s[..i] + [s[i]];
      r := Insert(less, r, s[i]);
    }
    assert s[..|s|] == s;
  }

  /** Go's `<` on strings. */
  predicate StringLess(a: string, b: string) {
    b != [] && (a == [] || a[0] < b[0] || (a[0] == b[0] && StringLess(a[1..], b[1..])))
  }

  predicate IntLess(a: int, b: int) {
    a < b
  }

  lemma StringLessIrreflexive(a: string)
    ensures !StringLess(a, a)
  {
  }

  lemma {:induction false} StringLessTransitive(a: string, b: string, c: string)
    requires StringLess(a, b) && StringLess(b, c)
    ensures StringLess(a, c)
  {
    if a != [] && b != [] && a[0] == b[0] == c[0] {
      StringLessTransitive(a[1..], b[1..], c[1..]);
    }
  }

  lemma {:induction false} StringLessTotal(a: string, b: string)
    ensures StringLess(a, b) || a == b || StringLess(b, a)
  {
    if a != [] && b != [] && a[0] == b[0] {
      StringLessTotal(a[1..], b[1..]);
      assert a == [a[0]] + a[1..] && b == [b[0]] + b[1..];
    }
  }

  lemma StringOrder()
    ensures StrictTotalOrder(StringLess)
  {
    forall x: string ensures !StringLess(x, x) { StringLessIrreflexive(x); }
    forall x, y, z | StringLess(x, y) && StringLess(y, z) ensures StringLess(x, z) {
      StringLessTransitive(x, y, z);
    }
    forall x, y ensures StringLess(x, y) || x == y || StringLess(y, x) { StringLessTotal(x, y); }
  }

  lemma TotalOrderIsWeak<T(!new)>(less: (T, T) -> bool)
    requires StrictTotalOrder(less)
    ensures StrictWeakOrder(less)
  {
  }

  /** The duplicate-dropping scan followed by a sort that the program runs on ports, targets and SANs. */
  method Canonicalize<T(!new, ==)>(less: (T, T) -> bool, values: seq<T>) returns (r: seq<T>)
    requires StrictTotalOrder(less)
    ensures Enumerates(less, r, Elements(values))
    ensures r == Enumerate(less, Elements(values))
  {
    var result: seq<T> := [];
    var seen: set<T> := {};
    for i := 0 to |values|
      invariant seen == Elements(values[..i]) == Elements(result)
      invariant Distinct(result)
    {
      assert values[..i + 1] == values[..i] + [values[i]];
      if values[i] !in seen {
        seen := seen + {values[i]};
        assert forall j | 0 <= j < |result| :: result[j] in Elements(result);
        result := result + [values[i]];
      }
    }
    assert values[..|values|] == values;
    TotalOrderIsWeak(less);
    r := Sort(less, result);
    SortedDistinctEnumerates(less, result, r);
    EnumerationIsUnique(less, r, Enumerate(less, Elements(values)), Elements(values));
  }
}
