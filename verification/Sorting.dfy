/** A stable sort and the order on strings, with the one fact callers need:
    sorting gives the same sequence for every arrangement of the same elements. */
module Sorting {
  import opened Collections

  ghost predicate TotalPreorder<T(!new)>(leq: (T, T) -> bool) {
    && (forall x, y :: leq(x, y) || leq(y, x))
    && (forall x, y, z :: leq(x, y) && leq(y, z) ==> leq(x, z))
  }

  ghost predicate Sorted<T>(s: seq<T>, leq: (T, T) -> bool) {
    forall i, j :: 0 <= i < j < |s| ==> leq(s[i], s[j])
  }

  /** Elements that the order cannot tell apart are the same element. */
  ghost predicate Distinguishes<T>(s: seq<T>, leq: (T, T) -> bool) {
    forall x, y :: x in s && y in s && leq(x, y) && leq(y, x) ==> x == y
  }

  function Insert<T>(x: T, s: seq<T>, leq: (T, T) -> bool): seq<T> {
    if s == [] || leq(x, s[0]) then [x] + s else [s[0]] + Insert(x, s[1..], leq)
  }

  /** Insertion from the right keeps equal elements in their order. */
  function Sort<T>(s: seq<T>, leq: (T, T) -> bool): seq<T> {
    if s == [] then [] else Insert(s[0], Sort(s[1..], leq), leq)
  }

  lemma {:induction false} InsertPermutes<T>(x: T, s: seq<T>, leq: (T, T) -> bool)
    ensures multiset(Insert(x, s, leq)) == multiset{x} + multiset(s)
  {
    if s == [] || leq(x, s[0]) {
    } else {
      InsertPermutes(x, s[1..], leq);
      assert s == [s[0]] + s[1..];
    }
  }

  lemma {:induction false} InsertSorts<T(!new)>(x: T, s: seq<T>, leq: (T, T) -> bool)
    requires TotalPreorder(leq) && Sorted(s, leq)
    ensures Sorted(Insert(x, s, leq), leq)
  {
    if s == [] || leq(x, s[0]) {
    } else {
      InsertSorts(x, s[1..], leq);
      var r := Insert(x, s[1..], leq);
      InsertPermutes(x, s[1..], leq);
      forall j | 0 <= j < |r|
        ensures leq(s[0], r[j])
      {
        assert r[j] in multiset(r);
        assert r[j] == x || r[j] in s[1..];
      }
    }
  }

  /** Sort returns its elements, each as often as before, in order. */
  lemma {:induction false} SortSorts<T(!new)>(s: seq<T>, leq: (T, T) -> bool)
    requires TotalPreorder(leq)
    ensures Sorted(Sort(s, leq), leq) && multiset(Sort(s, leq)) == multiset(s)
    ensures |Sort(s, leq)| == |s|
  {
    if s != [] {
      SortSorts(s[1..], leq);
      InsertSorts(s[0], Sort(s[1..], leq), leq);
      InsertPermutes(s[0], Sort(s[1..], leq), leq);
      assert s == [s[0]] + s[1..];
    }
    assert |multiset(Sort(s, leq))| == |multiset(s)|;
  }

  lemma SameMembers<T>(a: seq<T>, b: seq<T>)
    requires multiset(a) == multiset(b)
    ensures |a| == |b| && forall x :: x in a <==> x in b
  {
    assert forall x :: x in a <==> x in multiset(a);
    assert forall x :: x in b <==> x in multiset(b);
    assert |multiset(a)| == |multiset(b)|;
  }

  lemma FirstsAgree<T>(a: seq<T>, b: seq<T>, leq: (T, T) -> bool)
    requires multiset(a) == multiset(b) && Sorted(a, leq) && Sorted(b, leq) && Distinguishes(a, leq) && a != []
    ensures b != [] && a[0] == b[0] && multiset(a[1..]) == multiset(b[1..])
  {
    SameMembers(a, b);
    assert a[0] in b && b[0] in a;
    assert a == [a[0]] + a[1..] && b == [a[0]] + b[1..];
    assert multiset(a) - multiset{a[0]} == multiset(a[1..]);
    assert multiset(b) - multiset{a[0]} == multiset(b[1..]);
  }

  /** There is only one way to put distinguishable elements in order. */
  lemma {:induction false} SortedIsUnique<T>(a: seq<T>, b: seq<T>, leq: (T, T) -> bool)
    requires multiset(a) == multiset(b) && Sorted(a, leq) && Sorted(b, leq) && Distinguishes(a, leq)
    ensures a == b
  {
    if a == [] {
      SameMembers(a, b);
    } else {
      FirstsAgree(a, b, leq);
      assert forall x :: x in a[1..] ==> x in a;
      SortedIsUnique(a[1..], b[1..], leq);
      assert a == [a[0]] + a[1..] && b == [b[0]] + b[1..];
    }
  }

  /** The sorted form depends only on what is sorted, not on the order it came in. */
  lemma SortIgnoresOrder<T(!new)>(a: seq<T>, b: seq<T>, leq: (T, T) -> bool)
    requires TotalPreorder(leq) && Distinguishes(a, leq) && multiset(a) == multiset(b)
    ensures Sort(a, leq) == Sort(b, leq)
  {
    SortSorts(a, leq);
    SortSorts(b, leq);
    SameMembers(a, Sort(a, leq));
    SortedIsUnique(Sort(a, leq), Sort(b, leq), leq);
  }

  /** Comparing sorted forms compares contents. */
  lemma SortDecides<T(!new)>(x: seq<T>, y: seq<T>, leq: (T, T) -> bool)
    requires TotalPreorder(leq) && Distinguishes(x, leq)
    ensures Sort(x, leq) == Sort(y, leq) <==> multiset(x) == multiset(y)
  {
    SortSorts(x, leq);
    SortSorts(y, leq);
    if multiset(x) == multiset(y) {
      SortIgnoresOrder(x, y, leq);
    }
  }

  // ---- Mapping ----

  function Map<T, U>(f: T -> U, s: seq<T>): (r: seq<U>)
    ensures |r| == |s| && forall k :: 0 <= k < |s| ==> r[k] == f(s[k])
  {
    seq(|s|, k requires 0 <= k < |s| => f(s[k]))
  }

  lemma MapRemove<T, U>(f: T -> U, s: seq<T>, k: nat)
    requires k < |s|
    ensures multiset(Map(f, s)) == multiset(Map(f, s[..k] + s[k + 1..])) + multiset{f(s[k])}
  {
    var m := Map(f, s);
    assert Map(f, s[..k] + s[k + 1..]) == m[..k] + m[k + 1..];
    RemoveAt(m, k);
  }

  lemma MapMissing<T, U>(f: T -> U, a: seq<T>, b: seq<T>)
    requires forall p, q :: p in a && q in b && f(p) == f(q) ==> p == q
    requires a != [] && a[0] !in b
    ensures multiset(Map(f, a)) != multiset(Map(f, b)) && multiset(a) != multiset(b)
  {
    assert a[0] in multiset(a) && a[0] !in multiset(b);
    assert Map(f, a)[0] in multiset(Map(f, a));
    assert f(a[0]) !in Map(f, b);
  }

  lemma MapCancels<T, U>(f: T -> U, a: seq<T>, b: seq<T>, j: nat, k: nat)
    requires j < |a| && k < |b| && a[j] == b[k]
    ensures var a', b' := a[..j] + a[j + 1..], b[..k] + b[k + 1..];
            && (multiset(a) == multiset(b) <==> multiset(a') == multiset(b'))
            && (multiset(Map(f, a)) == multiset(Map(f, b)) <==> multiset(Map(f, a')) == multiset(Map(f, b')))
  {
    MapRemove(f, a, j);
    MapRemove(f, b, k);
    RemoveAt(a, j);
    RemoveAt(b, k);
    var a', b' := a[..j] + a[j + 1..], b[..k] + b[k + 1..];
    Cancel(multiset(a'), multiset(b'), a[j]);
    Cancel(multiset(Map(f, a')), multiset(Map(f, b')), f(a[j]));
  }

  /** A map that tells the elements apart preserves and reflects multiset equality. */
  lemma {:induction false} MapDecides<T, U>(f: T -> U, a: seq<T>, b: seq<T>)
    requires forall p, q :: p in a && q in b && f(p) == f(q) ==> p == q
    ensures multiset(Map(f, a)) == multiset(Map(f, b)) <==> multiset(a) == multiset(b)
    decreases |a|
  {
    if a == [] {
      assert |multiset(Map(f, b))| == |b| && |multiset(b)| == |b|;
    } else if a[0] in b {
      var k :| 0 <= k < |b| && b[k] == a[0];
      MapCancels(f, a, b, 0, k);
      MapDecides(f, a[..0] + a[1..], b[..k] + b[k + 1..]);
    } else {
      MapMissing(f, a, b);
    }
  }

  // ---- Strings ----

  /** Lexicographic order. */
  predicate StringLeq(a: string, b: string) {
    a == [] || (b != [] && (a[0] < b[0] || (a[0] == b[0] && StringLeq(a[1..], b[1..]))))
  }

  lemma {:induction false} StringOrderTotal(a: string, b: string)
    ensures StringLeq(a, b) || StringLeq(b, a)
    ensures StringLeq(a, b) && StringLeq(b, a) ==> a == b
  {
    if a != [] && b != [] && a[0] == b[0] {
      StringOrderTotal(a[1..], b[1..]);
      assert a == [a[0]] + a[1..] && b == [b[0]] + b[1..];
    }
  }

  lemma {:induction false} StringOrderTransitive(a: string, b: string, c: string)
    requires StringLeq(a, b) && StringLeq(b, c)
    ensures StringLeq(a, c)
  {
    if a != [] && a[0] == b[0] && b[0] == c[0] {
      StringOrderTransitive(a[1..], b[1..], c[1..]);
    }
  }

  /** Strings are in dictionary order: one begins the other, or the first
      character in which they differ decides. */
  lemma {:induction false} DictionaryOrder(a: string, b: string)
    ensures StringLeq(a, b) <==>
              a <= b || exists k :: 0 <= k < |a| && k < |b| && a[..k] == b[..k] && a[k] < b[k]
  {
    forall k | 0 <= k < |a| && k < |b| && a[..k] == b[..k]
      ensures k == 0 || a[0] == b[0]
    {
      if k > 0 {
        assert a[..k][0] == a[0] && b[..k][0] == b[0];
      }
    }
    if a != [] && b != [] && a[0] == b[0] {
      var x, y := a[1..], b[1..];
      DictionaryOrder(x, y);
      assert a == [a[0]] + x && b == [a[0]] + y;
      if k :| 0 <= k < |x| && k < |y| && x[..k] == y[..k] && x[k] < y[k] {
        assert a[..k + 1] == [a[0]] + x[..k] && b[..k + 1] == [a[0]] + y[..k] && a[k + 1] < b[k + 1];
      }
      if k :| 0 <= k < |a| && k < |b| && a[..k] == b[..k] && a[k] < b[k] {
        assert x[..k - 1] == a[..k][1..] && y[..k - 1] == b[..k][1..] && x[k - 1] < y[k - 1];
      }
    } else if a != [] && b != [] && a[0] < b[0] {
      assert a[..0] == b[..0];
    }
  }

  lemma StringOrder()
    ensures TotalPreorder(StringLeq)
    ensures forall s: seq<string> :: Distinguishes(s, StringLeq)
  {
    forall a: string, b: string
      ensures StringLeq(a, b) || StringLeq(b, a)
      ensures StringLeq(a, b) && StringLeq(b, a) ==> a == b
    {
      StringOrderTotal(a, b);
    }
    forall a: string, b: string, c: string | StringLeq(a, b) && StringLeq(b, c)
      ensures StringLeq(a, c)
    {
      StringOrderTransitive(a, b, c);
    }
  }

  /** Sorted string lists are equal exactly when the lists have the same strings, each as often. */
  lemma StringSortDecides(x: seq<string>, y: seq<string>)
    ensures Sort(x, StringLeq) == Sort(y, StringLeq) <==> multiset(x) == multiset(y)
  {
    StringOrder();
    assert Distinguishes(x, StringLeq);
    SortDecides(x, y, StringLeq);
  }
}
