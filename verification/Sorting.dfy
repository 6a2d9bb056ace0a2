/** Stable sorting by a total preorder, filtering, and the order of strings. */
module Sorting {

  ghost predicate TotalPreorder<T(!new)>(leq: (T, T) -> bool) {
    && (forall x, y :: leq(x, y) || leq(y, x))
    && (forall x, y, z :: leq(x, y) && leq(y, z) ==> leq(x, z))
  }

  predicate IntLeq(a: int, b: int) {
    a <= b
  }

  ghost predicate Ordered<T>(xs: seq<T>, leq: (T, T) -> bool) {
    forall i, j :: 0 <= i < j < |xs| ==> leq(xs[i], xs[j])
  }

  function Insert<T>(x: T, xs: seq<T>, leq: (T, T) -> bool): (r: seq<T>)
    ensures multiset(r) == multiset{x} + multiset(xs)
  {
    if xs == [] || leq(x, xs[0]) then
      assert [x] + xs == [x] + xs[..];
      [x] + xs
    else
      assert xs == [xs[0]] + xs[1..];
      [xs[0]] + Insert(x, xs[1..], leq)
  }

  /** `sorted(xs)`: equal elements keep the order they came in. */
  function Sort<T>(xs: seq<T>, leq: (T, T) -> bool): (r: seq<T>)
    ensures multiset(r) == multiset(xs)
  {
    if xs == [] then []
    else
      assert xs == [xs[0]] + xs[1..];
      Insert(xs[0], Sort(xs[1..], leq), leq)
  }

  lemma Associate<T>(a: seq<T>, b: seq<T>, c: seq<T>)
    ensures a + b + c == a + (b + c)
  {
  }

  lemma SortMembers<T(!new)>(xs: seq<T>, leq: (T, T) -> bool)
    ensures |Sort(xs, leq)| == |xs|
    ensures forall x :: x in Sort(xs, leq) <==> x in xs
  {
    var r := Sort(xs, leq);
    assert |r| == |multiset(r)| && |xs| == |multiset(xs)|;
    forall x
      ensures x in r <==> x in xs
    {
      assert x in r <==> x in multiset(r);
      assert x in xs <==> x in multiset(xs);
    }
  }

  lemma InsertMember<T>(x: T, xs: seq<T>, leq: (T, T) -> bool, y: T)
    requires y in Insert(x, xs, leq)
    ensures y == x || y in xs
  {
    assert y in multiset(Insert(x, xs, leq));
  }

  lemma OrderedCons<T>(x: T, xs: seq<T>, leq: (T, T) -> bool)
    requires Ordered(xs, leq) && forall y :: y in xs ==> leq(x, y)
    ensures Ordered([x] + xs, leq)
  {
  }

  lemma {:induction false} InsertOrdered<T(!new)>(x: T, xs: seq<T>, leq: (T, T) -> bool)
    requires TotalPreorder(leq) && Ordered(xs, leq)
    ensures Ordered(Insert(x, xs, leq), leq)
  {
    if xs == [] {
    } else if leq(x, xs[0]) {
      assert forall y :: y in xs ==> leq(xs[0], y);
      OrderedCons(x, xs, leq);
    } else {
      InsertOrdered(x, xs[1..], leq);
      forall y | y in Insert(x, xs[1..], leq)
        ensures leq(xs[0], y)
      {
        InsertMember(x, xs[1..], leq, y);
      }
      OrderedCons(xs[0], Insert(x, xs[1..], leq), leq);
    }
  }

  lemma {:induction false} SortOrdered<T(!new)>(xs: seq<T>, leq: (T, T) -> bool)
    requires TotalPreorder(leq)
    ensures Ordered(Sort(xs, leq), leq)
  {
    if xs == [] {
    } else {
      SortOrdered(xs[1..], leq);
      InsertOrdered(xs[0], Sort(xs[1..], leq), leq);
    }
  }

  lemma {:induction false} SortFixesOrdered<T(!new)>(xs: seq<T>, leq: (T, T) -> bool)
    requires Ordered(xs, leq)
    ensures Sort(xs, leq) == xs
  {
    if xs == [] {
    } else {
      SortFixesOrdered(xs[1..], leq);
    }
  }

  ghost predicate NoDuplicates<T>(xs: seq<T>) {
    forall i, j :: 0 <= i < j < |xs| ==> xs[i] != xs[j]
  }

  lemma NoDuplicatesConcat<T>(a: seq<T>, b: seq<T>)
    requires NoDuplicates(a) && NoDuplicates(b) && forall x :: x in a ==> x !in b
    ensures NoDuplicates(a + b)
  {
    forall i, j | 0 <= i < j < |a + b|
      ensures (a + b)[i] != (a + b)[j]
    {
      if i < |a| <= j {
        assert a[i] in a && b[j - |a|] in b;
      }
    }
  }

  lemma {:induction false} InsertNoDuplicates<T(!new)>(x: T, xs: seq<T>, leq: (T, T) -> bool)
    requires NoDuplicates(xs) && x !in xs
    ensures NoDuplicates(Insert(x, xs, leq))
    ensures forall y :: y in Insert(x, xs, leq) <==> y == x || y in xs
  {
    if xs == [] || leq(x, xs[0]) {
    } else {
      InsertNoDuplicates(x, xs[1..], leq);
      assert xs == [xs[0]] + xs[1..];
      assert xs[0] in xs && xs[0] !in xs[1..];
    }
  }

  lemma {:induction false} SortNoDuplicates<T(!new)>(xs: seq<T>, leq: (T, T) -> bool)
    requires NoDuplicates(xs)
    ensures NoDuplicates(Sort(xs, leq))
  {
    if xs == [] {
    } else {
      SortNoDuplicates(xs[1..], leq);
      SortMembers(xs[1..], leq);
      InsertNoDuplicates(xs[0], Sort(xs[1..], leq), leq);
    }
  }

  /** The first occurrence of every element. */
  function Distinct<T(==)>(xs: seq<T>): seq<T> {
    if xs == [] then []
    else
      var init := Distinct(xs[..|xs| - 1]);
      if xs[|xs| - 1] in init then init else init + [xs[|xs| - 1]]
  }

  lemma {:induction false} DistinctMeaning<T(!new)>(xs: seq<T>)
    ensures NoDuplicates(Distinct(xs))
    ensures forall x :: x in Distinct(xs) <==> x in xs
  {
    if xs == [] {
    } else {
      DistinctMeaning(xs[..|xs| - 1]);
      assert forall x :: x in xs <==> x in xs[..|xs| - 1] || x == xs[|xs| - 1];
    }
  }

  // ---- Filtering ----

  function Keep<T>(xs: seq<T>, p: T -> bool): seq<T> {
    if xs == [] then []
    else if p(xs[0]) then [xs[0]] + Keep(xs[1..], p)
    else Keep(xs[1..], p)
  }

  lemma KeepNothing<T>(p: T -> bool)
    ensures Keep([], p) == []
  {
  }

  lemma KeepSnoc<T>(xs: seq<T>, x: T, p: T -> bool)
    ensures Keep(xs + [x], p) == if p(x) then Keep(xs, p) + [x] else Keep(xs, p)
  {
    KeepAppend(xs, [x], p);
    KeepCons(x, [], p);
    assert [x] + [] == [x];
  }

  lemma {:induction false} KeepMember<T>(xs: seq<T>, p: T -> bool, x: T)
    ensures x in Keep(xs, p) <==> x in xs && p(x)
  {
    if xs == [] {
    } else {
      KeepMember(xs[1..], p, x);
    }
  }

  lemma {:induction false} KeepAppend<T>(a: seq<T>, b: seq<T>, p: T -> bool)
    ensures Keep(a + b, p) == Keep(a, p) + Keep(b, p)
  {
    if a == [] {
      assert a + b == b;
    } else {
      KeepAppend(a[1..], b, p);
      assert (a + b)[1..] == a[1..] + b;
    }
  }

  /** The positions of the elements with the property. */
  ghost function Where<T>(xs: seq<T>, p: T -> bool): set<int> {
    set i | 0 <= i < |xs| && p(xs[i])
  }

  lemma WhereNone<T>(p: T -> bool)
    ensures Where([], p) == {}
  {
  }

  lemma WhereSnoc<T>(xs: seq<T>, x: T, p: T -> bool)
    ensures |Where(xs + [x], p)| == |Where(xs, p)| + if p(x) then 1 else 0
  {
    var all, n := xs + [x], |xs|;
    assert forall i :: 0 <= i < n ==> all[i] == xs[i];
    assert n !in Where(xs, p);
    assert Where(all, p) == if p(x) then Where(xs, p) + {n} else Where(xs, p);
  }

  lemma KeepCons<T>(x: T, xs: seq<T>, p: T -> bool)
    ensures Keep([x] + xs, p) == if p(x) then [x] + Keep(xs, p) else Keep(xs, p)
  {
    assert ([x] + xs)[1..] == xs;
  }

  lemma {:induction false} KeepRange<T>(xs: seq<T>, p: T -> bool, a: nat, b: nat)
    requires a <= b <= |xs| && forall i :: 0 <= i < |xs| ==> (p(xs[i]) <==> a <= i < b)
    ensures Keep(xs, p) == xs[a..b]
  {
    if xs == [] {
    } else {
      var rest := xs[1..];
      var a', b' := if a > 0 then a - 1 else 0, if b > 0 then b - 1 else 0;
      assert forall i :: 0 <= i < |rest| ==> rest[i] == xs[i + 1];
      KeepRange(rest, p, a', b');
      assert xs[a..b] == if a == 0 < b then [xs[0]] + rest[a'..b'] else rest[a'..b'];
    }
  }

  lemma {:induction false} KeepInsert<T(!new)>(x: T, xs: seq<T>, leq: (T, T) -> bool, p: T -> bool)
    requires TotalPreorder(leq) && Ordered(xs, leq)
    ensures Keep(Insert(x, xs, leq), p) == if p(x) then Insert(x, Keep(xs, p), leq) else Keep(xs, p)
  {
    if xs == [] || leq(x, xs[0]) {
      KeepCons(x, xs, p);
      if p(x) && Keep(xs, p) != [] {
        KeepMember(xs, p, Keep(xs, p)[0]);
      }
    } else {
      KeepCons(xs[0], Insert(x, xs[1..], leq), p);
      KeepInsert(x, xs[1..], leq, p);
      if p(xs[0]) {
        assert Keep(xs, p)[1..] == Keep(xs[1..], p);
      }
    }
  }

  /** Sorting and then filtering is filtering and then sorting. */
  lemma {:induction false} KeepSort<T(!new)>(xs: seq<T>, leq: (T, T) -> bool, p: T -> bool)
    requires TotalPreorder(leq)
    ensures Keep(Sort(xs, leq), p) == Sort(Keep(xs, p), leq)
  {
    if xs == [] {
    } else {
      KeepSort(xs[1..], leq, p);
      SortOrdered(xs[1..], leq);
      KeepInsert(xs[0], Sort(xs[1..], leq), leq, p);
      if p(xs[0]) {
        assert Keep(xs, p)[1..] == Keep(xs[1..], p);
      }
    }
  }

  // ---- Strictly ordered sequences are determined by their elements ----

  ghost predicate StrictlyOrdered<T>(xs: seq<T>, leq: (T, T) -> bool) {
    forall i, j :: 0 <= i < j < |xs| ==> leq(xs[i], xs[j]) && !leq(xs[j], xs[i])
  }

  lemma HasMember<T>(xs: seq<T>)
    ensures xs == [] || exists x :: x in xs
  {
    if xs != [] {
      assert xs[0] in xs;
    }
  }

  lemma {:induction false} SameElementsSameSequence<T(!new)>(a: seq<T>, b: seq<T>, leq: (T, T) -> bool)
    requires StrictlyOrdered(a, leq) && StrictlyOrdered(b, leq)
    requires forall x :: x in a <==> x in b
    ensures a == b
  {
    if a == [] || b == [] {
      HasMember(a);
      HasMember(b);
    } else {
      assert a[0] in b;
      assert b[0] in a;
      assert a[0] == b[0];
      forall x
        ensures x in a[1..] <==> x in b[1..]
      {
        if x in a[1..] {
          var i :| 0 < i < |a| && a[i] == x;
          assert x in b && x != b[0];
        }
        if x in b[1..] {
          var i :| 0 < i < |b| && b[i] == x;
          assert x in a && x != a[0];
        }
      }
      SameElementsSameSequence(a[1..], b[1..], leq);
    }
  }

  // ---- The order of strings ----

  predicate LexLeq(a: string, b: string) {
    a == "" || (b != "" && (a[0] < b[0] || (a[0] == b[0] && LexLeq(a[1..], b[1..]))))
  }

  lemma {:induction false} LexTotal(a: string, b: string)
    ensures LexLeq(a, b) || LexLeq(b, a)
    ensures LexLeq(a, b) && LexLeq(b, a) ==> a == b
  {
    if a == "" || b == "" || a[0] != b[0] {
    } else {
      LexTotal(a[1..], b[1..]);
      assert a == [a[0]] + a[1..];
      assert b == [b[0]] + b[1..];
    }
  }

  lemma {:induction false} LexTransitive(a: string, b: string, c: string)
    requires LexLeq(a, b) && LexLeq(b, c)
    ensures LexLeq(a, c)
  {
    if a == "" || a[0] != b[0] || b[0] != c[0] {
    } else {
      LexTransitive(a[1..], b[1..], c[1..]);
    }
  }

  lemma LexIsTotalOrder()
    ensures forall a, b :: LexLeq(a, b) || LexLeq(b, a)
    ensures forall a, b :: LexLeq(a, b) && LexLeq(b, a) ==> a == b
    ensures forall a, b, c :: LexLeq(a, b) && LexLeq(b, c) ==> LexLeq(a, c)
  {
    forall a, b
      ensures LexLeq(a, b) || LexLeq(b, a)
      ensures LexLeq(a, b) && LexLeq(b, a) ==> a == b
    {
      LexTotal(a, b);
    }
    forall a, b, c | LexLeq(a, b) && LexLeq(b, c)
      ensures LexLeq(a, c)
    {
      LexTransitive(a, b, c);
    }
  }

  /** `a` is the smaller one where the two first differ. */
  ghost predicate SmallerAt(a: string, b: string, i: int) {
    0 <= i < |a| && i < |b| && a[i] < b[i] && forall j :: 0 <= j < i ==> a[j] == b[j]
  }

  /** `a` comes before `b` in a dictionary: it is the beginning of `b`, or smaller where they first differ. */
  lemma {:induction false} LexMeaning(a: string, b: string)
    ensures LexLeq(a, b) <==> a <= b || exists i :: SmallerAt(a, b, i)
  {
    if a == "" || b == "" {
    } else {
      var x, y := a[1..], b[1..];
      assert a == [a[0]] + x && b == [b[0]] + y;
      if a[0] == b[0] {
        LexMeaning(x, y);
        assert a <= b <==> x <= y;
        if i :| SmallerAt(x, y, i) {
          assert SmallerAt(a, b, i + 1);
        }
        if i :| SmallerAt(a, b, i) {
          assert SmallerAt(x, y, i - 1);
        }
      } else if a[0] < b[0] {
        assert SmallerAt(a, b, 0);
      }
    }
  }
}
