/** `Array.prototype.sort` with a comparator. ECMAScript fixes the result: the array is sorted and
    elements that compare equal keep their order, which determines the output. Insertion from the
    back is the shortest definition with that property. */
module Sorting {
  import opened Prelude

  ghost predicate TotalPreorder<T(!new)>(le: (T, T) -> bool) {
    && (forall x, y :: le(x, y) || le(y, x))
    && (forall x, y, z :: le(x, y) && le(y, z) ==> le(x, z))
  }

  ghost predicate Sorted<T>(le: (T, T) -> bool, s: seq<T>) {
    forall i, j :: 0 <= i < j < |s| ==> le(s[i], s[j])
  }

  function Insert<T>(le: (T, T) -> bool, x: T, s: seq<T>): (r: seq<T>)
    ensures multiset(r) == multiset{x} + multiset(s)
  {
    if s == [] || le(x, s[0]) then [x] + s
    else
      assert s == [s[0]] + s[1..];
      [s[0]] + Insert(le, x, s[1..])
  }

  function Sort<T>(le: (T, T) -> bool, s: seq<T>): (r: seq<T>)
    ensures multiset(r) == multiset(s)
    ensures |r| == |s|
  {
    if s == [] then []
    else
      assert s == [s[0]] + s[1..];
      var r := Insert(le, s[0], Sort(le, s[1..]));
      assert |multiset(r)| == |r| && |multiset(s)| == |s|;
      r
  }

  /** The sorted array holds the same elements. */
  lemma {:induction false} SortMembers<T(!new)>(le: (T, T) -> bool, s: seq<T>)
    ensures forall x :: x in Sort(le, s) <==> x in s
  {
    forall x ensures x in Sort(le, s) <==> x in s {
      assert x in s <==> x in multiset(s);
      assert x in Sort(le, s) <==> x in multiset(Sort(le, s));
    }
  }

  lemma {:induction false} SortDistinct<T(!new)>(le: (T, T) -> bool, s: seq<T>)
    ensures Distinct(Sort(le, s)) <==> Distinct(s)
  {
    DistinctByCount(s);
    DistinctByCount(Sort(le, s));
  }

  lemma {:induction false} InsertKeepsSorted<T(!new)>(le: (T, T) -> bool, x: T, s: seq<T>)
    requires TotalPreorder(le) && Sorted(le, s)
    ensures Sorted(le, Insert(le, x, s))
  {
    if s != [] && !le(x, s[0]) {
      InsertKeepsSorted(le, x, s[1..]);
      var r := Insert(le, x, s[1..]);
      forall j | 0 <= j < |r| ensures le(s[0], r[j]) {
        assert r[j] in multiset(r);
        if r[j] != x {
          assert r[j] in multiset(s[1..]);
        }
      }
    }
  }

  lemma {:induction false} SortIsSorted<T(!new)>(le: (T, T) -> bool, s: seq<T>)
    requires TotalPreorder(le)
    ensures Sorted(le, Sort(le, s))
  {
    if s != [] {
      SortIsSorted(le, s[1..]);
      InsertKeepsSorted(le, s[0], Sort(le, s[1..]));
    }
  }

  /** Sorting a sorted array changes nothing, and nothing else stays as it is. */
  lemma {:induction false} SortFixes<T(!new)>(le: (T, T) -> bool, s: seq<T>)
    requires TotalPreorder(le)
    ensures Sort(le, s) == s <==> Sorted(le, s)
  {
    if Sorted(le, s) {
      if s != [] {
        var rest := s[1..];
        assert s == [s[0]] + rest;
        SortFixes(le, rest);
      }
    } else {
      SortIsSorted(le, s);
    }
  }

  lemma {:induction false} SortedHead<T>(le: (T, T) -> bool, s: seq<T>)
    requires Sorted(le, s) && s != []
    ensures Sorted(le, s[1..])
    ensures forall y :: y in s ==> y == s[0] || le(s[0], y)
    ensures multiset(s) == multiset{s[0]} + multiset(s[1..])
  {
    assert s == [s[0]] + s[1..];
  }

  ghost predicate NoTies<T>(le: (T, T) -> bool, s: set<T>) {
    forall x, y :: x in s && y in s && le(x, y) && le(y, x) ==> x == y
  }

  lemma {:induction false} SameHead<T>(le: (T, T) -> bool, a: seq<T>, b: seq<T>, all: set<T>)
    requires Sorted(le, a) && Sorted(le, b) && multiset(a) == multiset(b)
    requires NoTies(le, all) && forall x :: x in a ==> x in all
    requires a != [] && b != []
    ensures a[0] == b[0] && multiset(a[1..]) == multiset(b[1..])
  {
    assert a[0] in multiset(b) && b[0] in multiset(a);
    SortedHead(le, a);
    SortedHead(le, b);
    assert a[0] == b[0];
    assert multiset(a[1..]) == multiset(a) - multiset{a[0]} && multiset(b[1..]) == multiset(b) - multiset{b[0]};
  }

  /** Where no two different elements compare equal, sortedness alone fixes the order. */
  lemma {:induction false} SortedIsUnique<T>(le: (T, T) -> bool, a: seq<T>, b: seq<T>, all: set<T>)
    requires Sorted(le, a) && Sorted(le, b) && multiset(a) == multiset(b)
    requires NoTies(le, all) && forall x :: x in a ==> x in all
    ensures a == b
  {
    assert |a| == |multiset(a)| == |multiset(b)| == |b|;
    if a != [] {
      SameHead(le, a, b, all);
      SortedHead(le, a);
      SortedHead(le, b);
      SortedIsUnique(le, a[1..], b[1..], all);
      assert a == [a[0]] + a[1..] && b == [b[0]] + b[1..];
    }
  }

  lemma {:induction false} InsertCount<T>(le: (T, T) -> bool, x: T, s: seq<T>, keep: T -> bool)
    ensures |Filter(Insert(le, x, s), keep)| == |Filter(s, keep)| + if keep(x) then 1 else 0
  {
    if s != [] && !le(x, s[0]) {
      InsertCount(le, x, s[1..], keep);
      assert Insert(le, x, s)[1..] == Insert(le, x, s[1..]);
    } else {
      assert ([x] + s)[1..] == s;
    }
  }

  /** Sorting does not change how many elements have a property. */
  lemma {:induction false} SortCount<T>(le: (T, T) -> bool, s: seq<T>, keep: T -> bool)
    ensures |Filter(Sort(le, s), keep)| == |Filter(s, keep)|
  {
    if s != [] {
      SortCount(le, s[1..], keep);
      InsertCount(le, s[0], Sort(le, s[1..]), keep);
    }
  }

  lemma {:induction false} InsertNatural<S, T>(le: (S, S) -> bool, le': (T, T) -> bool, f: S -> T, x: S, s: seq<S>)
    requires forall y :: y in s ==> le(x, y) == le'(f(x), f(y))
    ensures Map(Insert(le, x, s), f) == Insert(le', f(x), Map(s, f))
  {
    MapCons(x, s, f);
    if s != [] {
      var rest := s[1..];
      assert s == [s[0]] + rest;
      MapCons(s[0], rest, f);
      if !le(x, s[0]) {
        InsertNatural(le, le', f, x, rest);
        MapCons(s[0], Insert(le, x, rest), f);
        assert Map(s, f)[1..] == Map(rest, f);
      }
    }
  }

  /** Sorting commutes with any relabelling that the comparison does not look at. */
  lemma {:induction false} SortNatural<S(!new), T>(le: (S, S) -> bool, le': (T, T) -> bool, f: S -> T, s: seq<S>)
    requires forall x, y :: x in s && y in s ==> le(x, y) == le'(f(x), f(y))
    ensures Map(Sort(le, s), f) == Sort(le', Map(s, f))
  {
    if s != [] {
      var rest := Sort(le, s[1..]);
      assert s == [s[0]] + s[1..];
      MapCons(s[0], s[1..], f);
      SortNatural(le, le', f, s[1..]);
      SortMembers(le, s[1..]);
      InsertNatural(le, le', f, s[0], rest);
    }
  }

  lemma {:induction false} OneAside<T>(a: seq<T>, b: seq<T>, c: seq<T>)
    requires a == [] || b == []
    ensures a + (b + c) == b + (a + c)
  {
  }

  lemma {:induction false} InsertStable<T(!new)>(le: (T, T) -> bool, x: T, s: seq<T>, keep: T -> bool)
    requires forall y :: y in s && keep(x) && keep(y) ==> le(x, y)
    ensures Filter(Insert(le, x, s), keep) == Kept(x, keep) + Filter(s, keep)
  {
    if s == [] || le(x, s[0]) {
      FilterCons(x, s, keep);
    } else {
      var rest := s[1..];
      assert s == [s[0]] + rest && s[0] in s;
      InsertStable(le, x, rest, keep);
      FilterCons(s[0], Insert(le, x, rest), keep);
      FilterCons(s[0], rest, keep);
      OneAside(Kept(s[0], keep), Kept(x, keep), Filter(rest, keep));
    }
  }

  /** The sort is stable: elements that compare equal keep their order. */
  lemma {:induction false} SortStable<T(!new)>(le: (T, T) -> bool, s: seq<T>, keep: T -> bool)
    requires forall x, y :: x in s && y in s && keep(x) && keep(y) ==> le(x, y)
    ensures Filter(Sort(le, s), keep) == Filter(s, keep)
  {
    if s != [] {
      assert s[0] in s && forall x :: x in s[1..] ==> x in s;
      SortStable(le, s[1..], keep);
      SortMembers(le, s[1..]);
      InsertStable(le, s[0], Sort(le, s[1..]), keep);
    }
  }

  lemma {:induction false} FilterNone<T>(s: seq<T>, keep: T -> bool)
    requires forall x :: x in s ==> !keep(x)
    ensures Filter(s, keep) == []
  {
    if s != [] {
      assert s[0] in s;
      FilterNone(s[1..], keep);
    }
  }

  lemma {:induction false} FilterTwo<T>(x: T, y: T, rest: seq<T>, keep: T -> bool)
    requires keep(x) && keep(y) && forall z :: z in rest ==> !keep(z)
    ensures Filter([x] + ([y] + rest), keep) == [x] + [y]
  {
    FilterNone(rest, keep);
    FilterCons(y, rest, keep);
    FilterCons(x, [y] + rest, keep);
    assert [y] + [] == [y];
  }

  lemma {:induction false} FiltersTell<T(!new)>(le: (T, T) -> bool, a: seq<T>, b: seq<T>, keep: T -> bool)
    requires forall x, y :: keep(x) && keep(y) ==> le(x, y)
    requires Filter(a, keep) != Filter(b, keep)
    ensures Sort(le, a) != Sort(le, b)
  {
    SortStable(le, a, keep);
    SortStable(le, b, keep);
  }

  lemma {:induction false} FiltersDiffer<T>(x: T, y: T, rest: seq<T>, keep: T -> bool)
    requires x != y && keep(x) && keep(y) && forall z :: z in rest ==> !keep(z)
    ensures Filter([x] + ([y] + rest), keep) != Filter([y] + ([x] + rest), keep)
  {
    FilterTwo(x, y, rest, keep);
    FilterTwo(y, x, rest, keep);
    assert ([x] + [y])[0] != ([y] + [x])[0];
  }

  /** Two elements that compare equal come out in the order they came in. */
  lemma {:induction false} TiesShow<T(!new)>(le: (T, T) -> bool, x: T, y: T, rest: seq<T>, keep: T -> bool,
      a: seq<T>, b: seq<T>)
    requires x != y && le(x, x) && le(y, y) && le(x, y) && le(y, x) && x !in rest && y !in rest
    requires forall z :: keep(z) <==> z == x || z == y
    requires a == [x] + ([y] + rest) && b == [y] + ([x] + rest)
    ensures Sort(le, a) != Sort(le, b)
  {
    FiltersDiffer(x, y, rest, keep);
    FiltersTell(le, a, b, keep);
  }
}
