/** UTF-16 and code points (section 2.1 of RFC 2781). */
module Utf16 {
  import opened Prelude

  predicate IsHigh(u: int) { 0xD800 <= u <= 0xDBFF }
  predicate IsLow(u: int) { 0xDC00 <= u <= 0xDFFF }

  /** A code point, which may be a surrogate that stands alone. */
  predicate IsPoint(c: int) { 0 <= c <= 0x10FFFF }

  ghost predicate CodePoints(s: Text) { forall c :: c in s ==> IsPoint(c) }

  /** No surrogates stand next to each other that would make a pair. */
  ghost predicate Paired(s: Text) {
    forall i :: 0 < i < |s| ==> !(IsHigh(s[i - 1]) && IsLow(s[i]))
  }

  /** What the string iterator can yield. */
  ghost predicate Iterated(s: Text) { CodePoints(s) && Paired(s) }

  /** A string as the engine holds it, well formed or not. */
  ghost predicate IsUnits(s: Text) { forall u :: u in s ==> 0 <= u < 0x10000 }

  /** `[...s]`: the string iterator, which pairs surrogates and passes a lone one through. */
  function Points(s: Text): (r: Text)
    ensures |r| <= |s|
    decreases |s|
  {
    if s == [] then []
    else if |s| > 1 && IsHigh(s[0]) && IsLow(s[1]) then
      [0x10000 + (s[0] - 0xD800) * 0x400 + (s[1] - 0xDC00)] + Points(s[2..])
    else [s[0]] + Points(s[1..])
  }

  /** The units of one code point. */
  function Units(c: int): (r: Text)
    ensures 1 <= |r| <= 2
  {
    if c < 0x10000 then [c] else [0xD800 + (c - 0x10000) / 0x400, 0xDC00 + (c - 0x10000) % 0x400]
  }

  function Encode(s: Text): (r: Text)
    ensures |r| >= |s|
  {
    if s == [] then [] else Units(s[0]) + Encode(s[1..])
  }

  lemma {:induction false} UnitsShape(c: int)
    requires IsPoint(c)
    ensures c < 0x10000 ==> Units(c) == [c]
    ensures c >= 0x10000 ==> |Units(c)| == 2 && IsHigh(Units(c)[0]) && IsLow(Units(c)[1])
    ensures c >= 0x10000 ==> 0x10000 + (Units(c)[0] - 0xD800) * 0x400 + (Units(c)[1] - 0xDC00) == c
  {
  }

  lemma {:induction false} CodePointsTail(s: Text)
    requires CodePoints(s) && s != []
    ensures IsPoint(s[0]) && CodePoints(s[1..])
  {
    assert s[0] in s && forall c :: c in s[1..] ==> c in s;
  }

  lemma {:induction false} PairedParts(a: Text, b: Text)
    requires Paired(a + b)
    ensures Paired(a) && Paired(b)
  {
    var s := a + b;
    forall i | 0 < i < |a| ensures !(IsHigh(a[i - 1]) && IsLow(a[i])) {
      assert a[i - 1] == s[i - 1] && a[i] == s[i];
    }
    forall i | 0 < i < |b| ensures !(IsHigh(b[i - 1]) && IsLow(b[i])) {
      var j := |a| + i;
      assert b[i - 1] == s[j - 1] && b[i] == s[j];
    }
  }

  lemma {:induction false} PairedCons(c: int, t: Text)
    ensures Paired([c] + t) <==> Paired(t) && (t == [] || !(IsHigh(c) && IsLow(t[0])))
  {
    var s := [c] + t;
    assert t != [] ==> s[0] == c && s[1] == t[0];
    if Paired(s) { PairedParts([c], t); }
    if Paired(t) && (t == [] || !(IsHigh(c) && IsLow(t[0]))) {
      forall i | 0 < i < |s| ensures !(IsHigh(s[i - 1]) && IsLow(s[i])) {
        assert i > 1 ==> t[i - 2] == s[i - 1] && t[i - 1] == s[i];
      }
    }
  }

  lemma {:induction false} IteratedTail(s: Text)
    requires Iterated(s) && s != []
    ensures IsPoint(s[0]) && Iterated(s[1..])
    ensures |s| > 1 ==> !(IsHigh(s[0]) && IsLow(s[1]))
  {
    CodePointsTail(s);
    assert s == [s[0]] + s[1..];
    PairedCons(s[0], s[1..]);
  }

  lemma {:induction false} FirstUnit(t: Text)
    requires CodePoints(t) && t != []
    ensures Encode(t) != [] && Encode(t)[0] == Units(t[0])[0]
    ensures IsLow(Encode(t)[0]) ==> IsLow(t[0])
  {
    CodePointsTail(t);
    UnitsShape(t[0]);
  }

  lemma {:induction false} PointsOfUnits(c: int, rest: Text)
    requires IsPoint(c) && (IsHigh(c) && rest != [] ==> !IsLow(rest[0]))
    ensures Points(Units(c) + rest) == [c] + Points(rest)
  {
    UnitsShape(c);
    var s := Units(c) + rest;
    assert s[|Units(c)|..] == rest;
    assert |Units(c)| == 1 && |s| > 1 ==> s[1] == rest[0];
  }

  /** The iterator reads the code points back. */
  lemma {:induction false} PointsEncode(s: Text)
    requires Iterated(s)
    ensures Points(Encode(s)) == s
  {
    if s != [] {
      IteratedTail(s);
      PointsEncode(s[1..]);
      if s[1..] != [] { FirstUnit(s[1..]); }
      PointsOfUnits(s[0], Encode(s[1..]));
      assert [s[0]] + s[1..] == s;
    }
  }

  /** On what it yields the iterator changes nothing. */
  lemma {:induction false} PointsOfIterated(s: Text)
    requires Iterated(s)
    ensures Points(s) == s
  {
    if s != [] {
      IteratedTail(s);
      PointsOfIterated(s[1..]);
      assert [s[0]] + s[1..] == s;
    }
  }

  lemma {:induction false} UnitsOfPair(h: int, l: int)
    requires IsHigh(h) && IsLow(l)
    ensures var c := 0x10000 + (h - 0xD800) * 0x400 + (l - 0xDC00);
      Units(c) == [h, l] && IsPoint(c) && c >= 0x10000
  {
    var c := 0x10000 + (h - 0xD800) * 0x400 + (l - 0xDC00);
    assert (c - 0x10000) / 0x400 == h - 0xD800 && (c - 0x10000) % 0x400 == l - 0xDC00;
  }

  lemma {:induction false} EncodeCons(c: int, s: Text)
    ensures Encode([c] + s) == Units(c) + Encode(s)
  {
    assert ([c] + s)[1..] == s;
  }

  lemma {:induction false} IteratedCons(c: int, t: Text)
    requires IsPoint(c) && Iterated(t) && (t == [] || !(IsHigh(c) && IsLow(t[0])))
    ensures Iterated([c] + t)
  {
    PairedCons(c, t);
  }

  lemma {:induction false} PairFirst(u: Text, t: Text)
    requires |u| > 1 && IsHigh(u[0]) && IsLow(u[1]) && t == u[2..]
    requires Iterated(Points(t)) && Encode(Points(t)) == t
    ensures Iterated(Points(u)) && Encode(Points(u)) == u
    ensures Points(u) != [] && !IsLow(Points(u)[0])
  {
    var c := 0x10000 + (u[0] - 0xD800) * 0x400 + (u[1] - 0xDC00);
    UnitsOfPair(u[0], u[1]);
    IteratedCons(c, Points(t));
    EncodeCons(c, Points(t));
    assert [u[0], u[1]] + t == u;
  }

  lemma {:induction false} LoneFirst(u: Text, t: Text)
    requires u != [] && 0 <= u[0] < 0x10000 && t == u[1..]
    requires |u| > 1 ==> !(IsHigh(u[0]) && IsLow(u[1]))
    requires Iterated(Points(t)) && Encode(Points(t)) == t
    requires t != [] ==> Points(t) != [] && (IsLow(Points(t)[0]) ==> IsLow(t[0]))
    ensures Iterated(Points(u)) && Encode(Points(u)) == u
    ensures Points(u) != [] && Points(u)[0] == u[0]
  {
    assert t != [] ==> t[0] == u[1];
    IteratedCons(u[0], Points(t));
    EncodeCons(u[0], Points(t));
    assert [u[0]] + t == u;
  }

  /** Every string of units, lone surrogates included, is the UTF-16 form of what its iterator yields. */
  lemma {:induction false} EncodePoints(u: Text)
    requires IsUnits(u)
    ensures Iterated(Points(u)) && Encode(Points(u)) == u
    ensures u != [] ==> Points(u) != [] && (IsLow(Points(u)[0]) ==> IsLow(u[0]))
    decreases |u|
  {
    if u != [] {
      assert u[0] in u;
      if |u| > 1 && IsHigh(u[0]) && IsLow(u[1]) {
        var t := u[2..];
        assert forall x :: x in t ==> x in u;
        EncodePoints(t);
        PairFirst(u, t);
      } else {
        var t := u[1..];
        assert forall x :: x in t ==> x in u;
        EncodePoints(t);
        LoneFirst(u, t);
      }
    }
  }

  lemma {:induction false} EncodeAppend(a: Text, b: Text)
    ensures Encode(a + b) == Encode(a) + Encode(b)
  {
    if a == [] {
      assert a + b == b;
    } else {
      assert (a + b)[0] == a[0] && (a + b)[1..] == a[1..] + b;
      EncodeAppend(a[1..], b);
      Regroup(Units(a[0]), Encode(a[1..]), Encode(b));
    }
  }
}
