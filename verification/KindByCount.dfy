/** The closest kind in whole numbers (agents/harness-selector.tsx, `closestKind`): a suggestion matches six tenths
    or more of the characters of both strings. */
module KindByCount {
  import opened Prelude
  import opened HarnessMatch

  /** Twice the characters matched are at least 3/5 of those of both strings together. */
  ghost predicate CloseEnough(typed: Text, candidate: Text) {
    |typed| + |candidate| > 0 && 10 * Matching(candidate, typed) >= 3 * (|typed| + |candidate|)
  }

  /** `a` matches a smaller share than `b` does. */
  ghost predicate Worse(typed: Text, a: Text, b: Text) {
    Matching(a, typed) * (|typed| + |b|) < Matching(b, typed) * (|typed| + |a|)
  }

  /** `known[i]` is close enough, none before it is closer, and every one after it is less close. */
  ghost predicate ClosestAt(typed: Text, known: seq<Text>, i: int) {
    && 0 <= i < |known| && CloseEnough(typed, known[i])
    && (forall j :: 0 <= j < i ==> !Worse(typed, known[i], known[j]))
    && forall j :: i < j < |known| && |typed| + |known[j]| > 0 ==> Worse(typed, known[j], known[i])
  }

  lemma {:induction false} Cross(a: real, m: real, b: real, n: real, p: real, q: real)
    requires m > 0.0 && n > 0.0 && p * m == a && q * n == b
    ensures p < q <==> a * n < b * m
  {
    assert m * n > 0.0;
    SignOfProduct(p - q, m * n);
    assert (p - q) * (m * n) == p * m * n - q * n * m;
  }

  lemma {:induction false} Share(a: nat, m: nat, b: nat, n: nat)
    requires m > 0 && n > 0
    ensures (2 * a) as real / m as real < (2 * b) as real / n as real <==> a * n < b * m
  {
    var p, q := (2 * a) as real / m as real, (2 * b) as real / n as real;
    Cross((2 * a) as real, m as real, (2 * b) as real, n as real, p, q);
    assert (2 * a) as real * n as real == (2 * a * n) as real;
    assert (2 * b) as real * m as real == (2 * b * m) as real;
  }

  lemma {:induction false} Bound(a: real, m: real, p: real)
    requires m > 0.0 && p * m == a
    ensures p >= 0.6 <==> a >= 0.6 * m
  {
    SignOfProduct(p - 0.6, m);
    assert (p - 0.6) * m == a - 0.6 * m;
  }

  lemma {:induction false} AtLeast(a: nat, m: nat)
    requires m > 0
    ensures (2 * a) as real / m as real >= 0.6 <==> 10 * a >= 3 * m
  {
    Bound((2 * a) as real, m as real, (2 * a) as real / m as real);
  }

  lemma {:induction false} CloseEnoughIs(typed: Text, candidate: Text)
    ensures Suggestible(typed, candidate) <==> CloseEnough(typed, candidate)
  {
    if HasRatio(typed, candidate) { AtLeast(Matching(candidate, typed), |typed| + |candidate|); }
  }

  lemma {:induction false} WorseIs(typed: Text, a: Text, b: Text)
    requires HasRatio(typed, a) && HasRatio(typed, b)
    ensures Ratio(typed, a) < Ratio(typed, b) <==> Worse(typed, a, b)
  {
    Share(Matching(a, typed), |typed| + |a|, Matching(b, typed), |typed| + |b|);
  }

  lemma {:induction false} NothingMatches(typed: Text, a: Text)
    requires !HasRatio(typed, a)
    ensures Matching(a, typed) == 0
  {
    MatchingBounds(a, typed);
  }

  lemma {:induction false} BestIsClosest(typed: Text, known: seq<Text>, i: nat)
    requires i < |known| && IsBestAt(typed, known, i)
    ensures ClosestAt(typed, known, i)
  {
    CloseEnoughIs(typed, known[i]);
    forall j | 0 <= j < i ensures !Worse(typed, known[i], known[j]) {
      if HasRatio(typed, known[j]) { WorseIs(typed, known[i], known[j]); } else { NothingMatches(typed, known[j]); }
    }
    forall j | i < j < |known| && HasRatio(typed, known[j]) ensures Worse(typed, known[j], known[i]) {
      WorseIs(typed, known[j], known[i]);
    }
  }

  /** The suggestion is the last of the closest kinds, if any is close enough. */
  lemma {:induction false} ClosestSays(typed: Text, known: seq<Text>, best: Option<Text>)
    requires IsClosest(typed, known, best)
    ensures match best
      case Some(c) => exists i :: ClosestAt(typed, known, i) && known[i] == c
      case None => forall i :: 0 <= i < |known| ==> !CloseEnough(typed, known[i])
  {
    match best
    case Some(c) =>
      var i :| 0 <= i < |known| && known[i] == c && IsBestAt(typed, known, i);
      BestIsClosest(typed, known, i);
    case None =>
      forall i | 0 <= i < |known| ensures !CloseEnough(typed, known[i]) {
        CloseEnoughIs(typed, known[i]);
      }
  }
}
