/** The key of the finished runs, digit by digit (results/queries.ts, `useFinishedRuns`): 32-bit FNV-1a over the
    ids in order, each followed by a comma, written in base 36 after the count. */
module KeyByDigits {
  import opened Prelude
  import opened Sorting
  import opened Fingerprint
  import Decimal

  function Pow2(k: nat): nat { if k == 0 then 1 else 2 * Pow2(k - 1) }

  /** The binary digit of `n` at place `k`. */
  function Bit(n: nat, k: nat): nat { if k == 0 then n % 2 else Bit(n / 2, k - 1) }

  lemma {:induction false} QuotientIs(n: nat, p: nat, q: nat, r: nat)
    requires n == q * p + r && r < p
    ensures n / p == q
  {
    var d := n / p - q;
    assert n == (n / p) * p + n % p;
    assert d * p == r - n % p;
    assert d >= 1 ==> d * p >= p;
    assert d <= -1 ==> d * p <= 0 - p;
  }

  lemma {:induction false} HalfFirst(n: nat, p: nat)
    requires p > 0
    ensures n / 2 / p == n / (2 * p)
  {
    var h, q := n / 2, n / 2 / p;
    assert h == q * p + h % p && 0 <= h % p < p;
    var r := 2 * (h % p) + n % 2;
    assert n == q * (2 * p) + r && 0 <= r < 2 * p;
    QuotientIs(n, 2 * p, q, r);
  }

  /** It is what is left of the division by the power of two. */
  lemma {:induction false} BitIs(n: nat, k: nat)
    ensures Pow2(k) > 0 && Bit(n, k) == n / Pow2(k) % 2
  {
    if k > 0 {
      BitIs(n / 2, k - 1);
      HalfFirst(n, Pow2(k - 1));
    }
  }

  lemma {:induction false} XorHalves(a: nat, b: nat)
    ensures Xor(a, b) / 2 == Xor(a / 2, b / 2) && Xor(a, b) % 2 == (a % 2 + b % 2) % 2
  {
  }

  /** The exclusive or takes the digits one by one. */
  lemma {:induction false} XorBits(a: nat, b: nat, k: nat)
    ensures Bit(Xor(a, b), k) == (Bit(a, k) + Bit(b, k)) % 2
    decreases k
  {
    XorHalves(a, b);
    if k > 0 { XorBits(a / 2, b / 2, k - 1); }
  }

  /** The hash starts with the offset basis; each unit is mixed in, then the word is multiplied by the prime. */
  lemma {:induction false} HashSays(hash: Word, s: Id, c: Unit)
    ensures BASIS == 2166136261 && Hash(hash, []) == hash
    ensures Hash(hash, s + [c]) == Xor(Hash(hash, s), c) * 16777619 % 4294967296
  {
    HashPush(hash, s, c);
  }

  predicate DiffersAt(a: Id, b: Id, k: int) {
    && 0 <= k <= |a| && k <= |b| && (forall i :: 0 <= i < k ==> a[i] == b[i])
    && (k == |a| || (k < |b| && a[k] < b[k]))
  }

  /** `a` is `b`, or a front of it, or smaller at the first place where they differ. */
  ghost predicate Before(a: Id, b: Id) {
    exists k :: DiffersAt(a, b, k)
  }

  lemma {:induction false} DiffersLater(a: Id, b: Id, k: int)
    requires a != [] && b != [] && a[0] == b[0] && k >= 0
    ensures DiffersAt(a[1..], b[1..], k) <==> DiffersAt(a, b, k + 1)
  {
    assert forall i :: 0 <= i < |a| - 1 ==> a[1..][i] == a[i + 1];
    assert forall i :: 0 <= i < |b| - 1 ==> b[1..][i] == b[i + 1];
    if DiffersAt(a[1..], b[1..], k) {
      forall i | 0 <= i < k + 1 ensures a[i] == b[i] {
        if i > 0 { assert a[1..][i - 1] == b[1..][i - 1]; }
      }
    }
  }

  lemma {:induction false} IdLeIs(a: Id, b: Id)
    ensures IdLe(a, b) <==> Before(a, b)
  {
    if a == [] || b == [] || a[0] != b[0] {
      if IdLe(a, b) { assert DiffersAt(a, b, 0); }
    } else {
      IdLeIs(a[1..], b[1..]);
      if k :| DiffersAt(a[1..], b[1..], k) { DiffersLater(a, b, k); }
      if k :| DiffersAt(a, b, k) { DiffersLater(a, b, k - 1); }
    }
  }

  lemma {:induction false} StreamSays(ids: seq<Id>, id: Id)
    ensures Stream([]) == [] && Stream(ids + [id]) == Stream(ids) + id + [',' as int]
  {
    assert (ids + [id])[..|ids|] == ids;
  }

  /** Base 36, digits before letters. */
  lemma {:induction false} Print36Says(n: nat, d: nat)
    requires d < 36
    ensures Print36(d) == ["0123456789abcdefghijklmnopqrstuvwxyz"[d]]
    ensures n > 0 ==> Print36(36 * n + d) == Print36(n) + ["0123456789abcdefghijklmnopqrstuvwxyz"[d]]
  {
    assert (36 * n + d) / 36 == n && (36 * n + d) % 36 == d;
    assert Digit36(d) == "0123456789abcdefghijklmnopqrstuvwxyz"[d];
  }

  /** The key: the count, a colon, and the hash of the stream of the sorted ids. */
  lemma {:induction false} KeySays(ids: seq<Id>, sorted: seq<Id>)
    requires multiset(sorted) == multiset(ids) && forall i, j :: 0 <= i < j < |sorted| ==> Before(sorted[i], sorted[j])
    ensures KeyOf(ids) == Decimal.Print(|ids|) + ":" + Print36(Hash(2166136261, Stream(sorted)))
  {
    var all := set x | x in ids;
    IdOrderIsTotal(all);
    SortIsSorted(IdLe, ids);
    forall i, j | 0 <= i < j < |sorted| ensures IdLe(sorted[i], sorted[j]) {
      IdLeIs(sorted[i], sorted[j]);
    }
    forall x | x in sorted ensures x in all {
      assert x in multiset(sorted);
    }
    SortedIsUnique(IdLe, sorted, Sort(IdLe, ids), all);
  }

  /** The ids of the runs that are over, in order. */
  lemma {:induction false} FinishedSays<R>(runs: seq<Run<R>>, run: Run<R>, isTerminal: Run<R> -> bool)
    ensures FinishedIds([], isTerminal) == []
    ensures FinishedIds(runs + [run], isTerminal) ==
      FinishedIds(runs, isTerminal) + if isTerminal(run) then [run.id] else []
  {
    FilterAppend(runs, [run], isTerminal);
    FilterCons(run, [], isTerminal);
    assert [run] == [run] + [];
  }
}
