/** The key that says which runs have finished (results/queries.ts, `useFinishedRuns`): a count and a
    32-bit FNV-1a hash over the sorted ids. */
module Fingerprint {
  import opened Prelude
  import opened Sorting
  import Decimal

  /** A UTF-16 code unit. */
  type Unit = c: int | 0 <= c < 0x10000

  type Id = seq<Unit>

  const WORD := 0x1_0000_0000

  /** A 32-bit word, read without its sign. */
  type Word = w: int | 0 <= w < WORD

  datatype Run<R> = Run(id: Id, rest: R)

  const BASIS: Word := 0x811c9dc5
  const COMMA: Unit := 0x2c

  // ---------- The order of the ids ----------

  /** The default order of `Array.prototype.sort`: unit by unit. */
  predicate IdLe(a: Id, b: Id) {
    if a == [] then true
    else if b == [] then false
    else if a[0] != b[0] then a[0] < b[0]
    else IdLe(a[1..], b[1..])
  }

  lemma {:induction false} LexTransitive(a: Id, b: Id, c: Id)
    requires IdLe(a, b) && IdLe(b, c)
    ensures IdLe(a, c)
  {
    if a != [] && a[0] == b[0] && b[0] == c[0] { LexTransitive(a[1..], b[1..], c[1..]); }
  }

  lemma {:induction false} LexTotal(a: Id, b: Id)
    ensures IdLe(a, b) || IdLe(b, a)
  {
    if a != [] && b != [] && a[0] == b[0] { LexTotal(a[1..], b[1..]); }
  }

  lemma {:induction false} LexAntisymmetric(a: Id, b: Id)
    requires IdLe(a, b) && IdLe(b, a)
    ensures a == b
  {
    if a != [] {
      LexAntisymmetric(a[1..], b[1..]);
      assert a == [a[0]] + a[1..] && b == [b[0]] + b[1..];
    }
  }

  lemma {:induction false} IdOrderIsTotal(all: set<Id>)
    ensures TotalPreorder(IdLe)
    ensures NoTies(IdLe, all)
  {
    forall x, y ensures IdLe(x, y) || IdLe(y, x) {
      LexTotal(x, y);
    }
    forall x, y, z | IdLe(x, y) && IdLe(y, z) ensures IdLe(x, z) {
      LexTransitive(x, y, z);
    }
    forall x, y | x in all && y in all && IdLe(x, y) && IdLe(y, x) ensures x == y {
      LexAntisymmetric(x, y);
    }
  }

  // ---------- The hash ----------

  /** The exclusive or of two numbers, bit by bit. */
  function Xor(a: nat, b: nat): nat
    decreases a + b
  {
    if a == 0 && b == 0 then 0
    else 2 * Xor(a / 2, b / 2) + if a % 2 == b % 2 then 0 else 1
  }

  predicate IsPowerOf2(m: nat) {
    m == 1 || (m > 0 && m % 2 == 0 && IsPowerOf2(m / 2))
  }

  lemma {:induction false} XorBound(a: nat, b: nat, m: nat)
    requires IsPowerOf2(m) && a < m && b < m
    ensures Xor(a, b) < m
    decreases m
  {
    if m > 1 { XorBound(a / 2, b / 2, m / 2); }
  }

  lemma {:induction false} PowerTimes4(m: nat)
    requires IsPowerOf2(m)
    ensures IsPowerOf2(4 * m)
  {
    assert 4 * m / 2 == 2 * m && 2 * m / 2 == m;
  }

  lemma {:induction false} PowerTimes256(m: nat)
    requires IsPowerOf2(m)
    ensures IsPowerOf2(256 * m)
  {
    PowerTimes4(m);
    PowerTimes4(4 * m);
    PowerTimes4(16 * m);
    PowerTimes4(64 * m);
  }

  lemma {:induction false} WordIsPower()
    ensures IsPowerOf2(WORD)
  {
    PowerTimes256(1);
    PowerTimes256(0x100);
    PowerTimes256(0x1_0000);
    PowerTimes256(0x100_0000);
  }

  /** `hash ^ c` */
  function Mixed(hash: Word, c: Unit): Word {
    WordIsPower();
    XorBound(hash, c, WORD);
    Xor(hash, c)
  }

  /** `Math.imul(hash ^ c, 0x01000193)` */
  function Step(hash: Word, c: Unit): Word {
    Mixed(hash, c) * 0x01000193 % WORD
  }

  function Hash(hash: Word, s: Id): Word {
    if s == [] then hash else Step(Hash(hash, s[..|s| - 1]), s[|s| - 1])
  }

  /** Everything that is hashed: the ids, each followed by a comma. */
  function Stream(ids: seq<Id>): Id {
    if ids == [] then [] else Stream(ids[..|ids| - 1]) + ids[|ids| - 1] + [COMMA]
  }

  function HashOf(ids: seq<Id>): Word {
    Hash(BASIS, Stream(Sort(IdLe, ids)))
  }

  lemma {:induction false} HashPush(hash: Word, s: Id, c: Unit)
    ensures Hash(hash, s + [c]) == Step(Hash(hash, s), c)
  {
    assert (s + [c])[..|s|] == s;
  }

  lemma {:induction false} HashAppend(hash: Word, a: Id, b: Id)
    ensures Hash(hash, a + b) == Hash(Hash(hash, a), b)
    decreases |b|
  {
    if b == [] {
      assert a + b == a;
    } else {
      var init := b[..|b| - 1];
      HashAppend(hash, a, init);
      assert a + b == (a + init) + [b[|b| - 1]];
      HashPush(hash, a + init, b[|b| - 1]);
    }
  }

  // ---------- The key ----------

  function Value36(c: char): int {
    if c <= '9' then c as int - '0' as int else c as int - 'a' as int + 10
  }

  function Digit36(d: nat): (c: char)
    requires d < 36
    ensures c != ':' && Value36(c) == d
  {
    if d < 10 then d as char + '0' else (d - 10) as char + 'a'
  }

  /** `n.toString(36)` */
  function Print36(n: nat): string {
    if n < 36 then [Digit36(n)] else Print36(n / 36) + [Digit36(n % 36)]
  }

  function Read36(s: string): int {
    if s == [] then 0 else 36 * Read36(s[..|s| - 1]) + Value36(s[|s| - 1])
  }

  lemma {:induction false} ReadPrint36(n: nat)
    ensures Read36(Print36(n)) == n
  {
    if n < 36 {
      assert [Digit36(n)][..0] == [];
    } else {
      ReadPrint36(n / 36);
      assert Print36(n)[..|Print36(n)| - 1] == Print36(n / 36);
    }
  }

  function KeyText(count: nat, hash: Word): string {
    Decimal.Print(count) + ":" + Print36(hash)
  }

  function KeyOf(ids: seq<Id>): string {
    KeyText(|ids|, HashOf(ids))
  }

  function IdOf<R>(run: Run<R>): Id { run.id }

  function FinishedIds<R>(runs: seq<Run<R>>, isTerminal: Run<R> -> bool): seq<Id> {
    Map(Filter(runs, isTerminal), IdOf)
  }

  lemma {:induction false} StreamPush(ids: seq<Id>, k: nat)
    requires k < |ids|
    ensures Stream(ids[..k + 1]) == Stream(ids[..k]) + ids[k] + [COMMA]
  {
    assert ids[..k + 1][..k] == ids[..k];
  }

  lemma {:induction false} HashStreamPush(ids: seq<Id>, k: nat)
    requires k < |ids|
    ensures Hash(BASIS, Stream(ids[..k + 1])) == Step(Hash(Hash(BASIS, Stream(ids[..k])), ids[k]), COMMA)
  {
    var before := Stream(ids[..k]);
    StreamPush(ids, k);
    HashPush(BASIS, before + ids[k], COMMA);
    HashAppend(BASIS, before, ids[k]);
  }

  /** One id and its separator. */
  method HashId(hash0: Word, id: Id) returns (hash: Word)
    ensures hash == Step(Hash(hash0, id), COMMA)
  {
    hash := hash0;
    for i := 0 to |id|
      invariant hash == Hash(hash0, id[..i])
    {
      assert id[..i + 1][..i] == id[..i];
      hash := Step(hash, id[i]);
    }
    assert id[..|id|] == id;
    hash := Step(hash, COMMA);
  }

  /** The memo of the hook: nothing until the runs are known, and the key from then on. */
  method FinishedRuns<R>(data: Option<seq<Run<R>>>, isError: bool, isTerminal: Run<R> -> bool)
    returns (key: Option<string>)
    ensures data.None? ==> key == if isError then Some("unknown") else None
    ensures data.Some? ==> key == Some(KeyOf(FinishedIds(data.value, isTerminal)))
  {
    if data.None? { return if isError then Some("unknown") else None; }
    var ids := Sort(IdLe, FinishedIds(data.value, isTerminal));
    var hash := BASIS;
    for k := 0 to |ids|
      invariant hash == Hash(BASIS, Stream(ids[..k]))
    {
      HashStreamPush(ids, k);
      hash := HashId(hash, ids[k]);
    }
    assert ids[..|ids|] == ids;
    key := Some(KeyText(|ids|, hash));
  }

  // ---------- What the key tells apart ----------

  lemma {:induction false} ColonInLonger(a: string, b: string, c: string, d: string)
    requires a + ":" + b == c + ":" + d
    ensures |a| < |c| ==> ':' in c
  {
    if |a| < |c| {
      assert (c + ":" + d)[|a|] == c[|a|] && (a + ":" + b)[|a|] == ':';
    }
  }

  lemma {:induction false} SplitAtColon(a: string, b: string, c: string, d: string)
    requires a + ":" + b == c + ":" + d
    requires ':' !in a && ':' !in c
    ensures a == c && b == d
  {
    ColonInLonger(a, b, c, d);
    ColonInLonger(c, d, a, b);
    var s := a + ":" + b;
    assert s[..|a|] == a && s[..|c|] == c;
    assert s[|a| + 1..] == b && s[|c| + 1..] == d;
  }

  /** A key determines the count and the hash. */
  lemma {:induction false} KeyShowsBoth(m: nat, g: Word, n: nat, h: Word)
    ensures KeyText(m, g) == KeyText(n, h) <==> m == n && g == h
  {
    if KeyText(m, g) == KeyText(n, h) {
      Decimal.ReadPrint(m);
      Decimal.ReadPrint(n);
      SplitAtColon(Decimal.Print(m), Print36(g), Decimal.Print(n), Print36(h));
      ReadPrint36(g);
      ReadPrint36(h);
    }
  }

  /** The order in which the server lists the runs does not show. */
  lemma {:induction false} KeyIsOrderFree(a: seq<Id>, b: seq<Id>)
    requires multiset(a) == multiset(b)
    ensures KeyOf(a) == KeyOf(b)
  {
    var sa, sb := Sort(IdLe, a), Sort(IdLe, b);
    assert |a| == |multiset(a)| == |multiset(b)| == |b|;
    var all := set x | x in sa;
    IdOrderIsTotal(all);
    SortIsSorted(IdLe, a);
    SortIsSorted(IdLe, b);
    SortedIsUnique(IdLe, sa, sb, all);
  }

  /** One run more or one run fewer always shows, and so does hearing of the runs at all. */
  lemma {:induction false} KeyShowsCount(a: seq<Id>, b: seq<Id>)
    ensures |a| != |b| ==> KeyOf(a) != KeyOf(b)
    ensures KeyOf(a) != "unknown"
  {
    KeyShowsBoth(|a|, HashOf(a), |b|, HashOf(b));
    Decimal.ReadPrint(|a|);
    var head := Decimal.Print(|a|);
    assert KeyOf(a)[0] == head[0] && head[0] in head;
    assert "unknown"[0] == 'u';
  }

  /** The multiplier is odd: 0x359c449b undoes it. */
  lemma {:induction false} WordRest(p: int)
    ensures p % WORD == p - p / WORD * WORD
  {
  }

  lemma {:induction false} WordShift(x: Word, n: int)
    ensures (x + n * WORD) % WORD == x
  {
  }

  lemma {:induction false} PrimeInverts(x: Word)
    ensures x * 0x01000193 % WORD * 0x359c449b % WORD == x
  {
    var p := x * 0x01000193;
    var k := p / WORD;
    var n := x * 0x359c99 - k * 0x359c449b;
    assert (p - k * WORD) * 0x359c449b == x + n * WORD;
    WordRest(p);
    WordShift(x, n);
  }

  lemma {:induction false} XorHalves(a: nat, b: nat)
    ensures Xor(a, b) / 2 == Xor(a / 2, b / 2)
    ensures Xor(a, b) % 2 == if a % 2 == b % 2 then 0 else 1
  {
  }

  lemma {:induction false} XorInverts(a: nat, b: nat)
    ensures Xor(Xor(a, b), b) == a
    decreases a + b
  {
    XorHalves(a, b);
    XorHalves(Xor(a, b), b);
    if a > 0 || b > 0 { XorInverts(a / 2, b / 2); }
  }

  lemma {:induction false} XorCommutes(a: nat, b: nat)
    ensures Xor(a, b) == Xor(b, a)
    decreases a + b
  {
    if a > 0 || b > 0 { XorCommutes(a / 2, b / 2); }
  }

  /** A step loses nothing: equal results from one hash mean one unit, and from one unit one hash. */
  lemma {:induction false} StepInjective(g: Word, h: Word, c: Unit, d: Unit)
    requires Step(g, c) == Step(h, d)
    ensures c == d ==> g == h
    ensures g == h ==> c == d
  {
    PrimeInverts(Mixed(g, c));
    PrimeInverts(Mixed(h, d));
    XorInverts(g, c);
    XorInverts(h, d);
    XorInverts(c, g);
    XorInverts(d, h);
    XorCommutes(g, c);
    XorCommutes(h, d);
  }

  /** Hashing the same text keeps different hashes different. */
  lemma {:induction false} HashInjective(g: Word, h: Word, s: Id)
    requires Hash(g, s) == Hash(h, s)
    ensures g == h
  {
    if s != [] {
      var init := s[..|s| - 1];
      StepInjective(Hash(g, init), Hash(h, init), s[|s| - 1], s[|s| - 1]);
      HashInjective(g, h, init);
    }
  }

  /** Two streams that differ in one unit have different hashes: a single changed character never
      collides. */
  lemma {:induction false} OneUnitShows(pre: Id, c: Unit, d: Unit, post: Id)
    ensures Hash(BASIS, pre + [c] + post) == Hash(BASIS, pre + [d] + post) <==> c == d
  {
    HashAppend(BASIS, pre + [c], post);
    HashAppend(BASIS, pre + [d], post);
    HashPush(BASIS, pre, c);
    HashPush(BASIS, pre, d);
    if Hash(BASIS, pre + [c] + post) == Hash(BASIS, pre + [d] + post) {
      HashInjective(Hash(BASIS, pre + [c]), Hash(BASIS, pre + [d]), post);
      StepInjective(Hash(BASIS, pre), Hash(BASIS, pre), c, d);
    }
  }

  /** The same, for the key. */
  lemma {:induction false} OneUnitChangesKey(a: seq<Id>, b: seq<Id>, pre: Id, c: Unit, d: Unit, post: Id)
    requires Stream(Sort(IdLe, a)) == pre + [c] + post && Stream(Sort(IdLe, b)) == pre + [d] + post
    requires c != d
    ensures KeyOf(a) != KeyOf(b)
  {
    OneUnitShows(pre, c, d, post);
    KeyShowsBoth(|a|, HashOf(a), |b|, HashOf(b));
  }

  // ---------- The separator ----------

  ghost predicate CommaFree(ids: seq<Id>) {
    forall id :: id in ids ==> COMMA !in id
  }

  lemma {:induction false} Overlap(p: Id, x: Id, q: Id, y: Id)
    requires p + x == q + y
    ensures |p| < |q| ==> q[|q| - 1] in x
    ensures |p| == |q| ==> p == q && x == y
  {
    var s := p + x;
    if |p| < |q| {
      assert s[|q| - 1] == x[|q| - 1 - |p|] && s[|q| - 1] == q[|q| - 1];
    } else if |p| == |q| {
      assert s[..|p|] == p && s[..|q|] == q && s[|p|..] == x && s[|q|..] == y;
    }
  }

  /** The last id of a stream is what follows the last comma but one. */
  lemma {:induction false} LastId(p: Id, x: Id, q: Id, y: Id)
    requires p + x + [COMMA] == q + y + [COMMA]
    requires COMMA !in x && COMMA !in y
    requires p == [] || p[|p| - 1] == COMMA
    requires q == [] || q[|q| - 1] == COMMA
    ensures p == q && x == y
  {
    var n := |p + x|;
    assert (p + x + [COMMA])[..n] == p + x && (q + y + [COMMA])[..n] == q + y;
    Overlap(p, x, q, y);
    Overlap(q, y, p, x);
  }

  /** The separator does its work for ids without commas: "ab","c" and "a","bc" differ. */
  lemma {:induction false} StreamTellsApart(a: seq<Id>, b: seq<Id>)
    requires CommaFree(a) && CommaFree(b)
    ensures Stream(a) == Stream(b) <==> a == b
    decreases |a|
  {
    if Stream(a) == Stream(b) {
      if a == [] || b == [] {
        assert a == [] ==> Stream(a) == [];
        assert b == [] ==> Stream(b) == [];
      } else {
        var a0, b0 := a[..|a| - 1], b[..|b| - 1];
        LastId(Stream(a0), a[|a| - 1], Stream(b0), b[|b| - 1]);
        StreamTellsApart(a0, b0);
        assert a == a0 + [a[|a| - 1]] && b == b0 + [b[|b| - 1]];
      }
    }
  }

  lemma {:induction false} SortCommaFree(a: seq<Id>)
    ensures CommaFree(Sort(IdLe, a)) <==> CommaFree(a)
  {
    SortMembers(IdLe, a);
  }

  /** What is hashed tells sets of finished runs apart: sorted, comma-free ids have the same stream
      exactly when they are the same ids, each as often. */
  lemma {:induction false} SortedStreamTells(a: seq<Id>, b: seq<Id>)
    requires CommaFree(a) && CommaFree(b)
    ensures Stream(Sort(IdLe, a)) == Stream(Sort(IdLe, b)) <==> multiset(a) == multiset(b)
  {
    SortCommaFree(a);
    SortCommaFree(b);
    StreamTellsApart(Sort(IdLe, a), Sort(IdLe, b));
    if multiset(a) == multiset(b) {
      var all := set x | x in a;
      IdOrderIsTotal(all);
      SortIsSorted(IdLe, a);
      SortIsSorted(IdLe, b);
      SortMembers(IdLe, a);
      SortedIsUnique(IdLe, Sort(IdLe, a), Sort(IdLe, b), all);
    }
  }

  /** How many commas there are. */
  function Commas(s: Id): nat {
    if s == [] then 0 else Commas(s[..|s| - 1]) + if s[|s| - 1] == COMMA then 1 else 0
  }

  lemma {:induction false} CommasAppend(s: Id, t: Id)
    ensures Commas(s + t) == Commas(s) + Commas(t)
    decreases |t|
  {
    if t == [] {
      assert s + t == s;
    } else {
      var init := t[..|t| - 1];
      CommasAppend(s, init);
      assert (s + t)[..|s + t| - 1] == s + init;
    }
  }

  lemma {:induction false} CommasNone(s: Id)
    ensures Commas(s) == 0 <==> COMMA !in s
  {
    if s != [] {
      CommasNone(s[..|s| - 1]);
      assert s == s[..|s| - 1] + [s[|s| - 1]];
    }
  }

  /** A stream has a comma for every id, and as many more as the ids hold. */
  lemma {:induction false} StreamCommas(ids: seq<Id>)
    ensures Commas(Stream(ids)) >= |ids|
    ensures Commas(Stream(ids)) == |ids| <==> CommaFree(ids)
  {
    if ids != [] {
      var init, last := ids[..|ids| - 1], ids[|ids| - 1];
      StreamCommas(init);
      CommasAppend(Stream(init) + last, [COMMA]);
      CommasAppend(Stream(init), last);
      CommasNone(last);
      assert ids == init + [last];
      assert [COMMA][..0] == [] && Commas([COMMA]) == 1;
    }
  }

  lemma {:induction false} StreamAppend(a: seq<Id>, b: seq<Id>)
    ensures Stream(a + b) == Stream(a) + Stream(b)
    decreases |b|
  {
    if b == [] {
      assert a + b == a;
    } else {
      var init, last := b[..|b| - 1], b[|b| - 1];
      StreamAppend(a, init);
      assert (a + b)[..|a + b| - 1] == a + init;
      assert Stream(a) + Stream(init) + last + [COMMA] == Stream(a) + (Stream(init) + last + [COMMA]);
    }
  }

  lemma {:induction false} CutAtComma(s: Id) returns (u: Id, v: Id)
    requires COMMA in s
    ensures s == u + [COMMA] + v
  {
    var i :| 0 <= i < |s| && s[i] == COMMA;
    u, v := s[..i], s[i + 1..];
  }

  /** Two ids with a comma in one of them, cut at that comma instead of at the separator. */
  lemma {:induction false} OtherCut(x: Id, y: Id) returns (x': Id, y': Id)
    requires COMMA in x || COMMA in y
    ensures x' + [COMMA] + y' == x + [COMMA] + y && |x'| != |x|
  {
    if COMMA in x {
      var u, v := CutAtComma(x);
      x', y' := u, v + [COMMA] + y;
    } else {
      var u, v := CutAtComma(y);
      x', y' := x + [COMMA] + u, v;
    }
  }

  lemma {:induction false} StreamOfTwo(u: Id, v: Id)
    ensures Stream([u, v]) == u + [COMMA] + v + [COMMA]
  {
    assert [u, v][..1] == [u];
    assert [u][..0] == [];
    assert Stream([u]) == u + [COMMA];
  }

  lemma {:induction false} StreamAround(pre: seq<Id>, x: Id, y: Id, post: seq<Id>)
    ensures Stream(pre + [x, y] + post) == Stream(pre) + (x + [COMMA] + y + [COMMA]) + Stream(post)
  {
    StreamAppend(pre + [x, y], post);
    StreamAppend(pre, [x, y]);
    StreamOfTwo(x, y);
  }

  /** A list of two or more ids, one of them with a comma, shares its stream with another list. */
  lemma {:induction false} CommaCollides(a: seq<Id>) returns (b: seq<Id>)
    requires |a| > 1 && !CommaFree(a)
    ensures |b| == |a| && Stream(b) == Stream(a) && b != a
  {
    var id :| id in a && COMMA in id;
    var i :| 0 <= i < |a| && a[i] == id;
    var k := if i + 1 < |a| then i else i - 1;
    var pre, x, y, post := a[..k], a[k], a[k + 1], a[k + 2..];
    var x', y' := OtherCut(x, y);
    assert a == pre + [x, y] + post;
    b := pre + [x', y'] + post;
    assert b[k] == x' && a[k] == x;
    StreamAround(pre, x, y, post);
    StreamAround(pre, x', y', post);
  }

  lemma {:induction false} SameStream(a: seq<Id>, b: seq<Id>)
    requires CommaFree(a) || |a| == 1
    requires |b| == |a| && Stream(b) == Stream(a)
    ensures b == a
  {
    if CommaFree(a) {
      StreamCommas(a);
      StreamCommas(b);
      StreamTellsApart(a, b);
    } else {
      assert a[..0] == [] && b[..0] == [];
      assert Stream(a) == a[0] + [COMMA] && Stream(b) == b[0] + [COMMA];
      assert Stream(a)[..|a[0]|] == a[0] && Stream(b)[..|b[0]|] == b[0];
      assert |a[0]| == |b[0]|;
    }
  }

  /** Of lists in any order, sorted or not: a list has a stream of its own among the lists as long exactly
      when its ids hold no comma, or there is only one. */
  lemma {:induction false} SeparatorIsExact(a: seq<Id>)
    ensures (forall b: seq<Id> :: |b| == |a| && Stream(b) == Stream(a) ==> b == a) <==> CommaFree(a) || |a| == 1
  {
    if CommaFree(a) || |a| == 1 {
      forall b: seq<Id> | |b| == |a| && Stream(b) == Stream(a) ensures b == a {
        SameStream(a, b);
      }
    } else if |a| > 1 {
      var b := CommaCollides(a);
    }
  }

  lemma {:induction false} SortOfTwo(u: Id, v: Id)
    requires IdLe(u, v)
    ensures Sort(IdLe, [u, v]) == [u, v]
  {
    assert [u, v][1..] == [v] && [v][1..] == [];
    assert Sort(IdLe, [v]) == [v];
  }

  /** A comma in an id defeats it, even at the same count: "x,y","z" and "x","y,z" share a key. */
  lemma {:induction false} CommasCollide(x: Unit, y: Unit, z: Unit)
    requires x < y && x < z
    ensures KeyOf([[x, COMMA, y], [z]]) == KeyOf([[x], [y, COMMA, z]])
    ensures [[x, COMMA, y], [z]] != [[x], [y, COMMA, z]]
  {
    var a: Id, b: Id, c: Id, d: Id := [x, COMMA, y], [z], [x], [y, COMMA, z];
    SortOfTwo(a, b);
    SortOfTwo(c, d);
    StreamOfTwo(a, b);
    StreamOfTwo(c, d);
    assert a + [COMMA] + b + [COMMA] == c + [COMMA] + d + [COMMA];
    assert |a| != |c|;
  }
}
