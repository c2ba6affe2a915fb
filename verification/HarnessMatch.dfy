/** The suggestion for a mistyped harness kind (agents/harness-selector.tsx): Ratcliff/Obershelp
    matching and the closest known kind. */
module HarnessMatch {
  import opened Prelude

  /** A common block: `size` characters at `ai` in the first string and at `bi` in the second. */
  datatype Block = Block(size: nat, ai: nat, bi: nat)

  /** How far the strings agree from `i` and `j` on. */
  function Extent(a: Text, b: Text, i: nat, j: nat): nat
    decreases |a| - i
  {
    if i < |a| && j < |b| && a[i] == b[j] then 1 + Extent(a, b, i + 1, j + 1) else 0
  }

  function Better(a: Text, b: Text, best: Block, i: nat, j: nat): Block {
    if Extent(a, b, i, j) > best.size then Block(Extent(a, b, i, j), i, j) else best
  }

  /** The best block after the first `j` positions of row `i`. */
  function ScanRow(a: Text, b: Text, best: Block, i: nat, j: nat): Block {
    if j == 0 then best else Better(a, b, ScanRow(a, b, best, i, j - 1), i, j - 1)
  }

  /** The best block after the first `i` rows. */
  function ScanRows(a: Text, b: Text, i: nat): Block {
    if i == 0 then Block(0, 0, 0) else ScanRow(a, b, ScanRows(a, b, i - 1), i - 1, |b|)
  }

  function LongestBlock(a: Text, b: Text): Block {
    ScanRows(a, b, |a|)
  }

  predicate IsBlock(a: Text, b: Text, t: Block) {
    t.ai + t.size <= |a| && t.bi + t.size <= |b| && a[t.ai..t.ai + t.size] == b[t.bi..t.bi + t.size]
  }

  /** `s` starts earlier in the first string, or at the same place there and earlier in the second. */
  predicate Earlier(s: Block, t: Block) {
    s.ai < t.ai || (s.ai == t.ai && s.bi <= t.bi)
  }

  /** No common block is longer, and none of the same length starts earlier. */
  ghost predicate IsLongest(a: Text, b: Text, t: Block) {
    && IsBlock(a, b, t)
    && forall s :: IsBlock(a, b, s) ==> s.size <= t.size && (s.size == t.size ==> Earlier(t, s))
  }

  lemma {:induction false} ExtentIsBlock(a: Text, b: Text, i: nat, j: nat)
    requires i <= |a| && j <= |b|
    ensures IsBlock(a, b, Block(Extent(a, b, i, j), i, j))
    decreases |a| - i
  {
    if i < |a| && j < |b| && a[i] == b[j] {
      ExtentIsBlock(a, b, i + 1, j + 1);
      var n := Extent(a, b, i + 1, j + 1);
      assert a[i..i + 1 + n] == [a[i]] + a[i + 1..i + 1 + n];
      assert b[j..j + 1 + n] == [b[j]] + b[j + 1..j + 1 + n];
    }
  }

  lemma {:induction false} BlockInExtent(a: Text, b: Text, t: Block)
    requires IsBlock(a, b, t)
    ensures t.size <= Extent(a, b, t.ai, t.bi)
    decreases t.size
  {
    if t.size > 0 {
      var s, u := a[t.ai..t.ai + t.size], b[t.bi..t.bi + t.size];
      assert s[0] == u[0] && s[1..] == u[1..];
      assert a[t.ai + 1..t.ai + t.size] == s[1..] && b[t.bi + 1..t.bi + t.size] == u[1..];
      BlockInExtent(a, b, Block(t.size - 1, t.ai + 1, t.bi + 1));
    }
  }

  /** Position (`i`, `j`) does not beat `t`. */
  predicate Beaten(a: Text, b: Text, t: Block, i: nat, j: nat) {
    var n := Extent(a, b, i, j);
    n <= t.size && (n == t.size && n > 0 ==> Earlier(t, Block(n, i, j)))
  }

  /** `t` is a block, and the best one that starts before row `i`, or in row `i` before column `j`. */
  ghost predicate BestBefore(a: Text, b: Text, t: Block, i: nat, j: nat) {
    && IsBlock(a, b, t)
    && (t.size == 0 ==> t.ai == 0 && t.bi == 0)
    && (t.size > 0 ==> t.ai < i || (t.ai == i && t.bi < j))
    && forall p: nat, q: nat :: p < i || (p == i && q < j) ==> Beaten(a, b, t, p, q)
  }

  lemma {:induction false} BetterBeats(a: Text, b: Text, t: Block, i: nat, j: nat, p: nat, q: nat)
    requires Beaten(a, b, t, p, q) || (p == i && q == j && (t.size > 0 ==> Earlier(t, Block(t.size, i, j))))
    requires p < i || (p == i && q <= j)
    ensures Beaten(a, b, Better(a, b, t, i, j), p, q)
  {
  }

  lemma {:induction false} BetterIsBest(a: Text, b: Text, t: Block, i: nat, j: nat)
    requires i < |a| && j < |b| && BestBefore(a, b, t, i, j)
    ensures BestBefore(a, b, Better(a, b, t, i, j), i, j + 1)
  {
    ExtentIsBlock(a, b, i, j);
    forall p: nat, q: nat | p < i || (p == i && q < j + 1) ensures Beaten(a, b, Better(a, b, t, i, j), p, q) {
      BetterBeats(a, b, t, i, j, p, q);
    }
  }

  lemma {:induction false} ScanRowIsBest(a: Text, b: Text, best: Block, i: nat, j: nat)
    requires i < |a| && j <= |b| && BestBefore(a, b, best, i, 0)
    ensures BestBefore(a, b, ScanRow(a, b, best, i, j), i, j)
  {
    if j > 0 {
      ScanRowIsBest(a, b, best, i, j - 1);
      BetterIsBest(a, b, ScanRow(a, b, best, i, j - 1), i, j - 1);
    }
  }

  lemma {:induction false} ScanRowsIsBest(a: Text, b: Text, i: nat)
    requires i <= |a|
    ensures BestBefore(a, b, ScanRows(a, b, i), i, 0)
  {
    if i > 0 {
      ScanRowsIsBest(a, b, i - 1);
      ScanRowIsBest(a, b, ScanRows(a, b, i - 1), i - 1, |b|);
      forall p: nat, q: nat | p < i ensures Beaten(a, b, ScanRows(a, b, i), p, q) {
        assert p < i - 1 || (p == i - 1 && q < |b|) ==> Beaten(a, b, ScanRows(a, b, i), p, q);
      }
    }
  }

  /** The block found is the longest, and among those the earliest. */
  lemma {:induction false} LongestBlockIsLongest(a: Text, b: Text)
    ensures IsLongest(a, b, LongestBlock(a, b))
  {
    var t := LongestBlock(a, b);
    ScanRowsIsBest(a, b, |a|);
    forall s | IsBlock(a, b, s) ensures s.size <= t.size && (s.size == t.size ==> Earlier(t, s)) {
      BlockInExtent(a, b, s);
      if s.size > 0 { assert Beaten(a, b, t, s.ai, s.bi); }
    }
  }

  lemma {:induction false} SameLongest(a: Text, b: Text, s: Block, t: Block)
    requires IsLongest(a, b, s) && IsLongest(a, b, t)
    ensures s.size == t.size && (s.size > 0 ==> s == t)
  {
    assert IsBlock(a, b, s) && IsBlock(a, b, t);
  }

  lemma {:induction false} BlockHead(a: Text, b: Text, t: Block)
    requires IsBlock(a, b, t) && t.size > 0
    ensures a[t.ai] == b[t.bi]
    ensures t.size > 1 ==> a[t.ai + 1] == b[t.bi + 1]
  {
    var s, u := a[t.ai..t.ai + t.size], b[t.bi..t.bi + t.size];
    assert s[0] == u[0];
    assert t.size > 1 ==> s[1] == u[1];
  }

  lemma {:induction false} SharedBlock(a: Text, b: Text, c: int) returns (s: Block)
    requires c in a && c in b
    ensures IsBlock(a, b, s) && s.size == 1
  {
    var i :| 0 <= i < |a| && a[i] == c;
    var j :| 0 <= j < |b| && b[j] == c;
    assert a[i..i + 1] == [c] && b[j..j + 1] == [c];
    s := Block(1, i, j);
  }

  /** There is a block to choose exactly when a character is shared. */
  lemma {:induction false} SharingHasBlock(a: Text, b: Text, t: Block)
    requires IsLongest(a, b, t)
    ensures t.size == 0 <==> forall x :: x in a ==> x !in b
  {
    if t.size > 0 {
      BlockHead(a, b, t);
      assert a[t.ai] in a && b[t.bi] in b;
    }
    if x :| x in a && x in b {
      var s := SharedBlock(a, b, x);
      assert s.size <= t.size;
    }
  }

  // ---------- The recursion ----------

  /** The blocks that the recursion chooses. */
  datatype Choices = Nothing | Chosen(block: Block, left: Choices, right: Choices)

  function Size(c: Choices): nat {
    match c
    case Nothing => 0
    case Chosen(t, left, right) => t.size + Size(left) + Size(right)
  }

  /** At every level the block chosen is the longest, and the earliest of its length; below, nothing is
      shared. */
  ghost predicate AreChoices(a: Text, b: Text, c: Choices)
    decreases c
  {
    match c
    case Nothing => forall x :: x in a ==> x !in b
    case Chosen(t, left, right) =>
      && t.size > 0 && IsLongest(a, b, t)
      && AreChoices(a[..t.ai], b[..t.bi], left)
      && AreChoices(a[t.ai + t.size..], b[t.bi + t.size..], right)
  }

  lemma {:induction false} ChoosingJoins(a: Text, b: Text, t: Block, left: Choices, right: Choices, al: Text,
      bl: Text, ar: Text, br: Text)
    requires IsLongest(a, b, t) && t.size > 0
    requires al == a[..t.ai] && ar == a[t.ai + t.size..] && bl == b[..t.bi] && br == b[t.bi + t.size..]
    requires AreChoices(al, bl, left) && AreChoices(ar, br, right)
    ensures AreChoices(a, b, Chosen(t, left, right))
  {
  }

  lemma {:induction false} ChoicesExist(a: Text, b: Text)
    ensures exists c :: AreChoices(a, b, c)
    decreases |a|
  {
    var t := LongestBlock(a, b);
    LongestBlockIsLongest(a, b);
    SharingHasBlock(a, b, t);
    if t.size == 0 {
      assert AreChoices(a, b, Nothing);
    } else {
      ChoosingExists(a, b, t);
    }
  }

  lemma {:induction false} ChoosingExists(a: Text, b: Text, t: Block)
    requires IsLongest(a, b, t) && t.size > 0
    ensures exists c :: AreChoices(a, b, c)
    decreases |a|, 0
  {
    var al, bl, ar, br := a[..t.ai], b[..t.bi], a[t.ai + t.size..], b[t.bi + t.size..];
    ChoicesExist(al, bl);
    ChoicesExist(ar, br);
    var left :| AreChoices(al, bl, left);
    var right :| AreChoices(ar, br, right);
    ChoosingJoins(a, b, t, left, right, al, bl, ar, br);
  }

  lemma {:induction false} SameFirstChoice(a: Text, b: Text, c: Choices, d: Choices)
    requires AreChoices(a, b, c) && AreChoices(a, b, d)
    ensures if c.Chosen? then d.Chosen? && d.block == c.block else d.Nothing?
  {
    if c.Chosen? { SharingHasBlock(a, b, c.block); }
    if d.Chosen? { SharingHasBlock(a, b, d.block); }
    if c.Chosen? && d.Chosen? { SameLongest(a, b, c.block, d.block); }
  }

  /** The choices for the two sides of the block. */
  lemma {:induction false} Sides(a: Text, b: Text, c: Choices, t: Block, al: Text, bl: Text, ar: Text, br: Text)
    requires AreChoices(a, b, c) && c.Chosen? && c.block == t
    requires t.ai + t.size <= |a| && al == a[..t.ai] && ar == a[t.ai + t.size..]
    requires t.bi + t.size <= |b| && bl == b[..t.bi] && br == b[t.bi + t.size..]
    ensures AreChoices(al, bl, c.left) && AreChoices(ar, br, c.right)
  {
  }

  lemma {:induction false} ChoiceFits(a: Text, b: Text, c: Choices)
    requires AreChoices(a, b, c) && c.Chosen?
    ensures c.block.ai + c.block.size <= |a| && c.block.bi + c.block.size <= |b|
  {
  }

  /** The strings determine the choices. */
  lemma {:induction false} ChoicesAreUnique(a: Text, b: Text, c: Choices, d: Choices)
    requires AreChoices(a, b, c) && AreChoices(a, b, d)
    ensures c == d
    decreases c
  {
    SameFirstChoice(a, b, c, d);
    if c.Chosen? {
      var t := c.block;
      ChoiceFits(a, b, c);
      var al, bl, ar, br := a[..t.ai], b[..t.bi], a[t.ai + t.size..], b[t.bi + t.size..];
      Sides(a, b, c, t, al, bl, ar, br);
      Sides(a, b, d, t, al, bl, ar, br);
      ChoicesAreUnique(al, bl, c.left, d.left);
      ChoicesAreUnique(ar, br, c.right, d.right);
    }
  }

  /** Ratcliff/Obershelp matching: the total size of the blocks chosen. */
  ghost function Matching(a: Text, b: Text): nat {
    ChoicesExist(a, b);
    var c :| AreChoices(a, b, c);
    Size(c)
  }

  lemma {:induction false} ChoicesGiveValue(a: Text, b: Text, c: Choices)
    requires AreChoices(a, b, c)
    ensures Matching(a, b) == Size(c)
  {
    ChoicesExist(a, b);
    forall d | AreChoices(a, b, d) ensures d == c {
      ChoicesAreUnique(a, b, c, d);
    }
  }

  /** The number is determined by the longest block alone: its size, and what each side gives. */
  lemma {:induction false} MatchAt(a: Text, b: Text, t: Block)
    requires IsLongest(a, b, t) && t.size > 0
    ensures Matching(a, b) == t.size + Matching(a[..t.ai], b[..t.bi]) + Matching(a[t.ai + t.size..], b[t.bi + t.size..])
  {
    var al, bl, ar, br := a[..t.ai], b[..t.bi], a[t.ai + t.size..], b[t.bi + t.size..];
    ChoicesExist(al, bl);
    ChoicesExist(ar, br);
    var left :| AreChoices(al, bl, left);
    var right :| AreChoices(ar, br, right);
    ChoicesGiveValue(al, bl, left);
    ChoicesGiveValue(ar, br, right);
    ChoosingJoins(a, b, t, left, right, al, bl, ar, br);
    ChoicesGiveValue(a, b, Chosen(t, left, right));
  }

  /** The nested loops: the longest block, the earliest of its length. */
  method FindBlock(a: Text, b: Text) returns (size: nat, ai: nat, bi: nat)
    ensures IsLongest(a, b, Block(size, ai, bi))
  {
    size, ai, bi := 0, 0, 0;
    for i := 0 to |a|
      invariant Block(size, ai, bi) == ScanRows(a, b, i)
    {
      for j := 0 to |b|
        invariant Block(size, ai, bi) == ScanRow(a, b, ScanRows(a, b, i), i, j)
      {
        var k := 0;
        while i + k < |a| && j + k < |b| && a[i + k] == b[j + k]
          invariant k + Extent(a, b, i + k, j + k) == Extent(a, b, i, j)
          decreases |a| - k
        {
          k := k + 1;
        }
        if k > size { size, ai, bi := k, i, j; }
      }
    }
    LongestBlockIsLongest(a, b);
  }

  method MatchingChars(a: Text, b: Text) returns (n: nat)
    ensures n == Matching(a, b)
    decreases |a|
  {
    var size, ai, bi := FindBlock(a, b);
    if size == 0 {
      SharingHasBlock(a, b, Block(size, ai, bi));
      ChoicesGiveValue(a, b, Nothing);
      return 0;
    }
    MatchAt(a, b, Block(size, ai, bi));
    var left := MatchingChars(a[..ai], b[..bi]);
    var right := MatchingChars(a[ai + size..], b[bi + size..]);
    return size + left + right;
  }

  // ---------- Common subsequences ----------

  predicate IsSubsequence(s: Text, t: Text) {
    s == [] || (t != [] && ((s[0] == t[0] && IsSubsequence(s[1..], t[1..])) || IsSubsequence(s, t[1..])))
  }

  lemma {:induction false} SubsequenceSelf(s: Text)
    ensures IsSubsequence(s, s)
  {
    if s != [] { SubsequenceSelf(s[1..]); }
  }

  lemma {:induction false} SubsequenceAppend(s: Text, t: Text, u: Text, v: Text)
    requires IsSubsequence(s, t) && IsSubsequence(u, v)
    ensures IsSubsequence(s + u, t + v)
    decreases |t|
  {
    if t == [] {
      assert s + u == u && t + v == v;
    } else {
      assert (t + v)[0] == t[0] && (t + v)[1..] == t[1..] + v;
      if s == [] {
        SubsequenceAppend(s, t[1..], u, v);
      } else {
        assert (s + u)[0] == s[0] && (s + u)[1..] == s[1..] + u;
        if s[0] == t[0] && IsSubsequence(s[1..], t[1..]) {
          SubsequenceAppend(s[1..], t[1..], u, v);
        } else {
          SubsequenceAppend(s, t[1..], u, v);
        }
      }
    }
  }

  lemma {:induction false} SubsequenceLength(s: Text, t: Text)
    requires IsSubsequence(s, t)
    ensures |s| <= |t|
    ensures |s| == |t| ==> s == t
    decreases |t|
  {
    if s != [] {
      if s[0] == t[0] && IsSubsequence(s[1..], t[1..]) {
        SubsequenceLength(s[1..], t[1..]);
        assert s == [s[0]] + s[1..] && t == [t[0]] + t[1..];
      } else {
        SubsequenceLength(s, t[1..]);
      }
    }
  }

  lemma {:induction false} ThreeParts(s: Text, u: Text, left: Text, block: Text, right: Text)
    requires IsSubsequence(s, left) && IsSubsequence(u, right)
    ensures IsSubsequence(s + block + u, left + block + right)
  {
    SubsequenceSelf(block);
    SubsequenceAppend(s, left, block, block);
    SubsequenceAppend(s + block, left + block, u, right);
  }

  lemma {:induction false} CommonParts(a: Text, b: Text, t: Block, left: Text, right: Text)
    requires IsBlock(a, b, t)
    requires IsSubsequence(left, a[..t.ai]) && IsSubsequence(left, b[..t.bi])
    requires IsSubsequence(right, a[t.ai + t.size..]) && IsSubsequence(right, b[t.bi + t.size..])
    ensures IsSubsequence(left + a[t.ai..t.ai + t.size] + right, a)
    ensures IsSubsequence(left + a[t.ai..t.ai + t.size] + right, b)
  {
    var block := a[t.ai..t.ai + t.size];
    ThreeParts(left, right, a[..t.ai], block, a[t.ai + t.size..]);
    ThreeParts(left, right, b[..t.bi], block, b[t.bi + t.size..]);
    assert a == a[..t.ai] + block + a[t.ai + t.size..];
    assert b == b[..t.bi] + block + b[t.bi + t.size..];
  }

  /** The characters of the blocks chosen, in order. */
  function Picked(a: Text, c: Choices): Text
    decreases c
  {
    match c
    case Nothing => []
    case Chosen(t, left, right) =>
      if t.ai + t.size > |a| then []
      else Picked(a[..t.ai], left) + a[t.ai..t.ai + t.size] + Picked(a[t.ai + t.size..], right)
  }

  lemma {:induction false} PickedLevel(a: Text, b: Text, t: Block, left: Text, right: Text, c: Choices)
    requires IsBlock(a, b, t) && c.Chosen? && c.block == t
    requires Picked(a[..t.ai], c.left) == left && Picked(a[t.ai + t.size..], c.right) == right
    ensures Picked(a, c) == left + a[t.ai..t.ai + t.size] + right
  {
  }

  lemma {:induction false} PickedIsCommon(a: Text, b: Text, c: Choices)
    requires AreChoices(a, b, c)
    ensures |Picked(a, c)| == Size(c)
    ensures IsSubsequence(Picked(a, c), a) && IsSubsequence(Picked(a, c), b)
    decreases c
  {
    if c.Chosen? {
      var t := c.block;
      var al, bl, ar, br := a[..t.ai], b[..t.bi], a[t.ai + t.size..], b[t.bi + t.size..];
      PickedIsCommon(al, bl, c.left);
      PickedIsCommon(ar, br, c.right);
      CommonParts(a, b, t, Picked(al, c.left), Picked(ar, c.right));
      PickedLevel(a, b, t, Picked(al, c.left), Picked(ar, c.right), c);
    }
  }

  /** The value is the length of a common subsequence of the two strings: the blocks chosen. */
  lemma {:induction false} MatchedIsCommon(a: Text, b: Text) returns (s: Text)
    ensures |s| == Matching(a, b)
    ensures IsSubsequence(s, a) && IsSubsequence(s, b)
  {
    ChoicesExist(a, b);
    var c :| AreChoices(a, b, c);
    ChoicesGiveValue(a, b, c);
    PickedIsCommon(a, b, c);
    s := Picked(a, c);
  }

  lemma {:induction false} MatchingZero(a: Text, b: Text)
    ensures Matching(a, b) == 0 <==> forall x :: x in a ==> x !in b
  {
    ChoicesExist(a, b);
    var c :| AreChoices(a, b, c);
    ChoicesGiveValue(a, b, c);
    if c.Chosen? { SharingHasBlock(a, b, c.block); }
  }

  lemma {:induction false} MatchingSelf(a: Text)
    ensures Matching(a, a) == |a|
  {
    if a == [] {
      MatchingZero(a, a);
    } else {
      var t := Block(|a|, 0, 0);
      assert IsLongest(a, a, t);
      MatchAt(a, a, t);
      MatchingZero(a[..0], a[..0]);
      MatchingZero(a[|a|..], a[|a|..]);
    }
  }

  /** At most the shorter length; zero exactly when no character is shared; all of both strings
      exactly when they are equal. */
  lemma {:induction false} MatchingBounds(a: Text, b: Text)
    ensures Matching(a, b) <= |a| && Matching(a, b) <= |b|
    ensures Matching(a, b) == 0 <==> forall c :: c in a ==> c !in b
    ensures 2 * Matching(a, b) == |a| + |b| <==> a == b
  {
    var s := MatchedIsCommon(a, b);
    SubsequenceLength(s, a);
    SubsequenceLength(s, b);
    MatchingZero(a, b);
    if a == b { MatchingSelf(a); }
  }

  // ---------- The order of the two strings ----------

  /** The same blocks, seen from the second string. */
  function Mirrored(c: Choices): Choices {
    match c
    case Nothing => Nothing
    case Chosen(t, left, right) => Chosen(Block(t.size, t.bi, t.ai), Mirrored(left), Mirrored(right))
  }

  lemma {:induction false} MirroredSize(c: Choices)
    ensures Size(Mirrored(c)) == Size(c)
  {
    if c.Chosen? {
      MirroredSize(c.left);
      MirroredSize(c.right);
    }
  }

  /** The order of the strings matters only where it changes a choice: if the same blocks are the choices
      both ways, the value is the same. */
  lemma {:induction false} SameChoicesSymmetric(a: Text, b: Text, c: Choices)
    requires AreChoices(a, b, c) && AreChoices(b, a, Mirrored(c))
    ensures Matching(a, b) == Matching(b, a) == Size(c)
  {
    ChoicesGiveValue(a, b, c);
    ChoicesGiveValue(b, a, Mirrored(c));
    MirroredSize(c);
  }

  function Mirror(t: Block): Block { Block(t.size, t.bi, t.ai) }

  /** No common block of the length of `t` starts before it in either string. */
  ghost predicate FirstInBoth(a: Text, b: Text, t: Block) {
    forall s :: IsBlock(a, b, s) && s.size == t.size ==> t.ai <= s.ai && t.bi <= s.bi
  }

  /** At every level one of the longest common blocks comes first in both strings; so it is wherever
      there is only one of the greatest length. */
  ghost predicate FirstThroughout(a: Text, b: Text)
    decreases |a|, 1
  {
    exists t :: IsLongest(a, b, t) && FirstFrom(a, b, t)
  }

  ghost predicate FirstFrom(a: Text, b: Text, t: Block)
    requires IsLongest(a, b, t)
    decreases |a|, 0
  {
    t.size == 0 ||
    (&& FirstInBoth(a, b, t)
     && FirstThroughout(a[..t.ai], b[..t.bi])
     && FirstThroughout(a[t.ai + t.size..], b[t.bi + t.size..]))
  }

  lemma {:induction false} FirstIsFrom(a: Text, b: Text, t: Block)
    requires IsLongest(a, b, t) && t.size > 0
    ensures FirstThroughout(a, b) <==> FirstFrom(a, b, t)
  {
    if FirstThroughout(a, b) {
      var u :| IsLongest(a, b, u) && FirstFrom(a, b, u);
      SameLongest(a, b, t, u);
    }
  }

  lemma {:induction false} MirrorLongest(a: Text, b: Text, t: Block)
    requires IsLongest(a, b, t)
    ensures IsLongest(b, a, Mirror(t)) <==> FirstInBoth(a, b, t)
  {
    forall s | IsBlock(a, b, s) ensures IsBlock(b, a, Mirror(s)) {
    }
    forall s | IsBlock(b, a, s) ensures IsBlock(a, b, Mirror(s)) {
    }
  }

  lemma {:induction false} FromSides(a: Text, b: Text, t: Block, al: Text, bl: Text, ar: Text, br: Text)
    requires IsLongest(a, b, t) && t.size > 0
    requires al == a[..t.ai] && ar == a[t.ai + t.size..] && bl == b[..t.bi] && br == b[t.bi + t.size..]
    ensures FirstFrom(a, b, t) <==> FirstInBoth(a, b, t) && FirstThroughout(al, bl) && FirstThroughout(ar, br)
  {
  }

  lemma {:induction false} MirroredSides(a: Text, b: Text, c: Choices, t: Block, al: Text, bl: Text, ar: Text, br: Text)
    requires c.Chosen? && c.block == t && IsLongest(a, b, t) && t.size > 0
    requires al == a[..t.ai] && ar == a[t.ai + t.size..] && bl == b[..t.bi] && br == b[t.bi + t.size..]
    ensures AreChoices(b, a, Mirrored(c)) <==>
      IsLongest(b, a, Mirror(t)) && AreChoices(bl, al, Mirrored(c.left)) && AreChoices(br, ar, Mirrored(c.right))
  {
  }

  lemma {:induction false} MirroredStep(a: Text, b: Text, c: Choices, t: Block, al: Text, bl: Text, ar: Text, br: Text)
    requires c.Chosen? && c.block == t && IsLongest(a, b, t) && t.size > 0
    requires al == a[..t.ai] && ar == a[t.ai + t.size..] && bl == b[..t.bi] && br == b[t.bi + t.size..]
    requires AreChoices(bl, al, Mirrored(c.left)) <==> FirstThroughout(al, bl)
    requires AreChoices(br, ar, Mirrored(c.right)) <==> FirstThroughout(ar, br)
    ensures AreChoices(b, a, Mirrored(c)) <==> FirstThroughout(a, b)
  {
    MirrorLongest(a, b, t);
    FirstIsFrom(a, b, t);
    FromSides(a, b, t, al, bl, ar, br);
    MirroredSides(a, b, c, t, al, bl, ar, br);
  }

  lemma {:induction false} NothingIsFirst(a: Text, b: Text)
    requires forall x :: x in a ==> x !in b
    ensures FirstThroughout(a, b)
  {
    var t := LongestBlock(a, b);
    LongestBlockIsLongest(a, b);
    SharingHasBlock(a, b, t);
    assert IsLongest(a, b, t) && FirstFrom(a, b, t);
  }

  lemma {:induction false} ChosenIsLongest(a: Text, b: Text, c: Choices)
    requires AreChoices(a, b, c) && c.Chosen?
    ensures IsLongest(a, b, c.block) && c.block.size > 0
  {
  }

  /** The choices for the swapped strings are the same blocks exactly when, at every level, the longest
      block is first in both strings. */
  lemma {:induction false} MirroredIsFirst(a: Text, b: Text, c: Choices)
    requires AreChoices(a, b, c)
    ensures AreChoices(b, a, Mirrored(c)) <==> FirstThroughout(a, b)
    decreases c
  {
    if c.Nothing? {
      NothingIsFirst(a, b);
    } else {
      var t := c.block;
      ChoiceFits(a, b, c);
      ChosenIsLongest(a, b, c);
      var al, bl, ar, br := a[..t.ai], b[..t.bi], a[t.ai + t.size..], b[t.bi + t.size..];
      Sides(a, b, c, t, al, bl, ar, br);
      MirroredIsFirst(al, bl, c.left);
      MirroredIsFirst(ar, br, c.right);
      MirroredStep(a, b, c, t, al, bl, ar, br);
    }
  }

  /** Where that is so, the order of the two strings does not matter. */
  lemma {:induction false} MatchingIsSymmetric(a: Text, b: Text)
    requires FirstThroughout(a, b)
    ensures Matching(a, b) == Matching(b, a)
  {
    ChoicesExist(a, b);
    var c :| AreChoices(a, b, c);
    MirroredIsFirst(a, b, c);
    SameChoicesSymmetric(a, b, c);
  }

  lemma {:induction false} SingleIsLongest(a: Text, b: Text, t: Block)
    requires t.size == 1 && t.ai < |a| && t.bi < |b| && a[t.ai] == b[t.bi]
    requires forall i, j :: 0 <= i < |a| && 0 <= j < |b| && a[i] == b[j] ==>
      Earlier(t, Block(1, i, j)) && (i + 1 < |a| && j + 1 < |b| ==> a[i + 1] != b[j + 1])
    ensures IsLongest(a, b, t)
  {
    forall s | IsBlock(a, b, s) ensures s.size <= 1 && (s.size == 1 ==> Earlier(t, s)) {
      if s.size > 0 { BlockHead(a, b, s); }
    }
    assert a[t.ai..t.ai + 1] == b[t.bi..t.bi + 1];
  }

  lemma {:induction false} OneWayRest()
    ensures Matching([2], [3, 2]) == 1
  {
    var a, b, t := [2], [3, 2], Block(1, 0, 1);
    SingleIsLongest(a, b, t);
    MatchAt(a, b, t);
    MatchingZero(a[..t.ai], b[..t.bi]);
    MatchingZero(a[1..], b[2..]);
  }

  lemma {:induction false} OneWay()
    ensures Matching([1, 2], [2, 1, 3, 2]) == 2
  {
    var a, b, t := [1, 2], [2, 1, 3, 2], Block(1, 0, 1);
    SingleIsLongest(a, b, t);
    MatchAt(a, b, t);
    MatchingZero(a[..t.ai], b[..t.bi]);
    OneWayRest();
    assert a[1..] == [2] && b[2..] == [3, 2];
  }

  lemma {:induction false} OtherWay()
    ensures Matching([2, 1, 3, 2], [1, 2]) == 1
  {
    var a, b, t := [2, 1, 3, 2], [1, 2], Block(1, 0, 1);
    SingleIsLongest(a, b, t);
    MatchAt(a, b, t);
    MatchingZero(a[..t.ai], b[..t.bi]);
    MatchingZero(a[1..], b[2..]);
  }

  /** The measure is not symmetric: `ab` against `bacb` matches two characters, the other way round one. */
  lemma {:induction false} MatchingIsNotSymmetric()
    ensures Matching([1, 2], [2, 1, 3, 2]) == 2
    ensures Matching([2, 1, 3, 2], [1, 2]) == 1
  {
    OneWay();
    OtherWay();
  }

  // ---------- The closest kind ----------

  /** `2 * matching / (typed + candidate)`; two empty strings have no ratio. */
  predicate HasRatio(typed: Text, candidate: Text) {
    |typed| + |candidate| > 0
  }

  ghost function Ratio(typed: Text, candidate: Text): real
    requires HasRatio(typed, candidate)
  {
    (2 * Matching(candidate, typed)) as real / (|typed| + |candidate|) as real
  }

  ghost predicate Suggestible(typed: Text, candidate: Text) {
    HasRatio(typed, candidate) && Ratio(typed, candidate) >= 0.6
  }

  ghost predicate IsBestAt(typed: Text, known: seq<Text>, i: nat)
    requires i < |known|
  {
    && Suggestible(typed, known[i])
    && forall j :: 0 <= j < |known| && HasRatio(typed, known[j]) ==>
         && Ratio(typed, known[j]) <= Ratio(typed, known[i])
         && (j > i ==> Ratio(typed, known[j]) < Ratio(typed, known[i]))
  }

  /** The best suggestible candidate, the last one on a tie; nothing if there is none. */
  ghost predicate IsClosest(typed: Text, known: seq<Text>, best: Option<Text>) {
    match best
    case None => forall i :: 0 <= i < |known| ==> !Suggestible(typed, known[i])
    case Some(c) => exists i :: 0 <= i < |known| && known[i] == c && IsBestAt(typed, known, i)
  }

  /** `typed` is the kind in lower case. */
  method ClosestKind(typed: Text, known: seq<Text>) returns (best: Option<Text>)
    ensures IsClosest(typed, known, best)
  {
    best := None;
    var bestRatio := 0.6;
    ghost var at: nat := 0;
    for i := 0 to |known|
      invariant best.None? ==> bestRatio == 0.6 && forall j :: 0 <= j < i ==> !Suggestible(typed, known[j])
      invariant best.Some? ==>
        at < i && known[at] == best.value && Suggestible(typed, known[at]) && bestRatio == Ratio(typed, known[at])
      invariant best.Some? ==> forall j :: 0 <= j < i && HasRatio(typed, known[j]) ==>
        Ratio(typed, known[j]) <= bestRatio
      invariant best.Some? ==> forall j :: at < j < i && HasRatio(typed, known[j]) ==>
        Ratio(typed, known[j]) < bestRatio
    {
      var candidate := known[i];
      if |typed| + |candidate| == 0 { continue; }
      var m := MatchingChars(candidate, typed);
      var ratio := (2 * m) as real / (|typed| + |candidate|) as real;
      if ratio >= bestRatio {
        best, bestRatio := Some(candidate), ratio;
        at := i;
      }
    }
    if best.Some? { assert IsBestAt(typed, known, at); }
  }

  lemma {:induction false} SignOfProduct(q: real, n: real)
    requires n > 0.0
    ensures q < 0.0 <==> q * n < 0.0
    ensures q > 0.0 <==> q * n > 0.0
  {
  }

  lemma {:induction false} QuotientOf(m: real, n: real, q: real)
    requires 0.0 <= m <= n && n > 0.0 && q * n == m
    ensures 0.0 <= q <= 1.0
    ensures q == 1.0 <==> m == n
  {
    SignOfProduct(q, n);
    SignOfProduct(q - 1.0, n);
    assert (q - 1.0) * n == m - n;
  }

  lemma {:induction false} Quotient(m: nat, n: nat)
    requires m <= n && n > 0
    ensures 0.0 <= m as real / n as real <= 1.0
    ensures m as real / n as real == 1.0 <==> m == n
  {
    QuotientOf(m as real, n as real, m as real / n as real);
  }

  /** The ratio is at most one, and one exactly for the same non-empty string. */
  lemma {:induction false} RatioIsOne(typed: Text, candidate: Text)
    requires HasRatio(typed, candidate)
    ensures 0.0 <= Ratio(typed, candidate) <= 1.0
    ensures Ratio(typed, candidate) == 1.0 <==> candidate == typed
  {
    MatchingBounds(candidate, typed);
    Quotient(2 * Matching(candidate, typed), |typed| + |candidate|);
  }
}
