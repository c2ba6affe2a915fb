/** Text layout on the terrain map (live-trace/terrain-map.tsx): greedy wrapping of a description and
    the two-line clamp of a node label. Lengths are in UTF-16 code units, as in the source. */
module LabelWrap {
  import opened Prelude

  const SPACE := 0x20
  const ELLIPSIS := 0x2026

  /** `\s` */
  predicate IsSpace(c: int) {
    0x09 <= c <= 0x0D || c == SPACE || c == 0xA0 || c == 0x1680 || 0x2000 <= c <= 0x200A ||
    c == 0x2028 || c == 0x2029 || c == 0x202F || c == 0x205F || c == 0x3000 || c == 0xFEFF
  }

  function NonSpaceOne(c: int): Text {
    if IsSpace(c) then [] else [c]
  }

  function NonSpace(s: Text): Text {
    if s == [] then [] else NonSpaceOne(s[0]) + NonSpace(s[1..])
  }

  /** How many characters come before the first space. */
  function WordLength(s: Text): (n: nat)
    ensures n <= |s|
    ensures forall i :: 0 <= i < n ==> !IsSpace(s[i])
    ensures n < |s| ==> IsSpace(s[n])
  {
    if s == [] || IsSpace(s[0]) then 0 else 1 + WordLength(s[1..])
  }

  /** `text.split(/\s+/).filter(Boolean)` */
  function Words(s: Text): seq<Text> {
    if s == [] then []
    else if IsSpace(s[0]) then Words(s[1..])
    else [s[..WordLength(s)]] + Words(s[WordLength(s)..])
  }

  predicate IsWord(w: Text) {
    w != [] && forall i :: 0 <= i < |w| ==> !IsSpace(w[i])
  }

  lemma {:induction false} NonSpaceWord(w: Text)
    requires forall i :: 0 <= i < |w| ==> !IsSpace(w[i])
    ensures NonSpace(w) == w
  {
    if w != [] { NonSpaceWord(w[1..]); }
  }

  lemma {:induction false} NonSpaceAppend(a: Text, b: Text)
    ensures NonSpace(a + b) == NonSpace(a) + NonSpace(b)
  {
    if a == [] {
      assert a + b == b;
    } else {
      assert (a + b)[0] == a[0] && (a + b)[1..] == a[1..] + b;
      NonSpaceAppend(a[1..], b);
      Regroup(NonSpaceOne(a[0]), NonSpace(a[1..]), NonSpace(b));
    }
  }

  /** A word in front of a text. */
  lemma {:induction false} NonSpaceAfter(word: Text, rest: Text)
    requires forall i :: 0 <= i < |word| ==> !IsSpace(word[i])
    ensures NonSpace(word + rest) == word + NonSpace(rest)
  {
    NonSpaceWord(word);
    NonSpaceAppend(word, rest);
  }

  lemma {:induction false} WordsOfWord(s: Text)
    requires s != [] && !IsSpace(s[0])
    ensures var n := WordLength(s);
      && IsWord(s[..n]) && Words(s) == [s[..n]] + Words(s[n..])
      && NonSpace(s) == s[..n] + NonSpace(s[n..])
  {
    var n := WordLength(s);
    NonSpaceAfter(s[..n], s[n..]);
    assert s == s[..n] + s[n..];
  }

  lemma {:induction false} WordsOfSpace(s: Text)
    requires s != [] && IsSpace(s[0])
    ensures Words(s) == Words(s[1..]) && NonSpace(s) == NonSpace(s[1..])
  {
  }

  lemma {:induction false} ConcatCons(w: Text, words: seq<Text>)
    ensures Concat([w] + words) == w + Concat(words)
  {
    assert ([w] + words)[1..] == words;
  }

  /** Splitting gives non-empty words without spaces and loses nothing but spaces. */
  lemma {:induction false} WordsHoldAll(s: Text)
    ensures forall w :: w in Words(s) ==> IsWord(w)
    ensures Concat(Words(s)) == NonSpace(s)
    decreases |s|
  {
    if s != [] {
      if IsSpace(s[0]) {
        WordsHoldAll(s[1..]);
        WordsOfSpace(s);
      } else {
        var n := WordLength(s);
        WordsOfWord(s);
        WordsHoldAll(s[n..]);
        ConcatCons(s[..n], Words(s[n..]));
        assert forall w :: w in [s[..n]] + Words(s[n..]) ==> w == s[..n] || w in Words(s[n..]);
      }
    }
  }

  // ---------- Wrapping ----------

  /** The words of one line, with single spaces between them. */
  function Join(words: seq<Text>): Text {
    if words == [] then []
    else if |words| == 1 then words[0]
    else Join(words[..|words| - 1]) + [SPACE] + words[|words| - 1]
  }

  function Joined(lines: seq<seq<Text>>): (r: seq<Text>)
    ensures |r| == |lines| && forall i :: 0 <= i < |r| ==> r[i] == Join(lines[i])
  {
    seq(|lines|, i requires 0 <= i < |lines| => Join(lines[i]))
  }

  /** The next word would not fit on the line. */
  predicate Overflows(line: seq<Text>, next: Text, maxLen: nat) {
    |Join(line)| + 1 + |next| > maxLen
  }

  ghost predicate BreaksLateAt(lines: seq<seq<Text>>, maxLen: nat, i: nat)
    requires 0 < i < |lines|
  {
    lines[i] != [] && Overflows(lines[i - 1], lines[i][0], maxLen)
  }

  ghost predicate BreaksLate(lines: seq<seq<Text>>, maxLen: nat) {
    forall i :: 0 < i < |lines| ==> BreaksLateAt(lines, maxLen, i)
  }

  /** `lines` hold the words in order, none is empty, and each break comes only where the next word
      would not fit. */
  ghost predicate IsGreedyWrap(words: seq<Text>, maxLen: nat, lines: seq<seq<Text>>) {
    && Concat(lines) == words
    && (forall l :: l in lines ==> l != [])
    && (forall l :: l in lines ==> |l| > 1 ==> |Join(l)| <= maxLen)
    && BreaksLate(lines, maxLen)
  }

  /** `lines` are the text of a greedy wrap of the words. */
  ghost predicate GreedyLines(words: seq<Text>, maxLen: nat, lines: seq<Text>) {
    exists groups :: IsGreedyWrap(words, maxLen, groups) && lines == Joined(groups)
  }

  lemma {:induction false} JoinOneMore(line: seq<Text>, w: Text)
    requires line != []
    ensures Join(line + [w]) == Join(line) + [SPACE] + w
  {
    assert (line + [w])[..|line|] == line;
  }

  lemma {:induction false} LongerLine(words: seq<Text>, maxLen: nat, groups: seq<seq<Text>>, line: seq<Text>, w: Text)
    requires line != [] && IsGreedyWrap(words, maxLen, groups + [line]) && |Join(line + [w])| <= maxLen
    ensures IsGreedyWrap(words + [w], maxLen, groups + [line + [w]])
  {
    var a, b := groups + [line], groups + [line + [w]];
    ConcatAppend(groups, [line]);
    ConcatAppend(groups, [line + [w]]);
    assert Concat([line]) == line && Concat([line + [w]]) == line + [w] by {
      assert [line][1..] == [] && [line + [w]][1..] == [];
    }
    forall i | 0 < i < |b| ensures BreaksLateAt(b, maxLen, i) {
      assert BreaksLateAt(a, maxLen, i);
    }
    forall l | l in b ensures l != [] && (|l| > 1 ==> |Join(l)| <= maxLen) {
      assert l in a || l == line + [w];
    }
  }

  /** A word that does not fit the last line starts a new one. */
  lemma {:induction false} NewLine(words: seq<Text>, maxLen: nat, groups: seq<seq<Text>>, w: Text)
    requires IsGreedyWrap(words, maxLen, groups)
    requires groups != [] ==> Overflows(groups[|groups| - 1], w, maxLen)
    ensures IsGreedyWrap(words + [w], maxLen, groups + [[w]])
    ensures Join([w]) == w
  {
    var b := groups + [[w]];
    ConcatAppend(groups, [[w]]);
    assert Concat([[w]]) == [w] by { assert [[w]][1..] == []; }
    forall i | 0 < i < |b| ensures BreaksLateAt(b, maxLen, i) {
      if i < |groups| { assert BreaksLateAt(groups, maxLen, i); }
    }
  }

  /** `groups`, and `line` if it has begun, wrap `pieces`; before a line has begun, the last one is
      full. */
  ghost predicate Wrapping(pieces: seq<Text>, maxLen: nat, groups: seq<seq<Text>>, line: seq<Text>) {
    if line == [] then IsGreedyWrap(pieces, maxLen, groups) && (groups != [] ==> |Join(groups[|groups| - 1])| >= maxLen)
    else IsGreedyWrap(pieces, maxLen, groups + [line])
  }

  /** `lines` and `cur` are the text of `groups` and `line`. */
  ghost predicate Spells(lines: seq<Text>, cur: Text, groups: seq<seq<Text>>, line: seq<Text>) {
    lines == Joined(groups) && cur == Join(line) && (cur == [] <==> line == [])
  }

  lemma {:induction false} OnFreshLine(lines: seq<Text>, w: Text, maxLen: nat, words: seq<Text>, groups: seq<seq<Text>>)
    requires w != [] && Spells(lines, [], groups, []) && Wrapping(words, maxLen, groups, [])
    ensures Spells(lines, w, groups, [w]) && Wrapping(words + [w], maxLen, groups, [w])
  {
    NewLine(words, maxLen, groups, w);
  }

  lemma {:induction false} OnThisLine(lines: seq<Text>, cur: Text, w: Text, maxLen: nat, words: seq<Text>,
      groups: seq<seq<Text>>, line: seq<Text>)
    requires cur != [] && |cur + [SPACE] + w| <= maxLen
    requires Spells(lines, cur, groups, line) && Wrapping(words, maxLen, groups, line)
    ensures Spells(lines, cur + [SPACE] + w, groups, line + [w]) && Wrapping(words + [w], maxLen, groups, line + [w])
  {
    JoinOneMore(line, w);
    LongerLine(words, maxLen, groups, line, w);
  }

  lemma {:induction false} OnNextLine(lines: seq<Text>, cur: Text, w: Text, maxLen: nat, words: seq<Text>,
      groups: seq<seq<Text>>, line: seq<Text>)
    requires cur != [] && w != [] && |cur + [SPACE] + w| > maxLen
    requires Spells(lines, cur, groups, line) && Wrapping(words, maxLen, groups, line)
    ensures Spells(lines + [cur], w, groups + [line], [w]) && Wrapping(words + [w], maxLen, groups + [line], [w])
  {
    NewLine(words, maxLen, groups + [line], w);
  }

  lemma {:induction false} LastLine(lines: seq<Text>, cur: Text, maxLen: nat, words: seq<Text>,
      groups: seq<seq<Text>>, line: seq<Text>)
    requires Spells(lines, cur, groups, line) && Wrapping(words, maxLen, groups, line)
    ensures GreedyLines(words, maxLen, if cur != [] then lines + [cur] else lines)
  {
    var all := if cur != [] then groups + [line] else groups;
    assert IsGreedyWrap(words, maxLen, all);
    assert Joined(all) == if cur != [] then lines + [cur] else lines;
  }

  method WrapText(text: Text, maxLen: nat) returns (lines: seq<Text>)
    ensures GreedyLines(Words(text), maxLen, lines)
  {
    var words := Words(text);
    WordsHoldAll(text);
    lines := [];
    ghost var groups: seq<seq<Text>> := [];
    var cur: Text := [];
    ghost var line: seq<Text> := [];
    for i := 0 to |words|
      invariant Spells(lines, cur, groups, line) && Wrapping(words[..i], maxLen, groups, line)
      invariant line == [] ==> groups == []
    {
      var w := words[i];
      assert words[..i + 1] == words[..i] + [w];
      assert IsWord(w);
      if |cur| == 0 {
        OnFreshLine(lines, w, maxLen, words[..i], groups);
        cur, line := w, [w];
      } else if |cur + [SPACE] + w| <= maxLen {
        OnThisLine(lines, cur, w, maxLen, words[..i], groups, line);
        cur, line := cur + [SPACE] + w, line + [w];
      } else {
        OnNextLine(lines, cur, w, maxLen, words[..i], groups, line);
        lines, cur, groups, line := lines + [cur], w, groups + [line], [w];
      }
    }
    assert words[..|words|] == words;
    LastLine(lines, cur, maxLen, words, groups, line);
    if |cur| > 0 { lines := lines + [cur]; }
  }

  // ---------- Greedy wrapping is optimal ----------

  /** How many words the first `k` lines hold. */
  function Held(lines: seq<seq<Text>>, k: nat): nat
    requires k <= |lines|
  {
    if k == 0 then 0 else Held(lines, k - 1) + |lines[k - 1]|
  }

  lemma {:induction false} ConcatOne(line: seq<Text>)
    ensures Concat([line]) == line
  {
    assert [line][1..] == [];
  }

  lemma {:induction false} ConcatSplit(lines: seq<seq<Text>>, k: nat)
    requires k <= |lines|
    ensures Concat(lines) == Concat(lines[..k]) + Concat(lines[k..])
    ensures k < |lines| ==> Concat(lines[..k + 1]) == Concat(lines[..k]) + lines[k]
  {
    assert lines == lines[..k] + lines[k..];
    ConcatAppend(lines[..k], lines[k..]);
    if k < |lines| {
      assert lines[..k + 1] == lines[..k] + [lines[k]];
      ConcatAppend(lines[..k], [lines[k]]);
      ConcatOne(lines[k]);
    }
  }

  lemma {:induction false} HeldIsLength(lines: seq<seq<Text>>, k: nat)
    requires k <= |lines|
    ensures |Concat(lines[..k])| == Held(lines, k)
  {
    if k > 0 {
      HeldIsLength(lines, k - 1);
      ConcatSplit(lines, k - 1);
    }
  }

  /** The first `k` lines hold the first words, and line `k` the words after those. */
  lemma {:induction false} HeldIsPrefix(lines: seq<seq<Text>>, k: nat)
    requires k <= |lines|
    ensures Held(lines, k) <= |Concat(lines)|
    ensures Held(lines, |lines|) == |Concat(lines)|
    ensures k < |lines| ==> Held(lines, k + 1) <= |Concat(lines)|
    ensures k < |lines| ==> lines[k] == Concat(lines)[Held(lines, k)..Held(lines, k + 1)]
  {
    HeldIsLength(lines, k);
    HeldIsLength(lines, |lines|);
    assert lines[..|lines|] == lines;
    ConcatSplit(lines, k);
    if k < |lines| {
      HeldIsLength(lines, k + 1);
      ConcatSplit(lines, k + 1);
    }
  }

  /** Leaving words off either end never makes a line longer. */
  lemma {:induction false} JoinOfFront(words: seq<Text>, lo: nat, hi: nat)
    requires lo <= hi < |words|
    ensures words[..|words| - 1][lo..hi] == words[lo..hi]
    ensures |Join(words[..|words| - 1])| <= |Join(words)|
  {
  }

  lemma {:induction false} JoinWithoutFirst(words: seq<Text>)
    requires words != []
    ensures |Join(words[1..])| <= |Join(words)|
  {
    if |words| > 2 {
      JoinWithoutFirst(words[..|words| - 1]);
      assert words[1..][..|words| - 2] == words[..|words| - 1][1..];
    }
  }

  lemma {:induction false} JoinShorter(words: seq<Text>, lo: nat, hi: nat)
    requires lo <= hi <= |words|
    ensures |Join(words[lo..hi])| <= |Join(words)|
    decreases |words|
  {
    if hi < |words| {
      JoinShorter(words[..|words| - 1], lo, hi);
      JoinOfFront(words, lo, hi);
    } else if lo > 0 {
      JoinWithoutFirst(words);
      JoinShorter(words[1..], lo - 1, hi - 1);
      assert words[1..] == words[1..|words|];
      SliceOfSlice(words, 1, |words|, lo - 1, hi - 1);
    } else {
      assert words[lo..hi] == words;
    }
  }

  /** A line that covers a greedy line and the word after it does not fit. */
  lemma {:induction false} TooMuchOnALine(words: seq<Text>, maxLen: nat, a: nat, b: nat, lo: nat, hi: nat)
    requires a <= lo < hi < b <= |words|
    requires Overflows(words[lo..hi], words[hi], maxLen)
    ensures |Join(words[a..b])| > maxLen
  {
    JoinOneMore(words[lo..hi], words[hi]);
    assert words[lo..hi] + [words[hi]] == words[lo..hi + 1];
    JoinShorter(words[a..b], lo - a, hi + 1 - a);
    SliceOfSlice(words, a, b, lo - a, hi + 1 - a);
    assert words[a..b][lo - a..hi + 1 - a] == words[lo..hi + 1];
  }

  /** After every line, greedy wrapping has placed at least as many words as any wrapping that fits. */
  lemma {:induction false} GreedyIsAhead(words: seq<Text>, maxLen: nat, lines: seq<seq<Text>>, other: seq<seq<Text>>,
      k: nat)
    requires IsGreedyWrap(words, maxLen, lines) && Concat(other) == words
    requires forall l :: l in other ==> |Join(l)| <= maxLen
    requires k <= |lines| && k <= |other|
    ensures Held(other, k) <= Held(lines, k)
  {
    if k > 0 {
      GreedyIsAhead(words, maxLen, lines, other, k - 1);
      HeldIsPrefix(lines, k - 1);
      HeldIsPrefix(other, k - 1);
      if k < |lines| {
        HeldIsPrefix(lines, k);
        assert BreaksLateAt(lines, maxLen, k);
        assert lines[k][0] == words[Held(lines, k)];
        assert other[k - 1] in other && lines[k - 1] in lines;
        if Held(other, k) > Held(lines, k) {
          TooMuchOnALine(words, maxLen, Held(other, k - 1), Held(other, k), Held(lines, k - 1), Held(lines, k));
        }
      } else {
        HeldIsPrefix(lines, k);
      }
    }
  }

  /** Greedy wrapping uses the fewest lines: no wrapping whose lines all fit has fewer. */
  lemma {:induction false} GreedyIsOptimal(words: seq<Text>, maxLen: nat, lines: seq<seq<Text>>, other: seq<seq<Text>>)
    requires IsGreedyWrap(words, maxLen, lines) && Concat(other) == words
    requires forall l :: l in other ==> |Join(l)| <= maxLen
    ensures |lines| <= |other|
  {
    if |other| < |lines| {
      assert lines[|other|] in lines;
      GreedyIsAhead(words, maxLen, lines, other, |other|);
      HeldIsPrefix(other, |other|);
      HeldIsPrefix(lines, |other|);
    }
  }

  /** And its own lines all fit, when every word does. */
  lemma {:induction false} GreedyFits(words: seq<Text>, maxLen: nat, lines: seq<seq<Text>>)
    requires IsGreedyWrap(words, maxLen, lines)
    requires forall w :: w in words ==> |w| <= maxLen
    ensures forall l :: l in lines ==> |Join(l)| <= maxLen
  {
    forall l | l in lines ensures |Join(l)| <= maxLen {
      if |l| == 1 {
        var k :| 0 <= k < |lines| && lines[k] == l;
        HeldIsPrefix(lines, k);
        assert l[0] == words[Held(lines, k)];
      }
    }
  }

  // ---------- The two-line clamp ----------

  const LABEL_MAX_LINES := 2
  const LABEL_GUTTER := 10.0
  const LABEL_CHAR_W := 6.6

  function MaxChars(slotW: real): nat {
    Max(4, ((slotW - LABEL_GUTTER) / LABEL_CHAR_W).Floor)
  }

  /** `trimmed.replace(/\s+$/, "")` */
  function TrimEnd(s: Text): (r: Text)
    ensures |r| <= |s| && r == s[..|r|]
    ensures forall i :: |r| <= i < |s| ==> IsSpace(s[i])
    ensures r != [] ==> !IsSpace(r[|r| - 1])
  {
    if s != [] && IsSpace(s[|s| - 1]) then TrimEnd(s[..|s| - 1]) else s
  }

  /** A word cut into pieces of `n` characters, the last one possibly shorter. */
  function Chop(w: Text, n: nat): seq<Text>
    requires n > 0
  {
    if |w| <= n then [w] else [w[..n]] + Chop(w[n..], n)
  }

  function ChopAll(words: seq<Text>, n: nat): seq<Text>
    requires n > 0
  {
    if words == [] then [] else ChopAll(words[..|words| - 1], n) + Chop(words[|words| - 1], n)
  }

  /** Close the current line, if any, and put a full piece on a line of its own. */
  method CutLine(lines0: seq<Text>, cur0: Text, piece: Text, maxLen: nat, ghost pieces: seq<Text>,
      ghost groups0: seq<seq<Text>>, ghost line0: seq<Text>)
    returns (lines: seq<Text>, ghost groups: seq<seq<Text>>)
    requires |piece| == maxLen > 0
    requires Spells(lines0, cur0, groups0, line0) && Wrapping(pieces, maxLen, groups0, line0)
    ensures Spells(lines, [], groups, []) && Wrapping(pieces + [piece], maxLen, groups, [])
  {
    lines, groups := lines0, groups0;
    if cur0 != [] {
      lines, groups := lines + [cur0], groups + [line0];
    }
    NewLine(pieces, maxLen, groups, piece);
    lines, groups := lines + [piece], groups + [[piece]];
  }

  lemma {:induction false} ChopStep(cut: seq<Text>, w: Text, n: nat)
    requires 0 < n < |w|
    ensures cut + [w[..n]] + Chop(w[n..], n) == cut + Chop(w, n)
  {
    Regroup(cut, [w[..n]], Chop(w[n..], n));
  }

  /** Cut a word that is too long into full lines; what is left fits. */
  method BreakWord(lines0: seq<Text>, cur0: Text, word: Text, maxLen: nat, ghost pieces: seq<Text>,
      ghost groups0: seq<seq<Text>>, ghost line0: seq<Text>)
    returns (lines: seq<Text>, cur: Text, w: Text, ghost cut: seq<Text>, ghost groups: seq<seq<Text>>,
      ghost line: seq<Text>)
    requires maxLen > 0 && word != []
    requires Spells(lines0, cur0, groups0, line0) && Wrapping(pieces, maxLen, groups0, line0)
    ensures Spells(lines, cur, groups, line) && Wrapping(pieces + cut, maxLen, groups, line)
    ensures cut + [w] == Chop(word, maxLen) && 0 < |w| <= maxLen
  {
    lines, cur, w, cut, groups, line := lines0, cur0, word, [], groups0, line0;
    assert pieces + cut == pieces;
    while |w| > maxLen
      invariant w != [] && cut + Chop(w, maxLen) == Chop(word, maxLen)
      invariant Spells(lines, cur, groups, line) && Wrapping(pieces + cut, maxLen, groups, line)
      decreases |w|
    {
      ChopStep(cut, w, maxLen);
      lines, groups := CutLine(lines, cur, w[..maxLen], maxLen, pieces + cut, groups, line);
      Regroup(pieces, cut, [w[..maxLen]]);
      cut := cut + [w[..maxLen]];
      cur, line, w := [], [], w[maxLen..];
    }
  }

  /** Add a word that fits a line, on this line if there is room. */
  method PlaceWord(lines0: seq<Text>, cur0: Text, w: Text, maxLen: nat, ghost pieces: seq<Text>,
      ghost groups0: seq<seq<Text>>, ghost line0: seq<Text>)
    returns (lines: seq<Text>, cur: Text, ghost groups: seq<seq<Text>>, ghost line: seq<Text>)
    requires 0 < |w| <= maxLen
    requires Spells(lines0, cur0, groups0, line0) && Wrapping(pieces, maxLen, groups0, line0)
    ensures Spells(lines, cur, groups, line) && Wrapping(pieces + [w], maxLen, groups, line) && cur != []
  {
    if cur0 == [] {
      OnFreshLine(lines0, w, maxLen, pieces, groups0);
      return lines0, w, groups0, [w];
    } else if |cur0 + [SPACE] + w| <= maxLen {
      OnThisLine(lines0, cur0, w, maxLen, pieces, groups0, line0);
      return lines0, cur0 + [SPACE] + w, groups0, line0 + [w];
    } else {
      OnNextLine(lines0, cur0, w, maxLen, pieces, groups0, line0);
      return lines0 + [cur0], w, groups0 + [line0], [w];
    }
  }

  lemma {:induction false} ChopOneMore(words: seq<Text>, i: nat, n: nat)
    requires i < |words| && n > 0
    ensures ChopAll(words[..i + 1], n) == ChopAll(words[..i], n) + Chop(words[i], n)
  {
    assert words[..i + 1][..i] == words[..i];
  }

  /** All the lines of a label, before the clamp: the greedy wrap of its chopped words. */
  method LabelLines(text: Text, maxLen: nat) returns (lines: seq<Text>)
    requires maxLen > 0
    ensures GreedyLines(ChopAll(Words(text), maxLen), maxLen, lines)
  {
    var words := Words(text);
    WordsHoldAll(text);
    lines := [];
    ghost var groups: seq<seq<Text>> := [];
    var cur: Text := [];
    ghost var line: seq<Text> := [];
    for i := 0 to |words|
      invariant Spells(lines, cur, groups, line) && Wrapping(ChopAll(words[..i], maxLen), maxLen, groups, line)
    {
      assert words[i] in words;
      ghost var pieces := ChopAll(words[..i], maxLen);
      var w;
      ghost var cut;
      lines, cur, w, cut, groups, line := BreakWord(lines, cur, words[i], maxLen, pieces, groups, line);
      lines, cur, groups, line := PlaceWord(lines, cur, w, maxLen, pieces + cut, groups, line);
      Regroup(pieces, cut, [w]);
      ChopOneMore(words, i, maxLen);
    }
    assert words[..|words|] == words;
    LastLine(lines, cur, maxLen, ChopAll(words, maxLen), groups, line);
    if cur != [] { lines := lines + [cur]; }
  }

  // ---------- The wrap is determined ----------

  lemma {:induction false} GreedyTail(words: seq<Text>, maxLen: nat, lines: seq<seq<Text>>)
    requires IsGreedyWrap(words, maxLen, lines) && lines != []
    ensures |lines[0]| <= |words| && lines[0] == words[..|lines[0]|]
    ensures IsGreedyWrap(words[|lines[0]|..], maxLen, lines[1..])
    ensures |lines[0]| < |words| ==> |lines| > 1 && Overflows(lines[0], words[|lines[0]|], maxLen)
  {
    var rest := lines[1..];
    assert words == lines[0] + Concat(rest);
    assert forall l :: l in rest ==> l in lines;
    forall i | 0 < i < |rest| ensures BreaksLateAt(rest, maxLen, i) {
      assert BreaksLateAt(lines, maxLen, i + 1);
    }
    if |lines[0]| < |words| {
      assert rest != [];
      assert BreaksLateAt(lines, maxLen, 1);
      assert Concat(rest)[0] == rest[0][0];
    }
  }

  lemma {:induction false} FirstLineIsLongest(words: seq<Text>, maxLen: nat, a: seq<seq<Text>>, b: seq<seq<Text>>)
    requires IsGreedyWrap(words, maxLen, a) && IsGreedyWrap(words, maxLen, b) && a != [] && b != []
    ensures |b[0]| <= |a[0]|
  {
    GreedyTail(words, maxLen, a);
    GreedyTail(words, maxLen, b);
    var k, m := |a[0]|, |b[0]|;
    assert a[0] in a && b[0] in b;
    if k < m {
      assert words[0..k] == a[0] && words[0..m] == b[0];
      TooMuchOnALine(words, maxLen, 0, m, 0, k);
    }
  }

  lemma {:induction false} NoWordsNoLines(words: seq<Text>, maxLen: nat, lines: seq<seq<Text>>)
    requires IsGreedyWrap(words, maxLen, lines)
    ensures lines == [] <==> words == []
  {
    if lines != [] { assert lines[0] in lines; }
  }

  /** The words and the width determine the lines. */
  lemma {:induction false} GreedyIsUnique(words: seq<Text>, maxLen: nat, a: seq<seq<Text>>, b: seq<seq<Text>>)
    requires IsGreedyWrap(words, maxLen, a) && IsGreedyWrap(words, maxLen, b)
    ensures a == b
    decreases |words|
  {
    NoWordsNoLines(words, maxLen, a);
    NoWordsNoLines(words, maxLen, b);
    if words != [] {
      FirstLineIsLongest(words, maxLen, a, b);
      FirstLineIsLongest(words, maxLen, b, a);
      GreedyTail(words, maxLen, a);
      GreedyTail(words, maxLen, b);
      assert a[0] in a;
      GreedyIsUnique(words[|a[0]|..], maxLen, a[1..], b[1..]);
      assert a == [a[0]] + a[1..] && b == [b[0]] + b[1..];
    }
  }

  // ---------- What the label lines hold ----------

  lemma {:induction false} ChopHoldsAll(w: Text, n: nat)
    requires n > 0
    ensures Concat(Chop(w, n)) == w
    ensures forall p :: p in Chop(w, n) ==> |p| <= n
    ensures IsWord(w) ==> forall p :: p in Chop(w, n) ==> IsWord(p)
    decreases |w|
  {
    if |w| <= n {
      assert [w][1..] == [];
    } else {
      ChopHoldsAll(w[n..], n);
      assert w == w[..n] + w[n..];
      ConcatAppend([w[..n]], Chop(w[n..], n));
      assert [w[..n]][1..] == [];
    }
  }

  lemma {:induction false} ChopAllHoldsAll(words: seq<Text>, n: nat)
    requires n > 0 && forall w :: w in words ==> IsWord(w)
    ensures Concat(ChopAll(words, n)) == Concat(words)
    ensures forall p :: p in ChopAll(words, n) ==> |p| <= n && IsWord(p)
  {
    if words != [] {
      var front, last := words[..|words| - 1], words[|words| - 1];
      assert words == front + [last];
      ChopAllHoldsAll(front, n);
      ChopHoldsAll(last, n);
      ConcatAppend(ChopAll(front, n), Chop(last, n));
      ConcatAppend(front, [last]);
      assert [last][1..] == [];
    }
  }

  lemma {:induction false} NonSpaceSingle(c: int)
    ensures NonSpace([c]) == NonSpaceOne(c)
  {
    assert [c][1..] == [];
  }

  lemma {:induction false} NonSpaceOn(line: Text, c: int, word: Text)
    requires IsSpace(c) && forall i :: 0 <= i < |word| ==> !IsSpace(word[i])
    ensures NonSpace(line + [c] + word) == NonSpace(line) + word
  {
    NonSpaceWord(word);
    NonSpaceSingle(c);
    NonSpaceAppend(line, [c]);
    NonSpaceAppend(line + [c], word);
  }

  lemma {:induction false} ConcatPush(words: seq<Text>, w: Text)
    ensures Concat(words + [w]) == Concat(words) + w
  {
    ConcatAppend(words, [w]);
    assert [w][1..] == [];
  }

  lemma {:induction false} NonSpaceJoin(line: seq<Text>)
    requires forall w :: w in line ==> IsWord(w)
    ensures NonSpace(Join(line)) == Concat(line)
  {
    if |line| == 1 {
      assert line[0] in line;
      NonSpaceWord(line[0]);
      assert line[1..] == [];
    } else if |line| > 1 {
      var front, last := line[..|line| - 1], line[|line| - 1];
      assert line == front + [last] && last in line;
      NonSpaceJoin(front);
      NonSpaceOn(Join(front), SPACE, last);
      ConcatPush(front, last);
    }
  }

  /** The lines hold exactly the characters of the words, between spaces. */
  lemma {:induction false} NonSpaceLines(groups: seq<seq<Text>>)
    requires forall w :: w in Concat(groups) ==> IsWord(w)
    ensures NonSpace(Concat(Joined(groups))) == Concat(Concat(groups))
  {
    if groups != [] {
      var rest := groups[1..];
      assert Concat(groups) == groups[0] + Concat(rest);
      NonSpaceLines(rest);
      NonSpaceJoin(groups[0]);
      assert Joined(groups)[1..] == Joined(rest);
      NonSpaceAppend(Join(groups[0]), Concat(Joined(rest)));
      ConcatAppend(groups[0], Concat(rest));
    }
  }

  /** Every line is non-empty and fits. */
  ghost predicate LinesFit(lines: seq<Text>, maxChars: nat) {
    forall i :: 0 <= i < |lines| ==> 0 < |lines[i]| <= maxChars
  }

  lemma {:induction false} LineOfWords(groups: seq<seq<Text>>, i: nat)
    requires i < |groups|
    ensures forall w :: w in groups[i] ==> w in Concat(groups)
  {
    if i > 0 { LineOfWords(groups[1..], i - 1); }
  }

  lemma {:induction false} JoinIsLong(line: seq<Text>)
    requires line != [] && forall w :: w in line ==> w != []
    ensures |Join(line)| > 0
  {
    assert line[|line| - 1] in line;
  }

  /** Greedy wrapping of chopped words: every line fits, and nothing but spaces is lost. */
  lemma {:induction false} LabelLinesHoldAll(text: Text, maxLen: nat, lines: seq<Text>)
    requires maxLen > 0 && GreedyLines(ChopAll(Words(text), maxLen), maxLen, lines)
    ensures LinesFit(lines, maxLen)
    ensures NonSpace(Concat(lines)) == NonSpace(text)
  {
    var pieces := ChopAll(Words(text), maxLen);
    var groups :| IsGreedyWrap(pieces, maxLen, groups) && lines == Joined(groups);
    WordsHoldAll(text);
    ChopAllHoldsAll(Words(text), maxLen);
    NonSpaceLines(groups);
    GreedyFits(pieces, maxLen, groups);
    forall i | 0 <= i < |groups| ensures 0 < |Join(groups[i])| <= maxLen {
      assert groups[i] in groups;
      LineOfWords(groups, i);
      JoinIsLong(groups[i]);
    }
  }

  /** `clamped` are the lines shown for the full lines `all`. */
  ghost predicate IsClamp(all: seq<Text>, maxChars: nat, clamped: seq<Text>, truncated: bool)
    requires maxChars > 0
  {
    && (truncated <==> |all| > LABEL_MAX_LINES)
    && (!truncated ==> clamped == all)
    && (truncated ==>
         && |clamped| == LABEL_MAX_LINES
         && clamped[0] == all[0]
         && clamped[1] == TrimEnd(all[1][..Min(|all[1]|, maxChars - 1)]) + [ELLIPSIS])
  }

  /** `lines` are what is shown of some greedy wrap of the chopped words. */
  ghost predicate ClampsLabel(text: Text, maxChars: nat, lines: seq<Text>, truncated: bool)
    requires maxChars > 0
  {
    exists all :: GreedyLines(ChopAll(Words(text), maxChars), maxChars, all) && IsClamp(all, maxChars, lines, truncated)
  }

  /** At most two lines, none longer than the budget; nothing but spaces is lost unless the result
      says so. */
  method ClampLabel(text: Text, slotW: real) returns (lines: seq<Text>, truncated: bool)
    ensures ClampsLabel(text, MaxChars(slotW), lines, truncated)
    ensures |lines| <= LABEL_MAX_LINES && LinesFit(lines, MaxChars(slotW))
    ensures !truncated ==> NonSpace(Concat(lines)) == NonSpace(text)
  {
    var maxChars := MaxChars(slotW);
    var full := LabelLines(text, maxChars);
    LabelLinesHoldAll(text, maxChars, full);
    if |full| <= LABEL_MAX_LINES {
      assert IsClamp(full, maxChars, full, false);
      return full, false;
    }
    var kept := full[..LABEL_MAX_LINES];
    var last := kept[LABEL_MAX_LINES - 1];
    var trimmed := if |last| > maxChars - 1 then last[..Max(1, maxChars - 1)] else last;
    assert trimmed == last[..Min(|last|, maxChars - 1)];
    lines := kept[LABEL_MAX_LINES - 1 := TrimEnd(trimmed) + [ELLIPSIS]];
    truncated := true;
    assert IsClamp(full, maxChars, lines, true);
  }
}
