/** Words, pieces and labels by their characters (live-trace/terrain-map.tsx). */
module LabelByChars {
  import opened Prelude
  import opened LabelWrap

  /** The white space of the engine, one by one: that of section 12.2 of ECMA-262 and the line terminators. */
  predicate Blank(c: int) {
    c in {
      0x09, 0x0A, 0x0B, 0x0C, 0x0D, 0x20, 0xA0, 0x1680,
      0x2000, 0x2001, 0x2002, 0x2003, 0x2004, 0x2005, 0x2006, 0x2007, 0x2008, 0x2009, 0x200A,
      0x2028, 0x2029, 0x202F, 0x205F, 0x3000, 0xFEFF}
  }

  lemma {:induction false} BlankIs()
    ensures forall c :: Blank(c) <==> IsSpace(c)
  {
  }

  predicate AllBlank(s: Text) { forall i :: 0 <= i < |s| ==> Blank(s[i]) }
  predicate Solid(s: Text) { s != [] && forall i :: 0 <= i < |s| ==> !Blank(s[i]) }

  /** The words with these gaps before, between and after them. */
  function Spread(words: seq<Text>, gaps: seq<Text>): Text
    requires |gaps| == |words| + 1
  {
    if words == [] then gaps[0] else gaps[0] + (words[0] + Spread(words[1..], gaps[1..]))
  }

  ghost predicate WellSpread(words: seq<Text>, gaps: seq<Text>) {
    && |gaps| == |words| + 1
    && (forall i :: 0 <= i < |words| ==> Solid(words[i]))
    && (forall i :: 0 <= i < |gaps| ==> AllBlank(gaps[i]))
    && forall i :: 0 < i < |words| ==> gaps[i] != []
  }

  lemma {:induction false} WordsAfterGap(gap: Text, rest: Text)
    requires AllBlank(gap)
    ensures Words(gap + rest) == Words(rest)
  {
    BlankIs();
    if gap == [] {
      assert gap + rest == rest;
    } else {
      WordsAfterGap(gap[1..], rest);
      assert (gap + rest)[1..] == gap[1..] + rest;
    }
  }

  lemma {:induction false} LengthIs(word: Text, rest: Text)
    requires forall i :: 0 <= i < |word| ==> !IsSpace(word[i])
    requires rest == [] || IsSpace(rest[0])
    ensures WordLength(word + rest) == |word|
  {
    if word == [] {
      assert word + rest == rest;
    } else {
      assert (word + rest)[1..] == word[1..] + rest;
      LengthIs(word[1..], rest);
    }
  }

  lemma {:induction false} WordFirst(word: Text, rest: Text)
    requires Solid(word) && (rest == [] || Blank(rest[0]))
    ensures Words(word + rest) == [word] + Words(rest)
  {
    BlankIs();
    LengthIs(word, rest);
    var s := word + rest;
    assert s[..|word|] == word && s[|word|..] == rest;
  }

  lemma {:induction false} SpreadRest(words: seq<Text>, gaps: seq<Text>)
    requires WellSpread(words, gaps) && words != []
    ensures WellSpread(words[1..], gaps[1..])
    ensures var rest := Spread(words[1..], gaps[1..]); rest == [] || Blank(rest[0])
  {
    var w, g := words[1..], gaps[1..];
    forall i | 0 <= i < |w| ensures Solid(w[i]) {
      assert Solid(words[i + 1]);
    }
    forall i | 0 <= i < |g| ensures AllBlank(g[i]) {
      assert AllBlank(gaps[i + 1]);
    }
    assert forall i :: 0 < i < |w| ==> g[i] == gaps[i + 1];
    assert AllBlank(g[0]) && (w != [] ==> g[0] == gaps[1] != []);
  }

  /** The words are what stands between the gaps, whatever those are made of. */
  lemma {:induction false} WordsRead(words: seq<Text>, gaps: seq<Text>)
    requires WellSpread(words, gaps)
    ensures Words(Spread(words, gaps)) == words
  {
    if words == [] {
      WordsAfterGap(gaps[0], []);
      assert gaps[0] + [] == gaps[0];
    } else {
      var rest := Spread(words[1..], gaps[1..]);
      SpreadRest(words, gaps);
      WordsRead(words[1..], gaps[1..]);
      WordsAfterGap(gaps[0], words[0] + rest);
      WordFirst(words[0], rest);
      assert words == [words[0]] + words[1..];
    }
  }

  /** All pieces of a word but the last are `n` characters long, and together they are the word. */
  lemma {:induction false} PiecesSay(w: Text, n: nat)
    requires n > 0
    ensures var pieces := Chop(w, n);
      && pieces != [] && Concat(pieces) == w
      && (forall i :: 0 <= i < |pieces| - 1 ==> |pieces[i]| == n)
      && |pieces[|pieces| - 1]| <= n && (w != [] ==> pieces[|pieces| - 1] != [])
  {
    if |w| <= n {
      assert [w][1..] == [];
    } else {
      PiecesSay(w[n..], n);
      assert Chop(w, n)[1..] == Chop(w[n..], n);
      assert w[..n] + w[n..] == w;
    }
  }

  lemma {:induction false} AllPiecesSay(words: seq<Text>, w: Text, n: nat)
    requires n > 0
    ensures ChopAll([], n) == [] && ChopAll(words + [w], n) == ChopAll(words, n) + Chop(w, n)
  {
    assert (words + [w])[..|words|] == words;
  }

  /** Words on one line have a single space between them. */
  lemma {:induction false} LineSays(line: seq<Text>, w: Text)
    ensures Join([w]) == w && (line != [] ==> Join(line + [w]) == Join(line) + [' ' as int] + w)
  {
    if line != [] { JoinOneMore(line, w); }
  }

  lemma {:induction false} FloorOf(w: real, q: real, n: nat)
    requires q * 6.6 == w
    ensures q.Floor == n <==> n as real * 6.6 <= w < (n + 1) as real * 6.6
    ensures q.Floor <= 4 <==> w < 33.0
  {
  }

  /** As many characters as fit at 6.6 pixels each when 10 are left free, and never fewer than 4. */
  lemma {:induction false} BudgetSays(slotW: real, n: nat)
    ensures MaxChars(slotW) == n <==>
      if slotW - 10.0 < 33.0 then n == 4 else n as real * 6.6 <= slotW - 10.0 < (n + 1) as real * 6.6
  {
    FloorOf(slotW - 10.0, (slotW - 10.0) / 6.6, n);
  }

  /** What is shown of the lines: both of two, or the first and the front of the second with an ellipsis, without
      the white space before it. */
  lemma {:induction false} ClampSays(all: seq<Text>, maxChars: nat, clamped: seq<Text>, truncated: bool)
    requires maxChars > 0 && IsClamp(all, maxChars, clamped, truncated)
    ensures |all| <= 2 ==> !truncated && clamped == all
    ensures |all| > 2 ==> truncated && |clamped| == 2 && clamped[0] == all[0] && clamped[1] != []
    ensures |all| > 2 ==>
      var n := |clamped[1]| - 1;
      && clamped[1][n] == 0x2026 && n <= maxChars - 1 && clamped[1][..n] <= all[1]
      && (n > 0 ==> !Blank(clamped[1][n - 1]))
      && forall i :: n <= i < |all[1]| && i < maxChars - 1 ==> Blank(all[1][i])
  {
    BlankIs();
    if |all| > 2 {
      var cut := all[1][..Min(|all[1]|, maxChars - 1)];
      var kept := TrimEnd(cut);
      assert clamped[1] == kept + [ELLIPSIS] && clamped[1][..|kept|] == kept;
      assert forall i :: 0 <= i < |cut| ==> cut[i] == all[1][i];
    }
  }
}
