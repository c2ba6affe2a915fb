/** The patterns of the announcement grammar (announcements/markdown.tsx), each as the language it
    stands for: a recogniser accepts exactly the texts that fall into the parts its pattern names. */
module AnnouncePatterns {
  import opened Prelude
  import opened AnnounceText
  import opened AnnounceInline
  import opened AnnounceRules
  import Utf16

  ghost predicate All(s: Text, p: int -> bool) {
    forall c :: c in s ==> p(c)
  }

  lemma {:induction false} SpanAll(s: Text, p: int -> bool)
    ensures All(Span(s, p).0, p)
    ensures Span(s, p).1 == [] <==> All(s, p)
  {
    SpanInClass(s, p);
    if Span(s, p).1 == [] { assert s == Span(s, p).0; }
    if All(s, p) {
      SpanUnique(s, [], p);
      assert s + [] == s;
    }
  }

  /** A greedy run stops where the next part starts outside the class. */
  lemma {:induction false} SpanStops(front: Text, c: int, rest: Text, p: int -> bool)
    requires All(front, p) && !p(c)
    ensures Span(front + ([c] + rest), p) == (front, [c] + rest)
  {
    SpanUnique(front, [c] + rest, p);
  }

  lemma {:induction false} FirstAndRest(s: Text)
    requires s != []
    ensures s == [s[0]] + s[1..]
  {
  }

  lemma {:induction false} DropOne(c: int, rest: Text)
    ensures ([c] + rest)[0] == c && ([c] + rest)[1..] == rest
  {
  }

  // ---------- Anywhere ----------

  ghost predicate FoundAt(s: Text, at: Text -> bool, i: nat) {
    i < |s| && at(s[i..])
  }

  lemma {:induction false} FindsIs(s: Text, at: Text -> bool)
    ensures Finds(s, at) <==> exists i: nat :: FoundAt(s, at, i)
  {
    if s != [] {
      FindsIs(s[1..], at);
      assert s[0..] == s;
      if at(s) { assert FoundAt(s, at, 0); }
      if i: nat :| FoundAt(s[1..], at, i) {
        assert s[1..][i..] == s[i + 1..];
        assert FoundAt(s, at, i + 1);
      }
      if i: nat :| FoundAt(s, at, i) && i > 0 {
        assert s[1..][i - 1..] == s[i..];
        assert FoundAt(s[1..], at, i - 1);
      }
    }
  }

  // ---------- `&#?[A-Za-z0-9]+;` ----------

  ghost predicate EntityParts(s: Text, hash: Text, name: Text, rest: Text) {
    && s == [0x26] + (hash + (name + ([0x3B] + rest)))
    && hash in {[], [HASH]} && name != [] && All(name, IsAlnum)
  }

  lemma {:induction false} WithoutIs(mark: Text, c: int, rest: Text)
    requires mark in {[], [c]} && (mark == [] ==> rest == [] || rest[0] != c)
    ensures Without(mark + rest, c) == rest
  {
    assert mark == [] ==> mark + rest == rest;
  }

  lemma {:induction false} WithoutParts(s: Text, c: int) returns (mark: Text)
    ensures mark in {[], [c]} && s == mark + Without(s, c)
  {
    mark := if s != [] && s[0] == c then [c] else [];
  }

  lemma {:induction false} EntityIs(s: Text)
    ensures AtEntity(s) <==> exists hash, name, rest :: EntityParts(s, hash, name, rest)
  {
    if AtEntity(s) {
      var hash := WithoutParts(s[1..], HASH);
      var (name, end) := Span(Without(s[1..], HASH), IsAlnum);
      SpanAll(Without(s[1..], HASH), IsAlnum);
      FirstAndRest(s);
      FirstAndRest(end);
      assert EntityParts(s, hash, name, end[1..]);
    }
    if hash, name, rest :| EntityParts(s, hash, name, rest) {
      SpanStops(name, 0x3B, rest, IsAlnum);
      DropOne(0x26, hash + (name + ([0x3B] + rest)));
      assert name[0] in name && (name + ([0x3B] + rest))[0] == name[0];
      WithoutIs(hash, HASH, name + ([0x3B] + rest));
    }
  }

  // ---------- `\]S*\[` ----------

  ghost predicate ReferenceParts(s: Text, gap: Text, rest: Text) {
    s == [CLOSE] + (gap + ([OPEN] + rest)) && All(gap, IsSpace)
  }

  lemma {:induction false} ReferenceIs(s: Text)
    ensures AtReference(s) <==> exists gap, rest :: ReferenceParts(s, gap, rest)
  {
    if AtReference(s) {
      var (gap, end) := Span(s[1..], IsSpace);
      SpanAll(s[1..], IsSpace);
      FirstAndRest(s);
      FirstAndRest(end);
      assert ReferenceParts(s, gap, end[1..]);
    }
    if gap, rest :| ReferenceParts(s, gap, rest) {
      SpanStops(gap, OPEN, rest, IsSpace);
      DropOne(CLOSE, gap + ([OPEN] + rest));
    }
  }

  // ---------- `\|S*:?-{2,}:?S*\|` ----------

  /** From the dashes on. */
  ghost predicate DashParts(s: Text, dashes: Text, colon: Text, gap: Text, rest: Text) {
    && s == dashes + (colon + (gap + ([PIPE] + rest)))
    && |dashes| >= 2 && All(dashes, IsDash) && colon in {[], [COLON]} && All(gap, IsSpace)
  }

  lemma {:induction false} DashesFound(s: Text, dashes: Text, colon: Text, gap: Text, rest: Text)
    requires DashParts(s, dashes, colon, gap, rest)
    ensures AtDashes(s)
  {
    var end := gap + ([PIPE] + rest);
    assert end[0] == PIPE || (end[0] == gap[0] && gap[0] in gap);
    assert (colon + end)[0] == COLON || (colon + end)[0] == end[0];
    SpanUnique(dashes, colon + end, IsDash);
    WithoutIs(colon, COLON, end);
    SpanStops(gap, PIPE, rest, IsSpace);
  }

  lemma {:induction false} DashesAre(s: Text)
    ensures AtDashes(s) <==> exists dashes, colon, gap, rest :: DashParts(s, dashes, colon, gap, rest)
  {
    if AtDashes(s) {
      var (dashes, after) := Span(s, IsDash);
      var colon := WithoutParts(after, COLON);
      var (gap, end) := Span(Without(after, COLON), IsSpace);
      SpanAll(s, IsDash);
      SpanAll(Without(after, COLON), IsSpace);
      FirstAndRest(end);
      assert DashParts(s, dashes, colon, gap, end[1..]);
    }
    if dashes, colon, gap, rest :| DashParts(s, dashes, colon, gap, rest) {
      DashesFound(s, dashes, colon, gap, rest);
    }
  }

  ghost predicate RowParts(s: Text, gap: Text, colon: Text, row: Text) {
    s == [PIPE] + (gap + (colon + row)) && All(gap, IsSpace) && colon in {[], [COLON]} && AtDashes(row)
  }

  lemma {:induction false} DashesFirst(row: Text)
    requires AtDashes(row)
    ensures row != [] && row[0] == DASH
  {
    SpanAll(row, IsDash);
    var dashes := Span(row, IsDash).0;
    assert row[0] == dashes[0] && dashes[0] in dashes;
  }

  lemma {:induction false} RowFound(s: Text, gap: Text, colon: Text, row: Text)
    requires RowParts(s, gap, colon, row)
    ensures AtDelimiterRow(s)
  {
    DashesFirst(row);
    assert (colon + row)[0] == COLON || (colon + row)[0] == DASH;
    SpanUnique(gap, colon + row, IsSpace);
    WithoutIs(colon, COLON, row);
    DropOne(PIPE, gap + (colon + row));
  }

  /** With `DashesAre` this is the whole pattern. */
  lemma {:induction false} DelimiterRowIs(s: Text)
    ensures AtDelimiterRow(s) <==> exists gap, colon, row :: RowParts(s, gap, colon, row)
  {
    if AtDelimiterRow(s) {
      var (gap, after) := Span(s[1..], IsSpace);
      var colon := WithoutParts(after, COLON);
      SpanAll(s[1..], IsSpace);
      FirstAndRest(s);
      assert RowParts(s, gap, colon, Without(after, COLON));
    }
    if gap, colon, row :| RowParts(s, gap, colon, row) {
      RowFound(s, gap, colon, row);
    }
  }

  // ---------- `^#{1,6}(S|$)` ----------

  ghost predicate HeadingParts(line: Text, hashes: Text, rest: Text) {
    && line == hashes + rest && 1 <= |hashes| <= 6 && All(hashes, IsHash)
    && (rest == [] || IsSpace(rest[0]))
  }

  lemma {:induction false} HeadingIs(line: Text)
    ensures IsHeading(line) <==> exists hashes, rest :: HeadingParts(line, hashes, rest)
  {
    if IsHeading(line) {
      SpanAll(line, IsHash);
      assert HeadingParts(line, Span(line, IsHash).0, Span(line, IsHash).1);
    }
    if hashes, rest :| HeadingParts(line, hashes, rest) {
      SpanUnique(hashes, rest, IsHash);
    }
  }

  // ---------- `^([-*_=])(S*\1){1,}S*$` ----------

  /** `(S*c)` as often as there are `gaps`, then `S*`. */
  function Repeated(c: int, gaps: seq<Text>, tail: Text): Text {
    if gaps == [] then tail else gaps[0] + ([c] + Repeated(c, gaps[1..], tail))
  }

  ghost predicate RuleParts(line: Text, c: int, gaps: seq<Text>, tail: Text) {
    && c in {DASH, STAR, 0x5F, 0x3D} && gaps != []
    && (forall gap :: gap in gaps ==> All(gap, IsSpace)) && All(tail, IsSpace)
    && line == [c] + Repeated(c, gaps, tail)
  }

  lemma {:induction false} RepeatedOver(c: int, gaps: seq<Text>, tail: Text)
    requires (forall gap :: gap in gaps ==> All(gap, IsSpace)) && All(tail, IsSpace)
    ensures All(Repeated(c, gaps, tail), RuleClass(c))
    ensures gaps != [] ==> c in Repeated(c, gaps, tail)
  {
    if gaps != [] {
      assert gaps[0] in gaps && forall gap :: gap in gaps[1..] ==> gap in gaps;
      RepeatedOver(c, gaps[1..], tail);
    }
  }

  lemma {:induction false} RepeatedParts(c: int, s: Text) returns (gaps: seq<Text>, tail: Text)
    requires All(s, RuleClass(c)) && !IsSpace(c)
    ensures s == Repeated(c, gaps, tail) && All(tail, IsSpace) && forall gap :: gap in gaps ==> All(gap, IsSpace)
    ensures c in s ==> gaps != []
    decreases |s|
  {
    var (gap, end) := Span(s, IsSpace);
    SpanAll(s, IsSpace);
    gaps, tail := [], s;
    if end != [] {
      assert end[0] in s && end[0] == c;
      FirstAndRest(end);
      assert forall x :: x in end[1..] ==> x in s;
      var more, last := RepeatedParts(c, end[1..]);
      gaps, tail := [gap] + more, last;
      assert gaps[1..] == more;
    } else {
      assert c !in s;
    }
  }

  lemma {:induction false} RuleIs(line: Text)
    ensures IsRule(line) <==> exists c, gaps, tail :: RuleParts(line, c, gaps, tail)
  {
    if IsRule(line) {
      var c := line[0];
      SpanAll(line, RuleClass(c));
      FirstAndRest(line);
      assert forall x :: x in line[1..] ==> x in line;
      var gaps, tail := RepeatedParts(c, line[1..]);
      assert RuleParts(line, c, gaps, tail);
    }
    if c, gaps, tail :| RuleParts(line, c, gaps, tail) {
      RepeatedOver(c, gaps, tail);
      DropOne(c, Repeated(c, gaps, tail));
      assert forall x :: x in line ==> x == c || x in Repeated(c, gaps, tail);
      SpanAll(line, RuleClass(c));
    }
  }

  // ---------- `^Nd+[.)]S`, `^-S*$`, `^\[[^\]]+\]:S` ----------

  ghost predicate OrderedParts(points: Text, nd: int -> bool, number: Text, mark: int, rest: Text) {
    && points == number + ([mark] + rest) && number != [] && All(number, nd)
    && mark in {0x2E, RIGHT} && rest != [] && IsSpace(rest[0])
  }

  predicate OrderedPoints(points: Text, nd: int -> bool) {
    var (number, rest) := Span(points, nd);
    number != [] && |rest| > 1 && rest[0] in {0x2E, RIGHT} && IsSpace(rest[1])
  }

  /** No dot and no parenthesis is a digit. */
  lemma {:induction false} OrderedPointsAre(points: Text, nd: int -> bool)
    requires !nd(0x2E) && !nd(RIGHT)
    ensures OrderedPoints(points, nd) <==> exists number, mark, rest :: OrderedParts(points, nd, number, mark, rest)
  {
    if OrderedPoints(points, nd) {
      var (number, end) := Span(points, nd);
      SpanAll(points, nd);
      FirstAndRest(end);
      assert OrderedParts(points, nd, number, end[0], end[1..]);
    }
    if number, mark, rest :| OrderedParts(points, nd, number, mark, rest) {
      SpanStops(number, mark, rest, nd);
      assert ([mark] + rest)[1] == rest[0];
    }
  }

  lemma {:induction false} OrderedIs(line: Text, nd: int -> bool)
    requires !nd(0x2E) && !nd(RIGHT)
    ensures IsOrdered(line, nd) <==>
      exists number, mark, rest :: OrderedParts(Utf16.Points(line), nd, number, mark, rest)
  {
    var points := Utf16.Points(line);
    assert IsOrdered(line, nd) <==> OrderedPoints(points, nd);
    OrderedPointsAre(points, nd);
    if OrderedPoints(points, nd) {
      var number, mark, rest :| OrderedParts(points, nd, number, mark, rest);
      assert OrderedParts(Utf16.Points(line), nd, number, mark, rest);
      assert exists number, mark, rest :: OrderedParts(Utf16.Points(line), nd, number, mark, rest);
    }
  }

  lemma {:induction false} EmptyItemIs(line: Text)
    ensures IsEmptyItem(line) <==> line != [] && line[0] == DASH && All(line[1..], IsSpace)
  {
    if line != [] { SpanAll(line[1..], IsSpace); }
  }

  ghost predicate DefinitionParts(line: Text, name: Text, rest: Text) {
    && line == [OPEN] + (name + ([CLOSE] + ([COLON] + rest))) && name != [] && CLOSE !in name
    && rest != [] && IsSpace(rest[0])
  }

  lemma {:induction false} DefinitionIs(line: Text)
    ensures IsDefinition(line) <==> exists name, rest :: DefinitionParts(line, name, rest)
  {
    if IsDefinition(line) {
      var (name, end) := Span(line[1..], NotClose);
      SpanAll(line[1..], NotClose);
      FirstAndRest(line);
      FirstAndRest(end);
      FirstAndRest(end[1..]);
      assert end[1..][1..] == end[2..];
      assert DefinitionParts(line, name, end[2..]);
    }
    if name, rest :| DefinitionParts(line, name, rest) {
      SpanStops(name, CLOSE, [COLON] + rest, NotClose);
      DropOne(OPEN, name + ([CLOSE] + ([COLON] + rest)));
      DropOne(CLOSE, [COLON] + rest);
    }
  }
}
