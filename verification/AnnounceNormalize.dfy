/** The one form that the grammar and the storage layer agree on (announcements/markdown.tsx,
    `normalizeBody`). */
module AnnounceNormalize {
  import opened Prelude
  import opened AnnounceText

  // ---------- The steps ----------

  /** `md.replace(/\r\n/g, "\n")` */
  function PairsToBreaks(s: Text): Text
    decreases |s|
  {
    if s == [] then []
    else if |s| > 1 && s[0] == RETURN && s[1] == NEWLINE then [NEWLINE] + PairsToBreaks(s[2..])
    else [s[0]] + PairsToBreaks(s[1..])
  }

  /** `.replace(/\r/g, "\n")` */
  function ReturnsToBreaks(s: Text): Text {
    if s == [] then []
    else [if s[0] == RETURN then NEWLINE else s[0]] + ReturnsToBreaks(s[1..])
  }

  function TrimmedLines(md: Text): seq<Text> {
    Map(Split(ReturnsToBreaks(PairsToBreaks(md)), LINE_BREAK), Rstrip)
  }

  function DropLeading(lines: seq<Text>): seq<Text> {
    if lines != [] && lines[0] == [] then DropLeading(lines[1..]) else lines
  }

  function DropTrailing(lines: seq<Text>): seq<Text> {
    if lines != [] && lines[|lines| - 1] == [] then DropTrailing(lines[..|lines| - 1]) else lines
  }

  ghost predicate NoAdjacentBlanks(lines: seq<Text>) {
    forall i :: 0 < i < |lines| ==> lines[i - 1] != [] || lines[i] != []
  }

  /** One step of the collapsing loop. */
  function PushLine(collapsed: seq<Text>, line: Text): seq<Text> {
    if line == [] && collapsed != [] && collapsed[|collapsed| - 1] == [] then collapsed else collapsed + [line]
  }

  function Collapse(lines: seq<Text>): (r: seq<Text>)
    ensures r == [] <==> lines == []
    ensures lines != [] ==> r[0] == lines[0] && r[|r| - 1] == lines[|lines| - 1]
    ensures NoAdjacentBlanks(r)
    ensures forall line :: line in r ==> line in lines
  {
    if lines == [] then [] else PushLine(Collapse(lines[..|lines| - 1]), lines[|lines| - 1])
  }

  function NormalLinesOf(md: Text): seq<Text> {
    Collapse(DropTrailing(DropLeading(TrimmedLines(md))))
  }

  function Normalize(md: Text): Text {
    Join(NormalLinesOf(md), LINE_BREAK)
  }

  // ---------- The loops ----------

  lemma {:induction false} DropLeadingFrom(lines: seq<Text>, k: nat)
    requires k <= |lines| && forall i :: 0 <= i < k ==> lines[i] == []
    ensures DropLeading(lines) == DropLeading(lines[k..])
  {
    if k > 0 {
      DropLeadingFrom(lines[1..], k - 1);
      assert lines[1..][k - 1..] == lines[k..];
    } else {
      assert lines[0..] == lines;
    }
  }

  lemma {:induction false} DropTrailingTo(lines: seq<Text>, start: nat, end: nat)
    requires start < end <= |lines| && lines[end - 1] == []
    ensures DropTrailing(lines[start..end]) == DropTrailing(lines[start..end - 1])
  {
    assert lines[start..end][..end - start - 1] == lines[start..end - 1];
  }

  method TrimLines(lines: seq<Text>) returns (trimmed: seq<Text>)
    ensures trimmed == Map(lines, Rstrip)
  {
    trimmed := [];
    for i := 0 to |lines|
      invariant trimmed == Map(lines[..i], Rstrip)
    {
      var line := PyRstrip(lines[i]);
      trimmed := trimmed + [line];
    }
    assert lines[..|lines|] == lines;
  }

  /** The part between the first and the last line that is not blank. */
  method DropEdges(lines: seq<Text>) returns (middle: seq<Text>)
    ensures middle == DropTrailing(DropLeading(lines))
  {
    var start, end := 0, |lines|;
    while start < end && lines[start] == []
      invariant 0 <= start <= end && forall i :: 0 <= i < start ==> lines[i] == []
    {
      start := start + 1;
    }
    DropLeadingFrom(lines, start);
    assert DropLeading(lines[start..]) == lines[start..];
    assert lines[start..] == lines[start..end];
    while end > start && lines[end - 1] == []
      invariant start <= end <= |lines|
      invariant DropTrailing(lines[start..end]) == DropTrailing(lines[start..])
    {
      DropTrailingTo(lines, start, end);
      end := end - 1;
    }
    assert end > start ==> lines[start..end][end - start - 1] == lines[end - 1];
    middle := lines[start..end];
  }

  method NormalizeBody(md: Text) returns (r: Text)
    ensures r == Normalize(md)
  {
    var text := ReturnsToBreaks(PairsToBreaks(md));
    var lines := TrimLines(Split(text, LINE_BREAK));
    var middle := DropEdges(lines);
    var collapsed: seq<Text> := [];
    for i := 0 to |middle|
      invariant collapsed == Collapse(middle[..i])
    {
      var line := middle[i];
      assert middle[..i + 1][..i] == middle[..i];
      if line == [] && collapsed != [] && collapsed[|collapsed| - 1] == [] { continue; }
      collapsed := collapsed + [line];
    }
    assert middle[..|middle|] == middle;
    r := Join(collapsed, LINE_BREAK);
  }

  // ---------- The normal form ----------

  ghost predicate NormalLine(line: Text) {
    NEWLINE !in line && RETURN !in line && Rstrip(line) == line
  }

  ghost predicate NormalLines(lines: seq<Text>) {
    && lines != [] && lines[0] != [] && lines[|lines| - 1] != []
    && NoAdjacentBlanks(lines)
    && forall line :: line in lines ==> NormalLine(line)
  }

  /** No return, no trailing white space on a line, no blank line at an edge or beside another. */
  ghost predicate IsNormal(md: Text) {
    md == [] || NormalLines(Split(md, LINE_BREAK))
  }

  lemma {:induction false} BreaksHaveNoReturn(s: Text)
    ensures RETURN !in ReturnsToBreaks(s)
  {
    if s != [] { BreaksHaveNoReturn(s[1..]); }
  }

  lemma {:induction false} SplitMembers(s: Text, c: int, sep: int)
    requires c !in s
    ensures forall line :: line in Split(s, [sep]) ==> c !in line
    decreases |s|
  {
    if s != [] {
      assert s[0] in s && forall x :: x in s[1..] ==> x in s;
      SplitMembers(s[1..], c, sep);
      var rest := Split(s[1..], [sep]);
      forall line | line in Split(s, [sep]) ensures c !in line {
        if line !in rest { assert line == [] || line == [s[0]] + rest[0]; }
      }
    }
  }

  lemma {:induction false} RstripTwice(s: Text)
    ensures Rstrip(Rstrip(s)) == Rstrip(s)
  {
  }

  lemma {:induction false} TrimmedAreNormal(md: Text)
    ensures forall line :: line in TrimmedLines(md) ==> NormalLine(line)
  {
    var text := ReturnsToBreaks(PairsToBreaks(md));
    var parts := Split(text, LINE_BREAK);
    BreaksHaveNoReturn(PairsToBreaks(md));
    SplitMembers(text, RETURN, NEWLINE);
    SplitParts(text, NEWLINE);
    forall line | line in TrimmedLines(md) ensures NormalLine(line) {
      var i :| 0 <= i < |parts| && TrimmedLines(md)[i] == line;
      RstripTwice(parts[i]);
      assert parts[i] in parts;
    }
  }

  lemma {:induction false} DroppedShape(lines: seq<Text>)
    ensures forall line :: line in DropLeading(lines) ==> line in lines
    ensures DropLeading(lines) != [] ==> DropLeading(lines)[0] != []
    ensures DropLeading(lines) == lines <==> lines == [] || lines[0] != []
    ensures |DropLeading(lines)| <= |lines|
  {
    if lines != [] && lines[0] == [] { DroppedShape(lines[1..]); }
  }

  lemma {:induction false} DroppedEndShape(lines: seq<Text>)
    ensures DropTrailing(lines) <= lines
    ensures DropTrailing(lines) != [] ==> DropTrailing(lines)[|DropTrailing(lines)| - 1] != []
  {
    if lines != [] && lines[|lines| - 1] == [] { DroppedEndShape(lines[..|lines| - 1]); }
  }

  lemma {:induction false} NormalLinesAreNormal(md: Text)
    ensures NormalLinesOf(md) != [] ==> NormalLines(NormalLinesOf(md))
  {
    var lines := TrimmedLines(md);
    TrimmedAreNormal(md);
    DroppedShape(lines);
    DroppedEndShape(DropLeading(lines));
    var middle := DropTrailing(DropLeading(lines));
    assert forall line :: line in middle ==> line in DropLeading(lines);
  }

  lemma {:induction false} JoinedIsNormal(lines: seq<Text>)
    requires NormalLines(lines)
    ensures Split(Join(lines, LINE_BREAK), LINE_BREAK) == lines
  {
    assert forall i :: 0 <= i < |lines| ==> lines[i] in lines;
    SplitJoin(lines, NEWLINE);
  }

  /** The result is always in normal form. */
  lemma {:induction false} NormalizeIsNormal(md: Text)
    ensures IsNormal(Normalize(md))
  {
    NormalLinesAreNormal(md);
    if NormalLinesOf(md) != [] { JoinedIsNormal(NormalLinesOf(md)); }
  }

  lemma {:induction false} CollapseFixes(lines: seq<Text>)
    requires NoAdjacentBlanks(lines)
    ensures Collapse(lines) == lines
  {
    if lines != [] {
      var init := lines[..|lines| - 1];
      CollapseFixes(init);
      assert |lines| > 1 ==> init[|init| - 1] == lines[|lines| - 2];
      assert init + [lines[|lines| - 1]] == lines;
    }
  }

  lemma {:induction false} ReturnsFix(s: Text)
    requires RETURN !in s
    ensures PairsToBreaks(s) == s && ReturnsToBreaks(s) == s
  {
    if s != [] {
      assert s[0] in s && forall x :: x in s[1..] ==> x in s;
      ReturnsFix(s[1..]);
      assert [s[0]] + s[1..] == s;
    }
  }

  lemma {:induction false} JoinMembers(lines: seq<Text>, c: int, sep: int)
    requires c != sep && forall line :: line in lines ==> c !in line
    ensures c !in Join(lines, [sep])
  {
    if |lines| > 1 {
      assert forall line :: line in lines[1..] ==> line in lines;
      JoinMembers(lines[1..], c, sep);
    }
  }

  lemma {:induction false} TrimmingFixes(md: Text)
    requires NormalLines(Split(md, LINE_BREAK))
    ensures TrimmedLines(md) == Split(md, LINE_BREAK)
  {
    var lines := Split(md, LINE_BREAK);
    JoinSplit(md, LINE_BREAK);
    JoinMembers(lines, RETURN, NEWLINE);
    ReturnsFix(md);
    assert forall i :: 0 <= i < |lines| ==> lines[i] in lines;
  }

  lemma {:induction false} NormalIsUntouched(md: Text)
    requires IsNormal(md)
    ensures Normalize(md) == md
  {
    if md == [] {
      var blank: seq<Text> := [[]];
      assert TrimmedLines(md) == blank;
      assert blank[1..] == [];
      assert DropLeading(TrimmedLines(md)) == [];
    } else {
      TrimmingFixes(md);
      CollapseFixes(Split(md, LINE_BREAK));
      JoinSplit(md, LINE_BREAK);
    }
  }

  /** The normal form is exactly what normalising leaves alone. */
  lemma {:induction false} NormalIsFixed(md: Text)
    ensures Normalize(md) == md <==> IsNormal(md)
  {
    NormalizeIsNormal(md);
    if IsNormal(md) { NormalIsUntouched(md); }
  }

  /** Normalising twice is normalising once. */
  lemma {:induction false} NormalizeIdempotent(md: Text)
    ensures Normalize(Normalize(md)) == Normalize(md)
  {
    NormalizeIsNormal(md);
    NormalIsUntouched(Normalize(md));
  }

  // ---------- Nothing but white space is lost ----------

  /** The characters of `s` that are not white space. */
  function Ink(s: Text): Text {
    if s == [] then [] else (if IsSpace(s[0]) then [] else [s[0]]) + Ink(s[1..])
  }

  lemma {:induction false} InkAppend(a: Text, b: Text)
    ensures Ink(a + b) == Ink(a) + Ink(b)
  {
    if a == [] {
      assert a + b == b;
    } else {
      assert (a + b)[0] == a[0] && (a + b)[1..] == a[1..] + b;
      InkAppend(a[1..], b);
    }
  }

  function InkOfLines(lines: seq<Text>): Text {
    if lines == [] then [] else Ink(lines[0]) + InkOfLines(lines[1..])
  }

  lemma {:induction false} InkOfAppend(a: seq<Text>, b: seq<Text>)
    ensures InkOfLines(a + b) == InkOfLines(a) + InkOfLines(b)
  {
    if a == [] {
      assert a + b == b;
    } else {
      InkOfAppend(a[1..], b);
      var rest := a[1..] + b;
      assert (a + b)[0] == a[0] && (a + b)[1..] == rest;
      assert InkOfLines(a + b) == Ink(a[0]) + InkOfLines(rest);
      Regroup(Ink(a[0]), InkOfLines(a[1..]), InkOfLines(b));
    }
  }

  lemma {:induction false} InkAcrossBreak(line: Text, rest: Text)
    ensures Ink(line + LINE_BREAK + rest) == Ink(line) + Ink(rest)
  {
    InkAppend(line + LINE_BREAK, rest);
    InkAppend(line, LINE_BREAK);
    assert LINE_BREAK[1..] == [];
  }

  lemma {:induction false} InkOfJoin(lines: seq<Text>)
    ensures Ink(Join(lines, LINE_BREAK)) == InkOfLines(lines)
  {
    if |lines| == 1 {
      assert lines[1..] == [];
    } else if lines != [] {
      InkOfJoin(lines[1..]);
      InkAcrossBreak(lines[0], Join(lines[1..], LINE_BREAK));
    }
  }

  lemma {:induction false} InkOfReturns(s: Text)
    ensures Ink(ReturnsToBreaks(s)) == Ink(s)
  {
    if s != [] { InkOfReturns(s[1..]); }
  }

  lemma {:induction false} InkOfPairs(s: Text)
    ensures Ink(PairsToBreaks(s)) == Ink(s)
    decreases |s|
  {
    if |s| > 1 && s[0] == RETURN && s[1] == NEWLINE {
      InkOfPairs(s[2..]);
      assert s[1..][1..] == s[2..];
      assert Ink(s) == Ink(s[1..]) == Ink(s[2..]);
    } else if s != [] {
      InkOfPairs(s[1..]);
    }
  }

  lemma {:induction false} InkOfRstrip(s: Text)
    ensures Ink(Rstrip(s)) == Ink(s)
  {
    if s != [] && IsSpace(s[|s| - 1]) {
      InkOfRstrip(s[..|s| - 1]);
      assert s == s[..|s| - 1] + [s[|s| - 1]];
      InkAppend(s[..|s| - 1], [s[|s| - 1]]);
    }
  }

  lemma {:induction false} InkOfTrimmed(lines: seq<Text>)
    ensures InkOfLines(Map(lines, Rstrip)) == InkOfLines(lines)
  {
    if lines != [] {
      InkOfRstrip(lines[0]);
      InkOfTrimmed(lines[1..]);
      assert Map(lines, Rstrip)[1..] == Map(lines[1..], Rstrip);
    }
  }

  lemma {:induction false} InkOfDropped(lines: seq<Text>)
    ensures InkOfLines(DropLeading(lines)) == InkOfLines(lines)
  {
    if lines != [] && lines[0] == [] { InkOfDropped(lines[1..]); }
  }

  lemma {:induction false} InkOfPush(lines: seq<Text>)
    requires lines != []
    ensures InkOfLines(lines) == InkOfLines(lines[..|lines| - 1]) + Ink(lines[|lines| - 1])
  {
    var last := lines[|lines| - 1];
    assert lines == lines[..|lines| - 1] + [last];
    InkOfAppend(lines[..|lines| - 1], [last]);
    assert [last][1..] == [];
  }

  lemma {:induction false} InkOfDroppedEnd(lines: seq<Text>)
    ensures InkOfLines(DropTrailing(lines)) == InkOfLines(lines)
  {
    if lines != [] && lines[|lines| - 1] == [] {
      InkOfDroppedEnd(lines[..|lines| - 1]);
      InkOfPush(lines);
    }
  }

  lemma {:induction false} InkOfCollapse(lines: seq<Text>)
    ensures InkOfLines(Collapse(lines)) == InkOfLines(lines)
  {
    if lines != [] {
      var init, last := lines[..|lines| - 1], lines[|lines| - 1];
      InkOfCollapse(init);
      InkOfPush(lines);
      var c := Collapse(init) + [last];
      InkOfPush(c);
      assert c[..|c| - 1] == Collapse(init);
    }
  }

  /** Every character that is not white space survives, in order. */
  lemma {:induction false} NormalizeKeepsInk(md: Text)
    ensures Ink(Normalize(md)) == Ink(md)
  {
    var text := ReturnsToBreaks(PairsToBreaks(md));
    var parts := Split(text, LINE_BREAK);
    InkOfPairs(md);
    InkOfReturns(PairsToBreaks(md));
    JoinSplit(text, LINE_BREAK);
    InkOfJoin(parts);
    InkOfTrimmed(parts);
    InkOfDropped(TrimmedLines(md));
    InkOfDroppedEnd(DropLeading(TrimmedLines(md)));
    InkOfCollapse(DropTrailing(DropLeading(TrimmedLines(md))));
    InkOfJoin(NormalLinesOf(md));
  }

  // ---------- What the block splitter gets ----------

  /** No line break at either end, and no two in a row. */
  ghost predicate SolidBlock(b: Text) {
    && b != [] && b[0] != NEWLINE && b[|b| - 1] != NEWLINE
    && forall i :: 0 < i < |b| ==> b[i - 1] != NEWLINE || b[i] != NEWLINE
  }

  /** As a solid block, but a line break may come first. */
  ghost predicate FirmBlock(b: Text) {
    && b != [] && b[|b| - 1] != NEWLINE
    && forall i :: 0 < i < |b| ==> b[i - 1] != NEWLINE || b[i] != NEWLINE
  }

  lemma {:induction false} FirmTail(b: Text)
    requires FirmBlock(b) && |b| > 1
    ensures FirmBlock(b[1..])
  {
    assert b[1..][|b| - 2] == b[|b| - 1];
    forall i | 0 < i < |b| - 1 ensures b[1..][i - 1] != NEWLINE || b[1..][i] != NEWLINE {
      assert b[1..][i - 1] == b[i] && b[1..][i] == b[i + 1];
    }
  }

  lemma {:induction false} FirmLines(b: Text)
    requires FirmBlock(b)
    ensures forall i :: 0 < i < |Split(b, LINE_BREAK)| ==> Split(b, LINE_BREAK)[i] != []
    ensures b[0] != NEWLINE ==> Split(b, LINE_BREAK)[0] != []
    decreases |b|
  {
    if |b| == 1 {
      assert b[1..] == [] && !(LINE_BREAK <= b);
    } else {
      FirmTail(b);
      FirmLines(b[1..]);
    }
  }

  /** No line of a solid block is empty. */
  lemma {:induction false} SolidLines(b: Text)
    requires SolidBlock(b)
    ensures forall line :: line in Split(b, LINE_BREAK) ==> line != []
  {
    FirmLines(b);
  }

  ghost predicate NoTripleBreak(s: Text) {
    forall i :: 0 <= i < |s| - 2 ==> s[i] != NEWLINE || s[i + 1] != NEWLINE || s[i + 2] != NEWLINE
  }

  lemma {:induction false} NoTripleTail(s: Text)
    requires s != []
    ensures NoTripleBreak(s) <==>
      NoTripleBreak(s[1..]) && !(|s| > 2 && s[0] == NEWLINE && s[1] == NEWLINE && s[2] == NEWLINE)
  {
    var t := s[1..];
    assert forall i :: 0 <= i < |t| ==> t[i] == s[i + 1];
    if NoTripleBreak(t) && !(|s| > 2 && s[0] == NEWLINE && s[1] == NEWLINE && s[2] == NEWLINE) {
      forall i | 0 <= i < |s| - 2 ensures s[i] != NEWLINE || s[i + 1] != NEWLINE || s[i + 2] != NEWLINE {
        if i > 0 { assert t[i - 1] != NEWLINE || t[i] != NEWLINE || t[i + 1] != NEWLINE; }
      }
    }
  }

  /** The first lines of a text that starts with line breaks are empty. */
  lemma {:induction false} BreakSplit(s: Text)
    requires s != []
    ensures s[0] == NEWLINE ==> Split(s, LINE_BREAK) == [[]] + Split(s[1..], LINE_BREAK)
    ensures s[0] != NEWLINE ==> Split(s, LINE_BREAK)[1..] == Split(s[1..], LINE_BREAK)[1..]
    ensures s[0] != NEWLINE ==> |Split(s, LINE_BREAK)| == |Split(s[1..], LINE_BREAK)| && Split(s, LINE_BREAK)[0] != []
  {
    assert LINE_BREAK <= s <==> s[0] == NEWLINE;
  }

  /** The last line is not empty, and no two lines after the first are empty together. */
  ghost predicate TidyTail(lines: seq<Text>)
    requires lines != []
  {
    lines[|lines| - 1] != [] && NoAdjacentBlanks(lines[1..])
  }

  lemma {:induction false} TidyTailTail(s: Text)
    requires |s| > 1 && TidyTail(Split(s, LINE_BREAK))
    ensures TidyTail(Split(s[1..], LINE_BREAK))
  {
    var lines, rest := Split(s, LINE_BREAK), Split(s[1..], LINE_BREAK);
    BreakSplit(s);
    BreakSplit(s[1..]);
    if s[0] == NEWLINE {
      assert rest == lines[1..] && rest[1..] == lines[1..][1..];
      assert rest[|rest| - 1] == lines[|lines| - 1];
    } else if |rest| > 1 {
      assert rest[1..][|rest| - 2] == lines[1..][|rest| - 2];
    }
  }

  lemma {:induction false} TripleIsTwoBlanks(s: Text)
    requires |s| > 2 && s[0] == NEWLINE && s[1] == NEWLINE && s[2] == NEWLINE
    ensures !NoAdjacentBlanks(Split(s, LINE_BREAK)[1..])
  {
    BreakSplit(s);
    BreakSplit(s[1..]);
    BreakSplit(s[1..][1..]);
    var lines := Split(s, LINE_BREAK)[1..];
    assert lines[0] == [] && lines[1] == [];
  }

  lemma {:induction false} LinesToText(s: Text)
    requires s != [] && TidyTail(Split(s, LINE_BREAK))
    ensures s[|s| - 1] != NEWLINE && NoTripleBreak(s)
    decreases |s|
  {
    NoTripleTail(s);
    if |s| == 1 {
      BreakSplit(s);
      assert s[1..] == [];
    } else {
      TidyTailTail(s);
      LinesToText(s[1..]);
      if |s| > 2 && s[0] == NEWLINE && s[1] == NEWLINE && s[2] == NEWLINE { TripleIsTwoBlanks(s); }
    }
  }

  lemma {:induction false} BlockBreakStarts(s: Text)
    ensures BLOCK_BREAK <= s <==> |s| > 1 && s[0] == NEWLINE && s[1] == NEWLINE
  {
    if |s| > 1 && s[0] == NEWLINE && s[1] == NEWLINE { assert s[..2] == BLOCK_BREAK; }
  }

  lemma {:induction false} SolidFromFirm(c: int, b: Text)
    requires c != NEWLINE && (b == [] || FirmBlock(b))
    ensures SolidBlock([c] + b)
  {
    var s := [c] + b;
    forall i | 0 < i < |s| ensures s[i - 1] != NEWLINE || s[i] != NEWLINE {
      if i > 1 { assert s[i - 1] == b[i - 2] && s[i] == b[i - 1]; }
    }
  }

  lemma {:induction false} FirmFromSolid(b: Text)
    requires SolidBlock(b)
    ensures FirmBlock([NEWLINE] + b)
  {
    var s := [NEWLINE] + b;
    forall i | 0 < i < |s| ensures s[i - 1] != NEWLINE || s[i] != NEWLINE {
      if i > 1 { assert s[i - 1] == b[i - 2] && s[i] == b[i - 1]; }
    }
  }

  lemma {:induction false} SplitIsSolid(s: Text)
    requires s != [] && s[|s| - 1] != NEWLINE && NoTripleBreak(s)
    ensures forall i :: 0 < i < |Split(s, BLOCK_BREAK)| ==> SolidBlock(Split(s, BLOCK_BREAK)[i])
    ensures var b := Split(s, BLOCK_BREAK)[0]; if s[0] != NEWLINE then SolidBlock(b) else b == [] || FirmBlock(b)
    decreases |s|
  {
    NoTripleTail(s);
    BlockBreakStarts(s);
    if BLOCK_BREAK <= s {
      var t := s[2..];
      assert t == s[1..][1..];
      NoTripleTail(s[1..]);
      SplitIsSolid(t);
      assert Split(s, BLOCK_BREAK) == [[]] + Split(t, BLOCK_BREAK);
    } else if |s| == 1 {
      assert s[1..] == [];
      SolidFromFirm(s[0], []);
    } else {
      var t := s[1..];
      SplitIsSolid(t);
      var b := Split(t, BLOCK_BREAK)[0];
      assert Split(s, BLOCK_BREAK) == [[s[0]] + b] + Split(t, BLOCK_BREAK)[1..];
      if s[0] == NEWLINE {
        FirmFromSolid(b);
      } else {
        SolidFromFirm(s[0], b);
      }
    }
  }

  /** The blocks of a normal body have no empty line. */
  lemma {:induction false} BlocksAreSolid(md: Text)
    requires IsNormal(md) && md != []
    ensures forall b :: b in Split(md, BLOCK_BREAK) ==> SolidBlock(b)
  {
    var lines := Split(md, LINE_BREAK);
    forall i | 0 < i < |lines| - 1 ensures lines[1..][i - 1] != [] || lines[1..][i] != [] {
      assert lines[1..][i - 1] == lines[i] && lines[1..][i] == lines[i + 1];
    }
    LinesToText(md);
    BreakSplit(md);
    SplitIsSolid(md);
  }
}
