/** Normalising a body, line by line (announcements/markdown.tsx, `normalizeBody`): whatever ends its lines and
    however many blank ones stand between its paragraphs. */
module NormalByLines {
  import opened Prelude
  import opened AnnounceText
  import opened AnnounceNormalize
  import opened AnnounceInline
  import opened AnnounceLetters
  import opened AnnounceAccept
  import opened AnnounceWritten
  import AnnounceTree

  // ---------- Lines ----------

  /** Lines and what ends each but the last. */
  function Body(lines: seq<Text>, ends: seq<Text>): Text
    requires |lines| == |ends| + 1
  {
    if ends == [] then lines[0] else lines[0] + (ends[0] + Body(lines[1..], ends[1..]))
  }

  predicate IsEnd(end: Text) {
    end == Chars("\r\n") || end == Chars("\r") || end == Chars("\n")
  }

  /** The line holds neither character that ends lines. */
  predicate OneLine(line: Text) { !Has(line, '\r') && !Has(line, '\n') }

  /** A return that ends a line is not glued to a line feed that ends the next one, an empty one. */
  predicate Apart(lines: seq<Text>, ends: seq<Text>, i: nat)
    requires |lines| == |ends| + 1 && i + 1 < |ends|
  {
    ends[i] == Chars("\r") && lines[i + 1] == [] ==> ends[i + 1] != Chars("\n")
  }

  ghost predicate WellEnded(lines: seq<Text>, ends: seq<Text>) {
    && |lines| == |ends| + 1
    && (forall i :: 0 <= i < |lines| ==> OneLine(lines[i]))
    && (forall i :: 0 <= i < |ends| ==> IsEnd(ends[i]))
    && forall i :: 0 <= i < |ends| - 1 ==> Apart(lines, ends, i)
  }

  function Breaks(s: Text): Text { ReturnsToBreaks(PairsToBreaks(s)) }

  lemma {:induction false} EndsAre()
    ensures Chars("\r\n") == [RETURN, NEWLINE] && Chars("\r") == [RETURN] && Chars("\n") == [NEWLINE]
  {
  }

  lemma {:induction false} BreaksOne(c: int, rest: Text)
    requires c != RETURN
    ensures Breaks([c] + rest) == [c] + Breaks(rest)
  {
    assert ([c] + rest)[1..] == rest;
    assert ([c] + PairsToBreaks(rest))[1..] == PairsToBreaks(rest);
  }

  lemma {:induction false} BreaksLine(line: Text, rest: Text)
    requires RETURN !in line
    ensures Breaks(line + rest) == line + Breaks(rest)
  {
    if line == [] {
      assert line + rest == rest && line + Breaks(rest) == Breaks(rest);
    } else {
      assert line[0] in line && forall c :: c in line[1..] ==> c in line;
      BreaksLine(line[1..], rest);
      assert line + rest == [line[0]] + (line[1..] + rest);
      BreaksOne(line[0], line[1..] + rest);
      assert [line[0]] + (line[1..] + Breaks(rest)) == line + Breaks(rest);
    }
  }

  lemma {:induction false} BreaksPair(rest: Text)
    ensures Breaks([RETURN, NEWLINE] + rest) == [NEWLINE] + Breaks(rest)
  {
    assert ([RETURN, NEWLINE] + rest)[2..] == rest;
    assert ([NEWLINE] + PairsToBreaks(rest))[1..] == PairsToBreaks(rest);
  }

  lemma {:induction false} BreaksReturn(rest: Text)
    requires rest != [] ==> rest[0] != NEWLINE
    ensures Breaks([RETURN] + rest) == [NEWLINE] + Breaks(rest)
  {
    assert ([RETURN] + rest)[1..] == rest;
    assert ([RETURN] + PairsToBreaks(rest))[1..] == PairsToBreaks(rest);
  }

  lemma {:induction false} BreaksEnd(end: Text, rest: Text)
    requires IsEnd(end) && (end == Chars("\r") && rest != [] ==> rest[0] != NEWLINE)
    ensures Breaks(end + rest) == [NEWLINE] + Breaks(rest)
  {
    EndsAre();
    if end == Chars("\r\n") {
      BreaksPair(rest);
    } else if end == Chars("\r") {
      BreaksReturn(rest);
    } else {
      BreaksOne(NEWLINE, rest);
    }
  }

  lemma {:induction false} BodyStarts(lines: seq<Text>, ends: seq<Text>)
    requires WellEnded(lines, ends)
    ensures Body(lines, ends) != [] && Body(lines, ends)[0] == NEWLINE ==>
      lines[0] == [] && ends != [] && ends[0] == Chars("\n")
  {
    EndsAre();
    if lines[0] != [] {
      assert lines[0][0] in lines[0] && OneLine(lines[0]);
      assert Body(lines, ends)[0] == lines[0][0];
    } else if ends != [] {
      assert IsEnd(ends[0]) && Body(lines, ends)[0] == ends[0][0];
    }
  }

  lemma {:induction false} WellEndedRest(lines: seq<Text>, ends: seq<Text>)
    requires WellEnded(lines, ends) && ends != []
    ensures WellEnded(lines[1..], ends[1..]) && OneLine(lines[0]) && IsEnd(ends[0])
    ensures |ends| > 1 ==> Apart(lines, ends, 0)
  {
    var l, e := lines[1..], ends[1..];
    forall i | 0 <= i < |l| ensures OneLine(l[i]) {
      assert OneLine(lines[i + 1]);
    }
    forall i | 0 <= i < |e| ensures IsEnd(e[i]) {
      assert IsEnd(ends[i + 1]);
    }
    forall i | 0 <= i < |e| - 1 ensures Apart(l, e, i) {
      assert Apart(lines, ends, i + 1);
    }
  }

  lemma {:induction false} OneLineBreaks(line: Text)
    requires OneLine(line)
    ensures Breaks(line) == line && Split(line, [NEWLINE]) == [line]
  {
    ReturnsFix(line);
    SplitOne(line, NEWLINE);
  }

  lemma {:induction false} EndedLineBreaks(line: Text, end: Text, rest: Text)
    requires OneLine(line) && IsEnd(end) && (end == Chars("\r") && rest != [] ==> rest[0] != NEWLINE)
    ensures Split(Breaks(line + (end + rest)), [NEWLINE]) == [line] + Split(Breaks(rest), [NEWLINE])
  {
    BreaksLine(line, end + rest);
    BreaksEnd(end, rest);
    Regroup(line, [NEWLINE], Breaks(rest));
    SplitFirst(line, Breaks(rest), NEWLINE);
  }

  /** Lines are what stands between the ends, whichever of the three those are. */
  lemma {:induction false} LinesRead(lines: seq<Text>, ends: seq<Text>)
    requires WellEnded(lines, ends)
    ensures Split(Breaks(Body(lines, ends)), [NEWLINE]) == lines
  {
    if ends == [] {
      OneLineBreaks(lines[0]);
      assert lines == [lines[0]];
    } else {
      var rest := Body(lines[1..], ends[1..]);
      WellEndedRest(lines, ends);
      LinesRead(lines[1..], ends[1..]);
      BodyStarts(lines[1..], ends[1..]);
      EndedLineBreaks(lines[0], ends[0], rest);
      assert lines == [lines[0]] + lines[1..];
    }
  }

  // ---------- Paragraphs ----------

  function Blanks(n: nat): (r: seq<Text>)
    ensures |r| == n && forall i :: 0 <= i < n ==> r[i] == []
  {
    seq(n, i => [])
  }

  /** Lines none of which is blank. */
  ghost predicate IsGroup(group: seq<Text>) {
    group != [] && forall i :: 0 <= i < |group| ==> group[i] != []
  }

  /** The groups, with so many blank lines before each and one or more between any two. */
  function Spaced(groups: seq<seq<Text>>, gaps: seq<nat>): seq<Text>
    requires |gaps| == |groups|
  {
    if groups == [] then []
    else
      var n := |groups| - 1;
      Spaced(groups[..n], gaps[..n]) + Blanks(gaps[n]) + groups[n]
  }

  ghost predicate WellSpaced(groups: seq<seq<Text>>, gaps: seq<nat>) {
    && |gaps| == |groups| && (forall i :: 0 <= i < |groups| ==> IsGroup(groups[i]))
    && forall i :: 0 < i < |gaps| ==> gaps[i] > 0
  }

  /** The groups with one blank line between any two. */
  function Tight(groups: seq<seq<Text>>): seq<Text> {
    if groups == [] then []
    else if |groups| == 1 then groups[0]
    else Tight(groups[..|groups| - 1]) + Blanks(1) + groups[|groups| - 1]
  }

  lemma {:induction false} CollapsePush(front: seq<Text>, line: Text)
    ensures Collapse(front + [line]) == PushLine(Collapse(front), line)
  {
    assert (front + [line])[..|front|] == front;
  }

  lemma {:induction false} LineLast(front: seq<Text>, group: seq<Text>, n: nat)
    requires n + 1 == |group|
    ensures front + group == (front + group[..n]) + [group[n]]
    ensures Collapse(front) + group[..n] + [group[n]] == Collapse(front) + group
  {
  }

  lemma {:induction false} CollapseInk(front: seq<Text>, line: Text)
    requires line != []
    ensures Collapse(front + [line]) == Collapse(front) + [line]
  {
    CollapsePush(front, line);
  }

  lemma {:induction false} CollapseGroup(front: seq<Text>, group: seq<Text>)
    requires forall i :: 0 <= i < |group| ==> group[i] != []
    ensures Collapse(front + group) == Collapse(front) + group
  {
    if group == [] {
      assert front + group == front && Collapse(front) + group == Collapse(front);
    } else {
      var n := |group| - 1;
      CollapseGroup(front, group[..n]);
      LineLast(front, group, n);
      CollapseInk(front + group[..n], group[n]);
    }
  }

  lemma {:induction false} BlankLast(front: seq<Text>, n: nat)
    requires n > 0
    ensures front + Blanks(n) == (front + Blanks(n - 1)) + [[]]
    ensures front + Blanks(0) == front && Blanks(1) == [[]]
  {
  }

  lemma {:induction false} CollapseBlank(front: seq<Text>, c: seq<Text>)
    requires front != [] && c == Collapse(front)
    ensures Collapse(front + [[]]) == if c[|c| - 1] == [] then c else c + [[]]
  {
    CollapsePush(front, []);
  }

  lemma {:induction false} CollapseBlanks(front: seq<Text>, n: nat)
    requires n > 0 && front != [] && front[|front| - 1] != []
    ensures Collapse(front + Blanks(n)) == Collapse(front) + Blanks(1)
  {
    BlankLast(front, n);
    if n > 1 { CollapseBlanks(front, n - 1); }
    CollapseBlank(front + Blanks(n - 1), Collapse(front + Blanks(n - 1)));
  }

  lemma {:induction false} SpacedEnds(groups: seq<seq<Text>>, gaps: seq<nat>)
    requires WellSpaced(groups, gaps) && groups != []
    ensures Spaced(groups, gaps) != [] && Spaced(groups, gaps)[|Spaced(groups, gaps)| - 1] != []
  {
    var n := |groups| - 1;
    assert IsGroup(groups[n]);
    assert groups[n][|groups[n]| - 1] != [];
  }

  lemma {:induction false} WellSpacedFront(groups: seq<seq<Text>>, gaps: seq<nat>)
    requires WellSpaced(groups, gaps) && groups != []
    ensures var n := |groups| - 1; WellSpaced(groups[..n], gaps[..n]) && IsGroup(groups[n]) && (n > 0 ==> gaps[n] > 0)
  {
    var n := |groups| - 1;
    forall i | 0 <= i < n ensures IsGroup(groups[..n][i]) {
      assert IsGroup(groups[i]);
    }
  }

  lemma {:induction false} CollapseSpaced(groups: seq<seq<Text>>, gaps: seq<nat>)
    requires WellSpaced(groups, gaps) && groups != [] && gaps[0] == 0
    ensures Collapse(Spaced(groups, gaps)) == Tight(groups)
  {
    var n := |groups| - 1;
    WellSpacedFront(groups, gaps);
    var front := Spaced(groups[..n], gaps[..n]);
    CollapseGroup(front + Blanks(gaps[n]), groups[n]);
    if n == 0 {
      assert front + Blanks(0) == [] && [] + groups[0] == groups[0];
    } else {
      CollapseSpaced(groups[..n], gaps[..n]);
      SpacedEnds(groups[..n], gaps[..n]);
      CollapseBlanks(front, gaps[n]);
    }
  }

  lemma {:induction false} DropBlanks(n: nat, rest: seq<Text>)
    requires rest == [] || rest[0] != []
    ensures DropLeading(Blanks(n) + rest) == rest
  {
    if n == 0 {
      assert Blanks(0) + rest == rest;
    } else {
      assert (Blanks(n) + rest)[1..] == Blanks(n - 1) + rest;
      DropBlanks(n - 1, rest);
    }
  }

  lemma {:induction false} DropEndBlanks(front: seq<Text>, n: nat)
    requires front == [] || front[|front| - 1] != []
    ensures DropTrailing(front + Blanks(n)) == front
  {
    if n == 0 {
      assert front + Blanks(0) == front;
    } else {
      assert (front + Blanks(n))[..|front| + n - 1] == front + Blanks(n - 1);
      DropEndBlanks(front, n - 1);
    }
  }

  /** The first gap comes first, and a group after it. */
  lemma {:induction false} SpacedStarts(groups: seq<seq<Text>>, gaps: seq<nat>)
    requires WellSpaced(groups, gaps) && groups != []
    ensures Spaced(groups, gaps) == Blanks(gaps[0]) + Spaced(groups, gaps[0 := 0])
    ensures Spaced(groups, gaps[0 := 0]) != [] && Spaced(groups, gaps[0 := 0])[0] != []
  {
    var n := |groups| - 1;
    WellSpacedFront(groups, gaps);
    var none: seq<Text> := [];
    if n == 0 {
      assert gaps[0 := 0][..0] == gaps[..0];
      assert none + Blanks(0) + groups[0] == groups[0];
      assert none + Blanks(gaps[0]) + groups[0] == Blanks(gaps[0]) + groups[0];
      assert groups[0][0] != [];
    } else {
      SpacedStarts(groups[..n], gaps[..n]);
      assert gaps[0 := 0][..n] == gaps[..n][0 := 0];
      var inner := Spaced(groups[..n], gaps[..n][0 := 0]);
      assert Blanks(gaps[0]) + inner + Blanks(gaps[n]) + groups[n] ==
        Blanks(gaps[0]) + (inner + Blanks(gaps[n]) + groups[n]);
    }
  }

  /** Blank lines at the edges go, and those between two groups become one. */
  lemma {:induction false} GroupsStay(groups: seq<seq<Text>>, gaps: seq<nat>, last: nat)
    requires WellSpaced(groups, gaps)
    ensures Collapse(DropTrailing(DropLeading(Spaced(groups, gaps) + Blanks(last)))) == Tight(groups)
  {
    if groups == [] {
      assert Spaced(groups, gaps) + Blanks(last) == Blanks(last) + [];
      DropBlanks(last, []);
    } else {
      var from := gaps[0 := 0];
      var middle := Spaced(groups, from);
      SpacedStarts(groups, gaps);
      assert Blanks(gaps[0]) + middle + Blanks(last) == Blanks(gaps[0]) + (middle + Blanks(last));
      DropBlanks(gaps[0], middle + Blanks(last));
      SpacedEnds(groups, from);
      DropEndBlanks(middle, last);
      CollapseSpaced(groups, from);
    }
  }

  /** A line without the white space at its end. */
  ghost predicate TrimsTo(line: Text, trimmed: Text) {
    trimmed <= line && WhiteRun(line, |trimmed|, |line|) && (trimmed != [] ==> !White(trimmed[|trimmed| - 1]))
  }

  lemma {:induction false} TrimsNoShorter(line: Text, x: Text, y: Text)
    requires TrimsTo(line, x) && TrimsTo(line, y)
    ensures |x| >= |y|
  {
    assert y != [] ==> y[|y| - 1] == line[|y| - 1];
  }

  lemma {:induction false} TrimsOnce(line: Text, trimmed: Text)
    ensures TrimsTo(line, trimmed) <==> trimmed == Rstrip(line)
  {
    var b := RightEnd(line);
    assert TrimsTo(line, line[..b]);
    if TrimsTo(line, trimmed) {
      TrimsNoShorter(line, trimmed, line[..b]);
      TrimsNoShorter(line, line[..b], trimmed);
      assert trimmed == line[..|trimmed|];
    }
  }

  /** Normalising, in full: the lines between the ends are trimmed, and the groups of lines that are not blank
      then stand one blank line apart. */
  lemma {:induction false} NormalSays(lines: seq<Text>, ends: seq<Text>, groups: seq<seq<Text>>, gaps: seq<nat>,
      last: nat)
    requires WellEnded(lines, ends) && WellSpaced(groups, gaps) && |lines| == |Spaced(groups, gaps)| + last
    requires forall i :: 0 <= i < |lines| ==> TrimsTo(lines[i], (Spaced(groups, gaps) + Blanks(last))[i])
    ensures Normalize(Body(lines, ends)) == Join(Tight(groups), Chars("\n"))
  {
    var trimmed := Spaced(groups, gaps) + Blanks(last);
    LinesRead(lines, ends);
    EndsAre();
    forall i | 0 <= i < |lines| ensures Rstrip(lines[i]) == trimmed[i] {
      TrimsOnce(lines[i], trimmed[i]);
    }
    assert Map(lines, Rstrip) == trimmed;
    GroupsStay(groups, gaps, last);
  }

  // ---------- A refused body ----------

  /** A refused body is shown line by line with hard breaks between: line `i` is token `2 * i`. */
  lemma {:induction false} LiteralSays(lines: seq<Text>)
    requires lines != []
    ensures var tokens := AnnounceTree.LiteralLines(lines);
      && |tokens| == 2 * |lines| - 1
      && (forall i :: 0 <= i < |lines| ==> tokens[2 * i] == T(lines[i]))
      && forall i :: 0 <= i < |lines| - 1 ==> tokens[2 * i + 1] == Br
  {
    if |lines| > 1 {
      LiteralSays(lines[1..]);
      var tokens, rest := AnnounceTree.LiteralLines(lines), AnnounceTree.LiteralLines(lines[1..]);
      forall i | 0 <= i < |lines| ensures tokens[2 * i] == T(lines[i]) {
        if i > 0 { assert tokens[2 * i] == rest[2 * (i - 1)]; }
      }
      forall i | 0 <= i < |lines| - 1 ensures tokens[2 * i + 1] == Br {
        if i > 0 { assert tokens[2 * i + 1] == rest[2 * (i - 1) + 1]; }
      }
    }
  }
}
