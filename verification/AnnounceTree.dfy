/** What is known of the token tree of an accepted announcement: its shape, and what printing it gives
    back (announcements/markdown.tsx). */
module AnnounceTree {
  import opened Prelude
  import opened AnnounceText
  import opened AnnounceInline
  import opened AnnounceScan
  import opened AnnounceRules
  import opened AnnounceNormalize
  import opened AnnounceBlocks

  // ---------- The lines of the blocks are the lines of the body ----------

  lemma {:induction false} SplitStep(s: Text, c: int)
    requires s != []
    ensures var rest := Split(s[1..], [c]);
      Split(s, [c]) == if s[0] == c then [[]] + rest else [[s[0]] + rest[0]] + rest[1..]
  {
    assert [c] <= s <==> s[0] == c;
  }

  lemma {:induction false} SplitGlue(c: int, x: seq<Text>, y: seq<Text>)
    requires x != []
    ensures [[]] + (x + y) == [[]] + x + y
    ensures [[c] + (x + y)[0]] + (x + y)[1..] == [[c] + x[0]] + x[1..] + y
  {
    assert (x + y)[1..] == x[1..] + y;
  }

  lemma {:induction false} SplitAppend(a: Text, b: Text, c: int)
    ensures Split(a + [c] + b, [c]) == Split(a, [c]) + Split(b, [c])
    decreases |a|
  {
    var s := a + [c] + b;
    SplitStep(s, c);
    if a == [] {
      assert s[1..] == b;
    } else {
      SplitStep(a, c);
      SplitAppend(a[1..], b, c);
      assert s[0] == a[0] && s[1..] == a[1..] + [c] + b;
      SplitGlue(a[0], Split(a[1..], [c]), Split(b, [c]));
    }
  }

  lemma {:induction false} SplitAcrossBlock(a: Text, b: Text)
    ensures Split(a + BLOCK_BREAK + b, LINE_BREAK) == Split(a, LINE_BREAK) + [[]] + Split(b, LINE_BREAK)
  {
    assert a + BLOCK_BREAK + b == (a + LINE_BREAK) + LINE_BREAK + b;
    SplitAppend(a + LINE_BREAK, b, NEWLINE);
    assert a + LINE_BREAK == a + LINE_BREAK + [];
    SplitAppend(a, [], NEWLINE);
  }

  lemma {:induction false} LinesOfJoin(raws: seq<Text>, k: nat, line: Text)
    requires k < |raws| && line in Split(raws[k], LINE_BREAK)
    ensures line in Split(Join(raws, BLOCK_BREAK), LINE_BREAK)
    decreases |raws|
  {
    if |raws| > 1 {
      SplitAcrossBlock(raws[0], Join(raws[1..], BLOCK_BREAK));
      if k > 0 { LinesOfJoin(raws[1..], k - 1, line); }
    }
  }

  /** A line of a block is a line of the body. */
  lemma {:induction false} LinesOfBlocks(md: Text, raw: Text, line: Text)
    requires raw in Split(md, BLOCK_BREAK) && line in Split(raw, LINE_BREAK)
    ensures line in Split(md, LINE_BREAK)
  {
    var raws := Split(md, BLOCK_BREAK);
    var k :| 0 <= k < |raws| && raws[k] == raw;
    JoinSplit(md, BLOCK_BREAK);
    LinesOfJoin(raws, k, line);
  }

  // ---------- The shape of the tree ----------

  /** A paragraph: lines of tokens with single hard breaks between them. */
  ghost predicate ParagraphOk(tokens: seq<Inline>) {
    && tokens != [] && !tokens[0].Br? && !tokens[|tokens| - 1].Br?
    && (forall i :: 0 < i < |tokens| ==> !(tokens[i - 1].Br? && tokens[i].Br?))
    && NoAdjacentTexts(tokens)
    && forall t :: t in tokens ==> t.Br? || TokenOk(t)
  }

  ghost predicate ListOk(items: seq<seq<Inline>>) {
    && 1 <= |items| <= MAX_LIST_ITEMS
    && forall item :: item in items ==> item != [] && LineOk(item)
  }

  ghost predicate BlockOk(b: Block) {
    match b
    case P(tokens) => ParagraphOk(tokens)
    case Ul(items) => ListOk(items)
  }

  /** At most one list, and everything in its proper form. */
  ghost predicate TreeOk(blocks: seq<Block>) {
    && blocks != [] && (forall b :: b in blocks ==> BlockOk(b))
    && forall i, j :: 0 <= i < j < |blocks| ==> !(blocks[i].Ul? && blocks[j].Ul?)
  }

  lemma {:induction false} LineIsParagraph(tokens: seq<Inline>)
    requires tokens != [] && LineOk(tokens)
    ensures ParagraphOk(tokens)
  {
    assert forall i :: 0 <= i < |tokens| ==> tokens[i] in tokens && TokenOk(tokens[i]);
  }

  lemma {:induction false} ParagraphJoins(line: seq<Inline>, rest: seq<Inline>)
    requires line != [] && LineOk(line) && ParagraphOk(rest)
    ensures ParagraphOk(line + [Br] + rest)
  {
    var s := line + [Br] + rest;
    assert forall i :: 0 <= i < |line| ==> line[i] in line && TokenOk(line[i]);
    forall i | 0 < i < |s| ensures !(s[i - 1].Br? && s[i].Br?) && !(s[i - 1].T? && s[i].T?) {
      if i < |line| {
        assert s[i - 1] == line[i - 1] && s[i] == line[i];
      } else if i > |line| + 1 {
        assert s[i - 1] == rest[i - 2 - |line|] && s[i] == rest[i - 1 - |line|];
      }
    }
  }

  lemma {:induction false} ParagraphShape(lines: seq<Text>)
    requires lines != [] && forall line :: line in lines ==> line != []
    ensures ParagraphTokens(lines).Ok? ==> ParagraphOk(ParagraphTokens(lines).value)
  {
    if ParagraphTokens(lines).Ok? {
      assert lines[0] in lines;
      ScanShape(lines[0]);
      var first := Scan(lines[0]).value;
      if |lines| == 1 {
        LineIsParagraph(first);
      } else {
        assert forall line :: line in lines[1..] ==> line in lines;
        ParagraphShape(lines[1..]);
        ParagraphJoins(first, ParagraphTokens(lines[1..]).value);
      }
    }
  }

  lemma {:induction false} ItemsShape(lines: seq<Text>)
    requires AllItems(lines) && forall line :: line in lines ==> line[2..] != []
    ensures ItemTokens(lines).Ok? ==>
      && |ItemTokens(lines).value| == |lines|
      && forall item :: item in ItemTokens(lines).value ==> item != [] && LineOk(item)
  {
    if lines != [] && ItemTokens(lines).Ok? {
      assert lines[0] in lines && forall line :: line in lines[1..] ==> line in lines;
      ScanShape(lines[0][2..]);
      assert AllItems(lines[1..]);
      ItemsShape(lines[1..]);
    }
  }

  lemma {:induction false} BareMarkerIsEmpty(nd: int -> bool)
    ensures Breaks(ListItemEmpty, LIST_MARKER, nd)
  {
    assert LIST_MARKER[1..] == [0x20] && [0x20][1..] == [];
    assert IsSpace(0x20);
    assert Span([0x20], IsSpace).1 == [];
  }

  /** What the line rules leave of an item: more than its marker. */
  lemma {:induction false} ItemHasText(line: Text, nd: int -> bool)
    requires IsItem(line) && !Breaks(ListItemEmpty, line, nd)
    ensures line[2..] != []
  {
    BareMarkerIsEmpty(nd);
    assert line == LIST_MARKER + line[2..] && LIST_MARKER + [] == LIST_MARKER;
  }

  lemma {:induction false} BlockShape(raw: Text, seenList: bool)
    requires SolidBlock(raw)
    requires forall line :: line in Split(raw, LINE_BREAK) && IsItem(line) ==> line[2..] != []
    ensures BlockOf(raw, seenList).Ok? ==>
      BlockOk(BlockOf(raw, seenList).value) && !(seenList && BlockOf(raw, seenList).value.Ul?)
  {
    var lines := Split(raw, LINE_BREAK);
    SolidLines(raw);
    if AllItems(lines) {
      assert forall line :: line in lines ==> IsItem(line);
      ItemsShape(lines);
    } else {
      ParagraphShape(lines);
    }
  }

  lemma {:induction false} ListsApart(first: Block, rest: seq<Block>)
    requires first.Ul? ==> forall b :: b in rest ==> !b.Ul?
    requires forall i, j :: 0 <= i < j < |rest| ==> !(rest[i].Ul? && rest[j].Ul?)
    ensures var blocks := [first] + rest;
      forall i, j :: 0 <= i < j < |blocks| ==> !(blocks[i].Ul? && blocks[j].Ul?)
  {
    var blocks := [first] + rest;
    forall i, j | 0 <= i < j < |blocks| ensures !(blocks[i].Ul? && blocks[j].Ul?) {
      assert blocks[j] == rest[j - 1] && rest[j - 1] in rest;
      if i > 0 { assert blocks[i] == rest[i - 1]; }
    }
  }

  lemma {:induction false} BlocksShape(raws: seq<Text>, seenList: bool)
    requires forall raw :: raw in raws ==> SolidBlock(raw)
    requires forall raw, line :: raw in raws && line in Split(raw, LINE_BREAK) && IsItem(line) ==> line[2..] != []
    requires BlocksOf(raws, seenList).Ok?
    ensures var blocks := BlocksOf(raws, seenList).value;
      && |blocks| == |raws| && (forall b :: b in blocks ==> BlockOk(b))
      && (seenList ==> forall b :: b in blocks ==> !b.Ul?)
      && forall i, j :: 0 <= i < j < |blocks| ==> !(blocks[i].Ul? && blocks[j].Ul?)
  {
    if raws != [] {
      assert raws[0] in raws && forall raw :: raw in raws[1..] ==> raw in raws;
      BlockShape(raws[0], seenList);
      var first := BlockOf(raws[0], seenList).value;
      BlocksShape(raws[1..], seenList || first.Ul?);
      var rest := BlocksOf(raws[1..], seenList || first.Ul?).value;
      var blocks := BlocksOf(raws, seenList).value;
      assert blocks == [first] + rest;
      ListsApart(first, rest);
    }
  }

  lemma {:induction false} LinesKeepRules(md: Text, nd: int -> bool, line: Text)
    requires Verdict(md, nd).None? && line in Split(md, LINE_BREAK)
    ensures !Breaks(ListItemEmpty, line, nd)
  {
    var lines := Split(md, LINE_BREAK);
    assert FirstBroken(lines, LINE_RULES, nd).None?;
    assert LINE_RULES[7] == ListItemEmpty;
    assert !AnyBreaks(lines, LINE_RULES[7], nd);
    var i :| 0 <= i < |lines| && lines[i] == line;
  }

  /** An accepted body in normal form gives a well-formed tree. */
  lemma {:induction false} AcceptedIsWellFormed(md: Text, nd: int -> bool)
    requires IsNormal(md) && Tokenize(md, nd).Ok?
    ensures TreeOk(Tokenize(md, nd).value)
  {
    var raws := Split(md, BLOCK_BREAK);
    assert md != [];
    BlocksAreSolid(md);
    forall raw, line | raw in raws && line in Split(raw, LINE_BREAK) && IsItem(line) ensures line[2..] != [] {
      LinesOfBlocks(md, raw, line);
      LinesKeepRules(md, nd, line);
      ItemHasText(line, nd);
    }
    BlocksShape(raws, false);
  }

  // ---------- Printing ----------

  function PrintItems(items: seq<seq<Inline>>): Text {
    if items == [] then []
    else if |items| == 1 then LIST_MARKER + Print(items[0])
    else LIST_MARKER + Print(items[0]) + LINE_BREAK + PrintItems(items[1..])
  }

  function PrintBlock(b: Block): Text {
    match b
    case P(tokens) => Print(tokens)
    case Ul(items) => PrintItems(items)
  }

  function PrintBody(blocks: seq<Block>): Text {
    if blocks == [] then []
    else if |blocks| == 1 then PrintBlock(blocks[0])
    else PrintBlock(blocks[0]) + BLOCK_BREAK + PrintBody(blocks[1..])
  }

  /** The part of a line that is scanned. */
  function Scanned(line: Text): Text { if IsItem(line) then line[2..] else line }

  /** No link of the body has a padded label. */
  ghost predicate UnpaddedLines(lines: seq<Text>) {
    forall i :: 0 <= i < |lines| ==> NoPadding(Pieces(Scanned(lines[i])))
  }

  ghost predicate UnpaddedBlocks(raws: seq<Text>) {
    forall i :: 0 <= i < |raws| ==> UnpaddedLines(Split(raws[i], LINE_BREAK))
  }

  ghost predicate UnpaddedBody(md: Text) {
    UnpaddedBlocks(Split(md, BLOCK_BREAK))
  }

  /** What is printed is the source when `exact`, and shorter when not. */
  ghost predicate Prints(printed: Text, source: Text, exact: bool) {
    |printed| <= |source| && (exact ==> printed == source) && (!exact ==> |printed| < |source|)
  }

  lemma {:induction false} PrintsAround(a: Text, a': Text, p: bool, sep: Text, b: Text, b': Text, q: bool)
    requires Prints(a, a', p) && Prints(b, b', q)
    ensures Prints(a + sep + b, a' + sep + b', p && q)
  {
  }

  lemma {:induction false} LinePrints(line: Text)
    requires Scan(line).Ok?
    ensures Prints(Print(Scan(line).value), line, NoPadding(Pieces(line)))
  {
    PrintScan(line);
  }

  lemma {:induction false} UnpaddedFirst(lines: seq<Text>)
    requires lines != []
    ensures UnpaddedLines(lines) <==> NoPadding(Pieces(Scanned(lines[0]))) && UnpaddedLines(lines[1..])
  {
    assert forall i :: 0 < i < |lines| ==> lines[i] == lines[1..][i - 1];
  }

  lemma {:induction false} PrintOne(token: Inline)
    ensures Print([token]) == PrintToken(token)
  {
    assert [token][1..] == [];
  }

  lemma {:induction false} PrintParagraph(a: seq<Inline>, b: seq<Inline>)
    ensures Print(a + [Br] + b) == Print(a) + LINE_BREAK + Print(b)
  {
    PrintAppend(a + [Br], b);
    PrintAppend(a, [Br]);
    PrintOne(Br);
  }

  lemma {:induction false} ParagraphPrints(lines: seq<Text>)
    requires ParagraphTokens(lines).Ok? && !SomeItem(lines)
    ensures Prints(Print(ParagraphTokens(lines).value), Join(lines, LINE_BREAK), UnpaddedLines(lines))
  {
    if lines != [] {
      UnpaddedFirst(lines);
      assert !IsItem(lines[0]);
      LinePrints(lines[0]);
      if |lines| > 1 {
        assert forall i :: 0 < i < |lines| ==> lines[i] == lines[1..][i - 1];
        ParagraphPrints(lines[1..]);
        var first, rest := Scan(lines[0]).value, ParagraphTokens(lines[1..]).value;
        PrintParagraph(first, rest);
        PrintsAround(Print(first), lines[0], NoPadding(Pieces(lines[0])), LINE_BREAK,
                     Print(rest), Join(lines[1..], LINE_BREAK), UnpaddedLines(lines[1..]));
      }
    }
  }

  lemma {:induction false} ItemPrints(line: Text)
    requires IsItem(line) && Scan(line[2..]).Ok?
    ensures Prints(LIST_MARKER + Print(Scan(line[2..]).value), line, NoPadding(Pieces(line[2..])))
  {
    LinePrints(line[2..]);
    assert line == LIST_MARKER + line[2..];
  }

  lemma {:induction false} ItemsPrint(lines: seq<Text>)
    requires AllItems(lines) && lines != [] && ItemTokens(lines).Ok?
    ensures |ItemTokens(lines).value| == |lines|
    ensures Prints(PrintItems(ItemTokens(lines).value), Join(lines, LINE_BREAK), UnpaddedLines(lines))
  {
    UnpaddedFirst(lines);
    ItemPrints(lines[0]);
    if |lines| > 1 {
      assert forall i :: 0 < i < |lines| ==> lines[i] == lines[1..][i - 1];
      ItemsPrint(lines[1..]);
      var first, rest := Scan(lines[0][2..]).value, ItemTokens(lines[1..]).value;
      assert ([first] + rest)[1..] == rest;
      PrintsAround(LIST_MARKER + Print(first), lines[0], NoPadding(Pieces(lines[0][2..])), LINE_BREAK,
                   PrintItems(rest), Join(lines[1..], LINE_BREAK), UnpaddedLines(lines[1..]));
    }
  }

  lemma {:induction false} BlockPrints(raw: Text, seenList: bool)
    requires BlockOf(raw, seenList).Ok?
    ensures Prints(PrintBlock(BlockOf(raw, seenList).value), raw, UnpaddedLines(Split(raw, LINE_BREAK)))
  {
    var lines := Split(raw, LINE_BREAK);
    JoinSplit(raw, LINE_BREAK);
    if AllItems(lines) { ItemsPrint(lines); } else { ParagraphPrints(lines); }
  }

  lemma {:induction false} BlocksPrint(raws: seq<Text>, seenList: bool)
    requires raws != [] && BlocksOf(raws, seenList).Ok?
    ensures |BlocksOf(raws, seenList).value| == |raws|
    ensures Prints(PrintBody(BlocksOf(raws, seenList).value), Join(raws, BLOCK_BREAK), UnpaddedBlocks(raws))
  {
    BlockPrints(raws[0], seenList);
    var first := BlockOf(raws[0], seenList).value;
    assert forall i :: 0 < i < |raws| ==> raws[i] == raws[1..][i - 1];
    if |raws| > 1 {
      BlocksPrint(raws[1..], seenList || first.Ul?);
      var rest := BlocksOf(raws[1..], seenList || first.Ul?).value;
      assert ([first] + rest)[1..] == rest;
      PrintsAround(PrintBlock(first), raws[0], UnpaddedLines(Split(raws[0], LINE_BREAK)), BLOCK_BREAK,
                   PrintBody(rest), Join(raws[1..], BLOCK_BREAK), UnpaddedBlocks(raws[1..]));
    }
  }

  /** Printing the tree of an accepted body gives the body back exactly when no label is padded. */
  lemma {:induction false} BodyRoundTrip(md: Text, nd: int -> bool)
    requires Tokenize(md, nd).Ok?
    ensures PrintBody(Tokenize(md, nd).value) == md <==> UnpaddedBody(md)
  {
    BlocksPrint(Split(md, BLOCK_BREAK), false);
    JoinSplit(md, BLOCK_BREAK);
  }

  // ---------- What the reader sees ----------

  /** `literalLines`: every line as it is. */
  function LiteralLines(lines: seq<Text>): seq<Inline> {
    if lines == [] then []
    else if |lines| == 1 then [T(lines[0])]
    else [T(lines[0]), Br] + LiteralLines(lines[1..])
  }

  /** `renderAnnouncementMarkdown`, up to React. */
  method Render(md: Text, nd: int -> bool) returns (blocks: seq<Block>)
    ensures Tokenize(Normalize(md), nd).Ok? ==> blocks == Tokenize(Normalize(md), nd).value
    ensures Tokenize(Normalize(md), nd).Refused? ==> blocks == [P(LiteralLines(Split(Normalize(md), LINE_BREAK)))]
  {
    var normalized := NormalizeBody(md);
    var tokens := TokenizeBody(normalized, nd);
    blocks := if tokens.Ok? then tokens.value else [P(LiteralLines(Split(normalized, LINE_BREAK)))];
  }

  lemma {:induction false} LiteralPrints(lines: seq<Text>)
    ensures Print(LiteralLines(lines)) == Join(lines, LINE_BREAK)
  {
    if |lines| == 1 {
      assert [T(lines[0])][1..] == [];
    } else if lines != [] {
      LiteralPrints(lines[1..]);
      PrintParagraph([T(lines[0])], LiteralLines(lines[1..]));
      assert [T(lines[0]), Br] == [T(lines[0])] + [Br];
      assert [T(lines[0])][1..] == [];
    }
  }

  /** The words are never lost: whatever is rendered prints as the normalised body, unless a padded
      label was accepted. */
  lemma {:induction false} RenderKeepsWords(md: Text, nd: int -> bool, blocks: seq<Block>)
    requires Tokenize(Normalize(md), nd).Ok? ==> blocks == Tokenize(Normalize(md), nd).value
    requires Tokenize(Normalize(md), nd).Refused? ==> blocks == [P(LiteralLines(Split(Normalize(md), LINE_BREAK)))]
    ensures PrintBody(blocks) == Normalize(md) <==> Tokenize(Normalize(md), nd).Refused? || UnpaddedBody(Normalize(md))
    ensures Tokenize(Normalize(md), nd).Ok? ==> TreeOk(blocks)
  {
    var n := Normalize(md);
    if Tokenize(n, nd).Ok? {
      BodyRoundTrip(n, nd);
      NormalizeIsNormal(md);
      AcceptedIsWellFormed(n, nd);
    } else {
      LiteralPrints(Split(n, LINE_BREAK));
      JoinSplit(n, LINE_BREAK);
    }
  }
}
