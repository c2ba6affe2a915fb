/** The blocks of an announcement (announcements/markdown.tsx, `tokenize` and `paragraph`), what makes
    an accepted body well formed, and what printing the tree gives back. */
module AnnounceBlocks {
  import opened Prelude
  import opened AnnounceText
  import opened AnnounceInline
  import opened AnnounceScan
  import opened AnnounceRules

  const MAX_LIST_ITEMS := 5
  const LIST_MARKER: Text := [DASH, 0x20]

  datatype Block = P(tokens: seq<Inline>) | Ul(items: seq<seq<Inline>>)

  predicate IsItem(line: Text) { LIST_MARKER <= line }

  predicate AllItems(lines: seq<Text>) { forall i :: 0 <= i < |lines| ==> IsItem(lines[i]) }

  predicate SomeItem(lines: seq<Text>) { exists i :: 0 <= i < |lines| && IsItem(lines[i]) }

  /** `paragraph`: the lines, each after a hard break but the first. */
  function ParagraphTokens(lines: seq<Text>): Outcome<seq<Inline>> {
    if lines == [] then Ok([])
    else
      var first := Scan(lines[0]);
      if |lines| == 1 || first.Refused? then first
      else Extends(first.value + [Br], ParagraphTokens(lines[1..]))
  }

  function ItemTokens(lines: seq<Text>): Outcome<seq<seq<Inline>>>
    requires AllItems(lines)
  {
    if lines == [] then Ok([])
    else
      var first := Scan(lines[0][2..]);
      if first.Refused? then Refused(first.code)
      else
        assert forall i :: 0 < i < |lines| ==> lines[i] == lines[1..][i - 1];
        var rest := ItemTokens(lines[1..]);
        if rest.Refused? then rest else Ok([first.value] + rest.value)
  }

  function BlockOfLines(lines: seq<Text>, seenList: bool): Outcome<Block> {
    if !AllItems(lines) then
      if SomeItem(lines) then Refused(ListMixed)
      else
        var tokens := ParagraphTokens(lines);
        if tokens.Refused? then Refused(tokens.code) else Ok(P(tokens.value))
    else if seenList then Refused(MultipleLists)
    else if |lines| > MAX_LIST_ITEMS then Refused(ListTooLong)
    else
      var items := ItemTokens(lines);
      if items.Refused? then Refused(items.code) else Ok(Ul(items.value))
  }

  function BlockOf(raw: Text, seenList: bool): Outcome<Block> {
    BlockOfLines(Split(raw, LINE_BREAK), seenList)
  }

  function BlocksOf(raws: seq<Text>, seenList: bool): Outcome<seq<Block>> {
    if raws == [] then Ok([])
    else
      var first := BlockOf(raws[0], seenList);
      if first.Refused? then Refused(first.code)
      else
        var rest := BlocksOf(raws[1..], seenList || first.value.Ul?);
        if rest.Refused? then rest else Ok([first.value] + rest.value)
  }

  function Tokenize(md: Text, nd: int -> bool): Outcome<seq<Block>> {
    var verdict := Verdict(md, nd);
    if verdict.Some? then Refused(verdict.value) else BlocksOf(Split(md, BLOCK_BREAK), false)
  }

  // ---------- The loops ----------

  lemma {:induction false} ExtendsAll<X>(done: seq<X>)
    ensures Extends(done, Ok([])) == Ok(done)
  {
    assert done + [] == done;
  }

  lemma {:induction false} ParagraphStep(lines: seq<Text>, i: nat)
    requires i < |lines|
    ensures ParagraphTokens(lines[i..]) ==
      var first := Scan(lines[i]);
      if i + 1 == |lines| || first.Refused? then first
      else Extends(first.value + [Br], ParagraphTokens(lines[i + 1..]))
  {
    assert lines[i..][0] == lines[i] && lines[i..][1..] == lines[i + 1..];
  }

  lemma {:induction false} ExtendsNone<X>(more: Outcome<seq<X>>)
    ensures Extends([], more) == more
  {
    if more.Ok? { assert [] + more.value == more.value; }
  }

  /** The tokens when line `index` comes next: after a hard break, unless it is the first. */
  function BeforeLine(tokens: seq<Inline>, index: nat): seq<Inline> {
    if index > 0 then tokens + [Br] else tokens
  }

  method Paragraph(lines: seq<Text>) returns (r: Outcome<seq<Inline>>)
    requires lines != []
    ensures r == ParagraphTokens(lines)
  {
    var tokens: seq<Inline> := [];
    assert lines[0..] == lines;
    ExtendsNone(ParagraphTokens(lines));
    for index := 0 to |lines|
      invariant index < |lines| ==>
        Extends(BeforeLine(tokens, index), ParagraphTokens(lines[index..])) == ParagraphTokens(lines)
      invariant index == |lines| ==> Ok(tokens) == ParagraphTokens(lines)
    {
      ParagraphStep(lines, index);
      if index > 0 { tokens := tokens + [Br]; }
      var line := ScanInline(lines[index]);
      if line.Refused? { return line; }
      ExtendsTwice(tokens, line.value + [Br],
        if index + 1 < |lines| then ParagraphTokens(lines[index + 1..]) else Ok([]));
      Regroup(tokens, line.value, [Br]);
      tokens := tokens + line.value;
    }
    r := Ok(tokens);
  }

  method Items(lines: seq<Text>) returns (r: Outcome<seq<seq<Inline>>>)
    requires AllItems(lines)
    ensures r == ItemTokens(lines)
  {
    var items: seq<seq<Inline>> := [];
    assert lines[0..] == lines;
    ExtendsNone(ItemTokens(lines));
    for i := 0 to |lines|
      invariant AllItems(lines[i..])
      invariant Extends(items, ItemTokens(lines[i..])) == ItemTokens(lines)
    {
      assert lines[i..][0] == lines[i] && lines[i..][1..] == lines[i + 1..];
      assert IsItem(lines[i]);
      var item := ScanInline(lines[i][2..]);
      if item.Refused? { return Refused(item.code); }
      ExtendsTwice(items, [item.value], ItemTokens(lines[i + 1..]));
      items := items + [item.value];
    }
    assert lines[|lines|..] == [];
    ExtendsAll(items);
    r := Ok(items);
  }

  method BlockAt(raw: Text, seenList: bool) returns (r: Outcome<Block>)
    ensures r == BlockOf(raw, seenList)
  {
    var lines := Split(raw, LINE_BREAK);
    if !AllItems(lines) {
      if SomeItem(lines) { return Refused(ListMixed); }
      var tokens := Paragraph(lines);
      return if tokens.Refused? then Refused(tokens.code) else Ok(P(tokens.value));
    }
    if seenList { return Refused(MultipleLists); }
    if |lines| > MAX_LIST_ITEMS { return Refused(ListTooLong); }
    var items := Items(lines);
    r := if items.Refused? then Refused(items.code) else Ok(Ul(items.value));
  }

  lemma {:induction false} BlocksStep(raws: seq<Text>, i: nat, seenList: bool)
    requires i < |raws|
    ensures BlocksOf(raws[i..], seenList) ==
      var first := BlockOf(raws[i], seenList);
      if first.Refused? then Refused(first.code)
      else Extends([first.value], BlocksOf(raws[i + 1..], seenList || first.value.Ul?))
  {
    assert raws[i..][0] == raws[i] && raws[i..][1..] == raws[i + 1..];
  }

  method Blocks(raws: seq<Text>) returns (r: Outcome<seq<Block>>)
    ensures r == BlocksOf(raws, false)
  {
    var blocks: seq<Block> := [];
    var seenList := false;
    assert raws[0..] == raws;
    ExtendsNone(BlocksOf(raws, false));
    for i := 0 to |raws|
      invariant Extends(blocks, BlocksOf(raws[i..], seenList)) == BlocksOf(raws, false)
    {
      BlocksStep(raws, i, seenList);
      var block := BlockAt(raws[i], seenList);
      if block.Refused? { return Refused(block.code); }
      ExtendsTwice(blocks, [block.value], BlocksOf(raws[i + 1..], seenList || block.value.Ul?));
      blocks := blocks + [block.value];
      seenList := seenList || block.value.Ul?;
    }
    assert raws[|raws|..] == [];
    ExtendsAll(blocks);
    r := Ok(blocks);
  }

  method TokenizeBody(md: Text, nd: int -> bool) returns (r: Outcome<seq<Block>>)
    ensures r == Tokenize(md, nd)
  {
    var verdict := BodyVerdict(md);
    if verdict.Some? { return Refused(verdict.value); }
    verdict := RejectLines(md, nd);
    if verdict.Some? { return Refused(verdict.value); }
    r := Blocks(Split(md, BLOCK_BREAK));
  }
}
