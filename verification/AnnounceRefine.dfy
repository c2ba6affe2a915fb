/** The whole of `tokenize` on UTF-16 units refines the same on code points: the same refusals, and
    otherwise the same tree (announcements/markdown.tsx). */
module AnnounceRefine {
  import opened Prelude
  import opened Utf16
  import opened AnnounceText
  import opened AnnounceInline
  import opened AnnounceRules
  import opened AnnounceBlocks
  import opened AnnounceNormalize
  import opened AnnounceUtf16

  // ---------- Patterns looked for anywhere ----------

  /** The pattern reads both forms of a text alike, and never starts inside a pair. */
  ghost predicate ReadsAlike(at: Text -> bool) {
    && (forall s :: CodePoints(s) ==> at(Encode(s)) == at(s))
    && forall s: Text :: s != [] && !Narrow(s[0]) ==> !at(s)
  }

  lemma {:induction false} FindsFrom(c: int, rest: Text, at: Text -> bool)
    ensures Finds([c] + rest, at) <==> at([c] + rest) || Finds(rest, at)
  {
    assert ([c] + rest)[1..] == rest;
  }

  lemma {:induction false} FindsSkip(u: Text, rest: Text, at: Text -> bool)
    requires 1 <= |u| <= 2 && (forall c :: c in u ==> !Narrow(c)) && ReadsAlike(at)
    ensures Finds(u + rest, at) <==> Finds(rest, at)
  {
    var t := u[1..];
    assert u == [u[0]] + t && u[0] in u;
    Regroup([u[0]], t, rest);
    FindsFrom(u[0], t + rest, at);
    if t == [] {
      assert t + rest == rest;
    } else {
      assert t == [u[1]] && u[1] in u;
      FindsFrom(u[1], rest, at);
    }
  }

  lemma {:induction false} FindsEncode(s: Text, at: Text -> bool)
    requires CodePoints(s) && ReadsAlike(at)
    ensures Finds(Encode(s), at) <==> Finds(s, at)
  {
    if s != [] {
      CodePointsTail(s);
      UnitsShape(s[0]);
      FindsEncode(s[1..], at);
      if Narrow(s[0]) {
        Head(s);
        assert at(Encode(s)) == at(s);
      } else {
        FindsSkip(Units(s[0]), Encode(s[1..]), at);
      }
    }
  }

  /** The test of one character that stands for itself. */
  lemma {:induction false} FirstEncode(s: Text, p: int -> bool)
    requires CodePoints(s) && forall c :: p(c) ==> Narrow(c)
    ensures Encode(s) != [] && p(Encode(s)[0]) <==> s != [] && p(s[0])
    ensures s != [] && p(s[0]) ==> Encode(s)[0] == s[0] && Encode(s)[1..] == Encode(s[1..]) && CodePoints(s[1..])
  {
    EmptyEncode(s);
    if s != [] { Head(s); }
  }

  function One(d: int): int -> bool { c => c == d }

  lemma {:induction false} TwoEncode(s: Text, c: int, p: int -> bool)
    requires CodePoints(s) && Narrow(c) && forall x :: p(x) ==> Narrow(x)
    ensures (|Encode(s)| > 1 && Encode(s)[0] == c && p(Encode(s)[1])) <==> (|s| > 1 && s[0] == c && p(s[1]))
  {
    FirstEncode(s, One(c));
    if s != [] && s[0] == c {
      FirstEncode(s[1..], p);
      assert |Encode(s)| > 1 ==> Encode(s)[1] == Encode(s)[1..][0];
    }
  }

  predicate ControlUnit(c: int) { 0 <= c <= 0x09 || 0x0B <= c <= 0x1F || c == 0x7F }
  predicate BidiUnit(c: int) { c == 0x061C || 0x200E <= c <= 0x200F || 0x202A <= c <= 0x202E || 0x2066 <= c <= 0x2069 }
  predicate TagChar(c: int) { IsLetter(c) || c in {SLASH, 0x21, 0x3F} }

  lemma {:induction false} CharsReadAlike()
    ensures ReadsAlike(AtControl) && ReadsAlike(AtBidi)
  {
    forall s | CodePoints(s) ensures AtControl(Encode(s)) == AtControl(s) && AtBidi(Encode(s)) == AtBidi(s) {
      FirstEncode(s, ControlUnit);
      FirstEncode(s, BidiUnit);
    }
  }

  lemma {:induction false} PairsReadAlike()
    ensures ReadsAlike(AtImage) && ReadsAlike(AtHtml) && ReadsAlike(AtFootnote)
  {
    forall s | CodePoints(s)
      ensures AtImage(Encode(s)) == AtImage(s) && AtHtml(Encode(s)) == AtHtml(s) &&
        AtFootnote(Encode(s)) == AtFootnote(s)
    {
      TwoEncode(s, 0x21, One(OPEN));
      TwoEncode(s, 0x3C, TagChar);
      TwoEncode(s, OPEN, One(0x5E));
    }
  }

  lemma {:induction false} WithoutEncode(s: Text, c: int)
    requires CodePoints(s) && Narrow(c)
    ensures CodePoints(Without(s, c)) && Without(Encode(s), c) == Encode(Without(s, c))
  {
    FirstEncode(s, One(c));
  }

  lemma {:induction false} EntityEncode(s: Text)
    requires CodePoints(s)
    ensures AtEntity(Encode(s)) == AtEntity(s)
  {
    FirstEncode(s, One(0x26));
    if s != [] && s[0] == 0x26 {
      var t := Without(s[1..], HASH);
      WithoutEncode(s[1..], HASH);
      SpanEncode(t, IsAlnum);
      EmptyEncode(Span(t, IsAlnum).0);
      FirstEncode(Span(t, IsAlnum).1, One(0x3B));
    }
  }

  lemma {:induction false} ReferenceEncode(s: Text)
    requires CodePoints(s)
    ensures AtReference(Encode(s)) == AtReference(s)
  {
    FirstEncode(s, One(CLOSE));
    if s != [] && s[0] == CLOSE {
      SpanEncode(s[1..], IsSpace);
      FirstEncode(Span(s[1..], IsSpace).1, One(OPEN));
    }
  }

  lemma {:induction false} LengthEncode(s: Text, p: int -> bool)
    requires CodePoints(s) && Uniform(p) && forall c :: p(c) ==> Narrow(c)
    ensures Encode(Span(s, p).0) == Span(s, p).0
  {
    SpanInClass(s, p);
    EncodeNarrow(Span(s, p).0);
  }

  lemma {:induction false} DashesEncode(s: Text)
    requires CodePoints(s)
    ensures AtDashes(Encode(s)) == AtDashes(s)
  {
    SpanEncode(s, IsDash);
    LengthEncode(s, IsDash);
    var rest := Span(s, IsDash).1;
    WithoutEncode(rest, COLON);
    SpanEncode(Without(rest, COLON), IsSpace);
    FirstEncode(Span(Without(rest, COLON), IsSpace).1, One(PIPE));
  }

  lemma {:induction false} DelimiterRowEncode(s: Text)
    requires CodePoints(s)
    ensures AtDelimiterRow(Encode(s)) == AtDelimiterRow(s)
  {
    FirstEncode(s, One(PIPE));
    if s != [] && s[0] == PIPE {
      SpanEncode(s[1..], IsSpace);
      var t := Span(s[1..], IsSpace).1;
      WithoutEncode(t, COLON);
      DashesEncode(Without(t, COLON));
    }
  }

  lemma {:induction false} RunsReadAlike()
    ensures ReadsAlike(AtEntity) && ReadsAlike(AtReference) && ReadsAlike(AtDelimiterRow)
  {
    forall s | CodePoints(s) ensures AtEntity(Encode(s)) == AtEntity(s) { EntityEncode(s); }
    forall s | CodePoints(s) ensures AtReference(Encode(s)) == AtReference(s) { ReferenceEncode(s); }
    forall s | CodePoints(s) ensures AtDelimiterRow(Encode(s)) == AtDelimiterRow(s) { DelimiterRowEncode(s); }
  }

  // ---------- The line rules ----------

  lemma {:induction false} StartsIsPrefix(s: Text, c: int)
    ensures StartsWith3(s, c) <==> [c, c, c] <= s
  {
    if StartsWith3(s, c) { assert s[..3] == [c, c, c]; }
  }

  lemma {:induction false} StartsEncode(line: Text, c: int)
    requires CodePoints(line) && Narrow(c)
    ensures StartsWith3(Encode(line), c) == StartsWith3(line, c)
  {
    PrefixEncode(line, [c, c, c]);
    StartsIsPrefix(line, c);
    StartsIsPrefix(Encode(line), c);
  }

  lemma {:induction false} HeadingEncode(line: Text)
    requires CodePoints(line)
    ensures IsHeading(Encode(line)) == IsHeading(line)
  {
    SpanEncode(line, IsHash);
    LengthEncode(line, IsHash);
    EmptyEncode(Span(line, IsHash).1);
    FirstEncode(Span(line, IsHash).1, IsSpace);
  }

  predicate IsDelimiter(c: int) { c in {DASH, STAR, 0x5F, 0x3D} }

  lemma {:induction false} AllEncode(s: Text, p: int -> bool)
    requires CodePoints(s) && Uniform(p)
    ensures Span(Encode(s), p).1 == [] <==> Span(s, p).1 == []
  {
    SpanEncode(s, p);
    EmptyEncode(Span(s, p).1);
  }

  lemma {:induction false} RuleByFirst(line: Text)
    ensures IsRule(line) <==>
      line != [] && IsDelimiter(line[0]) && Span(line, RuleClass(line[0])).1 == [] && line[0] in line[1..]
  {
  }

  lemma {:induction false} RuleClassUniform(c: int)
    requires IsDelimiter(c)
    ensures Narrow(c) && Uniform(RuleClass(c))
  {
  }

  lemma {:induction false} RuleTailEncode(line: Text, tail: Text, c: int)
    requires CodePoints(line) && CodePoints(tail) && IsDelimiter(c)
    ensures Span(Encode(line), RuleClass(c)).1 == [] <==> Span(line, RuleClass(c)).1 == []
    ensures c in Encode(tail) <==> c in tail
  {
    RuleClassUniform(c);
    AllEncode(line, RuleClass(c));
    InEncode(tail, c);
  }

  lemma {:induction false} RuleEncode(line: Text)
    requires CodePoints(line)
    ensures IsRule(Encode(line)) == IsRule(line)
  {
    FirstEncode(line, IsDelimiter);
    RuleByFirst(line);
    RuleByFirst(Encode(line));
    if line != [] && IsDelimiter(line[0]) { RuleTailEncode(line, line[1..], line[0]); }
  }

  lemma {:induction false} OrderedEncode(line: Text, nd: int -> bool)
    requires Iterated(line)
    ensures IsOrdered(Encode(line), nd) == IsOrdered(line, nd)
  {
    PointsEncode(line);
    PointsOfIterated(line);
  }

  lemma {:induction false} BulletEncode(line: Text)
    requires CodePoints(line)
    ensures IsBullet(Encode(line)) == IsBullet(line)
  {
    TwoEncode(line, STAR, IsSpace);
    TwoEncode(line, 0x2B, IsSpace);
  }

  lemma {:induction false} EmptyItemEncode(line: Text)
    requires CodePoints(line)
    ensures IsEmptyItem(Encode(line)) == IsEmptyItem(line)
  {
    FirstEncode(line, One(DASH));
    if line != [] && line[0] == DASH {
      SpanEncode(line[1..], IsSpace);
      EmptyEncode(Span(line[1..], IsSpace).1);
    }
  }

  lemma {:induction false} DefinitionEncode(line: Text)
    requires CodePoints(line)
    ensures IsDefinition(Encode(line)) == IsDefinition(line)
  {
    FirstEncode(line, One(OPEN));
    if line != [] && line[0] == OPEN {
      SpanEncode(line[1..], NotClose);
      var (name, rest) := Span(line[1..], NotClose);
      EmptyEncode(name);
      EmptyEncode(rest);
      if rest != [] {
        Head(rest);
        TwoEncode(rest[1..], COLON, IsSpace);
      }
    }
  }

  lemma {:induction false} DelimiterRowFound(line: Text)
    requires CodePoints(line)
    ensures Finds(Encode(line), AtDelimiterRow) <==> Finds(line, AtDelimiterRow)
  {
    RunsReadAlike();
    FindsEncode(line, AtDelimiterRow);
  }

  lemma {:induction false} TableEncode(line: Text)
    requires CodePoints(line)
    ensures Breaks(Table, Encode(line), x => false) == Breaks(Table, line, x => false)
  {
    FirstEncode(line, One(PIPE));
    DelimiterRowFound(line);
  }

  predicate IsBlank(c: int) { c in {0x20, 0x09} }

  /** Every rule judges the two forms of a line alike. */
  lemma {:induction false} BreaksEncode(rule: Code, line: Text, nd: int -> bool)
    requires Iterated(line)
    ensures Breaks(rule, Encode(line), nd) == Breaks(rule, line, nd)
  {
    match rule
    case CodeBlock =>
      StartsEncode(line, TICK);
      StartsEncode(line, 0x7E);
    case Heading => HeadingEncode(line);
    case Blockquote => FirstEncode(line, One(0x3E));
    case Table => TableEncode(line);
    case Rule => RuleEncode(line);
    case OrderedList => OrderedEncode(line, nd);
    case BulletMarker => BulletEncode(line);
    case ListItemEmpty => EmptyItemEncode(line);
    case Indented => FirstEncode(line, IsBlank);
    case _ =>
  }

  // ---------- Lines and blocks ----------

  function EncodeAll(parts: seq<Text>): seq<Text> { Map(parts, Encode) }

  ghost predicate AllCodePoints(parts: seq<Text>) {
    forall i :: 0 <= i < |parts| ==> CodePoints(parts[i])
  }

  lemma {:induction false} SplitUnit(c: int, rest: Text, sep: Text)
    requires sep != [] && c != sep[0]
    ensures Split([c] + rest, sep) == var r := Split(rest, sep); [[c] + r[0]] + r[1..]
  {
    assert ([c] + rest)[1..] == rest;
  }

  lemma {:induction false} SplitUnits(u: Text, rest: Text, sep: Text)
    requires sep != [] && 1 <= |u| <= 2 && forall c :: c in u ==> c != sep[0]
    ensures Split(u + rest, sep) == var r := Split(rest, sep); [u + r[0]] + r[1..]
  {
    if |u| == 1 {
      assert u == [u[0]] && u[0] in u;
      SplitUnit(u[0], rest, sep);
    } else {
      assert u == [u[0], u[1]] && u[0] in u && u[1] in u;
      assert u + rest == [u[0]] + ([u[1]] + rest);
      SplitUnit(u[0], [u[1]] + rest, sep);
      SplitUnit(u[1], rest, sep);
      var r := Split(rest, sep);
      assert [u[0]] + ([u[1]] + r[0]) == u + r[0];
    }
  }

  lemma {:induction false} EncodeAllEmpty(r: seq<Text>)
    requires AllCodePoints(r)
    ensures AllCodePoints([[]] + r) && EncodeAll([[]] + r) == [[]] + EncodeAll(r)
  {
    MapCons([], r, Encode);
  }

  lemma {:induction false} SplitHead(s: Text, sep: Text)
    requires CodePoints(s) && s != [] && sep != [] && AllNarrow(sep) && !(sep <= s)
    ensures Split(Encode(s), sep) == var r := Split(Encode(s[1..]), sep); [Units(s[0]) + r[0]] + r[1..]
  {
    CodePointsTail(s);
    UnitsShape(s[0]);
    PrefixEncode(s, sep);
    assert sep[0] in sep;
    if Narrow(s[0]) {
      Head(s);
      EmptyEncode(s);
    } else {
      SplitUnits(Units(s[0]), Encode(s[1..]), sep);
    }
  }

  lemma {:induction false} EncodeAllTail(lines: seq<Text>)
    requires lines != []
    ensures EncodeAll(lines)[0] == Encode(lines[0]) && EncodeAll(lines)[1..] == EncodeAll(lines[1..])
    ensures AllCodePoints(lines) ==> CodePoints(lines[0]) && AllCodePoints(lines[1..])
  {
    assert forall i :: 0 <= i < |lines[1..]| ==> lines[1..][i] == lines[i + 1];
  }

  lemma {:induction false} CodePointsCons(c: int, s: Text)
    requires IsPoint(c) && CodePoints(s)
    ensures CodePoints([c] + s)
  {
  }

  lemma {:induction false} FirstPartEncode(c: int, r: seq<Text>)
    requires IsPoint(c) && r != [] && AllCodePoints(r)
    ensures AllCodePoints([[c] + r[0]] + r[1..])
    ensures EncodeAll([[c] + r[0]] + r[1..]) == [Units(c) + Encode(r[0])] + EncodeAll(r)[1..]
  {
    EncodeAllTail(r);
    EncodeCons(c, r[0]);
    CodePointsCons(c, r[0]);
    MapCons([c] + r[0], r[1..], Encode);
  }

  /** A string without its pairs broken splits where its code points do. */
  lemma {:induction false} SplitEncode(s: Text, sep: Text)
    requires CodePoints(s) && sep != [] && AllNarrow(sep) && forall c :: c in sep ==> c == sep[0]
    ensures AllCodePoints(Split(s, sep))
    ensures Split(Encode(s), sep) == EncodeAll(Split(s, sep))
    decreases |s|
  {
    if s == [] {
      EmptyEncode(s);
    } else if sep <= s {
      PrefixEncode(s, sep);
      EmptyEncode(s);
      SplitEncode(s[|sep|..], sep);
      EncodeAllEmpty(Split(s[|sep|..], sep));
    } else {
      var t := s[1..];
      var r := Split(t, sep);
      CodePointsTail(s);
      SplitEncode(t, sep);
      SplitHead(s, sep);
      FirstPartEncode(s[0], r);
    }
  }

  // ---------- Parts of what the iterator yields ----------

  ghost predicate AllIterated(parts: seq<Text>) {
    forall i :: 0 <= i < |parts| ==> Iterated(parts[i])
  }

  ghost predicate AllPaired(parts: seq<Text>) {
    forall i :: 0 <= i < |parts| ==> Paired(parts[i])
  }

  lemma {:induction false} IteratedDrop(s: Text, n: nat)
    requires Iterated(s) && n <= |s|
    ensures Iterated(s[n..])
  {
    assert s == s[..n] + s[n..];
    PairedParts(s[..n], s[n..]);
    assert forall c :: c in s[n..] ==> c in s;
  }

  lemma {:induction false} PairedDrop(s: Text, n: nat)
    requires Paired(s) && n <= |s|
    ensures Paired(s[n..])
  {
    assert s == s[..n] + s[n..];
    PairedParts(s[..n], s[n..]);
  }

  /** Splitting joins no surrogates: the first part starts as the text does. */
  lemma {:induction false} SplitPaired(s: Text, sep: Text)
    requires Paired(s) && sep != []
    ensures AllPaired(Split(s, sep))
    ensures var first := Split(s, sep)[0]; first == [] || (s != [] && first[0] == s[0])
    decreases |s|
  {
    if s != [] {
      if sep <= s {
        PairedDrop(s, |sep|);
        SplitPaired(s[|sep|..], sep);
      } else {
        var t, r := s[1..], Split(s[1..], sep);
        assert s == [s[0]] + t;
        PairedCons(s[0], t);
        SplitPaired(t, sep);
        PairedCons(s[0], r[0]);
      }
    }
  }

  lemma {:induction false} ExtendsEncode(line: seq<Inline>, more: Outcome<seq<Inline>>)
    ensures Extends(EncodeTokens(line) + [Br], EncodeLine(more)) == EncodeLine(Extends(line + [Br], more))
  {
    if more.Ok? {
      assert EncodeTokens(line + [Br] + more.value) == EncodeTokens(line) + [Br] + EncodeTokens(more.value);
    }
  }

  lemma {:induction false} ParagraphEncode(lines: seq<Text>)
    requires AllIterated(lines)
    ensures ParagraphTokens(EncodeAll(lines)) == EncodeLine(ParagraphTokens(lines))
  {
    if lines == [] {
      assert EncodeTokens([]) == [];
    } else {
      var rest := lines[1..];
      ScanRefines(lines[0]);
      assert EncodeAll(lines)[1..] == EncodeAll(rest);
      forall i | 0 <= i < |rest| ensures Iterated(rest[i]) {
        assert rest[i] == lines[i + 1];
      }
      ParagraphEncode(rest);
      if |lines| > 1 && Scan(lines[0]).Ok? { ExtendsEncode(Scan(lines[0]).value, ParagraphTokens(rest)); }
    }
  }

  lemma {:induction false} ItemEncode(line: Text)
    requires CodePoints(line)
    ensures IsItem(Encode(line)) <==> IsItem(line)
    ensures IsItem(line) ==> CodePoints(line[2..]) && Encode(line)[2..] == Encode(line[2..])
  {
    PrefixEncode(line, LIST_MARKER);
  }

  lemma {:induction false} ItemsEncode(lines: seq<Text>)
    requires AllCodePoints(lines)
    ensures AllItems(EncodeAll(lines)) <==> AllItems(lines)
    ensures SomeItem(EncodeAll(lines)) <==> SomeItem(lines)
  {
    forall i | 0 <= i < |lines| ensures IsItem(EncodeAll(lines)[i]) <==> IsItem(lines[i]) {
      ItemEncode(lines[i]);
    }
  }

  function EncodeItems(items: seq<seq<Inline>>): seq<seq<Inline>> { Map(items, EncodeTokens) }

  function EncodeList(r: Outcome<seq<seq<Inline>>>): Outcome<seq<seq<Inline>>> {
    match r
    case Ok(items) => Ok(EncodeItems(items))
    case Refused(code) => Refused(code)
  }

  /** The items of `[first] + rest`. */
  function ConsTokens(first: Outcome<seq<Inline>>, rest: Outcome<seq<seq<Inline>>>): Outcome<seq<seq<Inline>>> {
    if first.Refused? then Refused(first.code)
    else if rest.Refused? then rest
    else Ok([first.value] + rest.value)
  }

  lemma {:induction false} ItemTokensSides(lines: seq<Text>)
    requires AllItems(lines) && lines != []
    ensures AllItems(lines[1..]) && |lines[0]| >= 2
    ensures ItemTokens(lines) == ConsTokens(Scan(lines[0][2..]), ItemTokens(lines[1..]))
  {
    assert forall i :: 0 < i < |lines| ==> lines[i] == lines[1..][i - 1];
  }

  lemma {:induction false} ConsTokensEncode(first: Outcome<seq<Inline>>, rest: Outcome<seq<seq<Inline>>>)
    ensures ConsTokens(EncodeLine(first), EncodeList(rest)) == EncodeList(ConsTokens(first, rest))
  {
    if first.Ok? && rest.Ok? { MapCons(first.value, rest.value, EncodeTokens); }
  }

  lemma {:induction false} EncodeAllSides(lines: seq<Text>)
    requires lines != []
    ensures EncodeAll(lines) != [] && EncodeAll(lines)[0] == Encode(lines[0]) &&
      EncodeAll(lines)[1..] == EncodeAll(lines[1..])
  {
  }

  lemma {:induction false} ItemTokensEncode(lines: seq<Text>)
    requires AllIterated(lines) && AllItems(lines)
    ensures AllItems(EncodeAll(lines))
    ensures ItemTokens(EncodeAll(lines)) == EncodeList(ItemTokens(lines))
  {
    ItemsEncode(lines);
    if lines == [] {
      assert EncodeItems([]) == [];
    } else {
      ItemTokensSides(lines);
      ItemTokensEncode(lines[1..]);
      ItemEncode(lines[0]);
      IteratedDrop(lines[0], 2);
      ScanRefines(lines[0][2..]);
      EncodeAllSides(lines);
      ItemTokensSides(EncodeAll(lines));
      ConsTokensEncode(Scan(lines[0][2..]), ItemTokens(lines[1..]));
    }
  }

  function EncodeBlock(b: Block): Block {
    match b
    case P(tokens) => P(EncodeTokens(tokens))
    case Ul(items) => Ul(EncodeItems(items))
  }

  function EncodeBlockOf(r: Outcome<Block>): Outcome<Block> {
    match r
    case Ok(b) => Ok(EncodeBlock(b))
    case Refused(code) => Refused(code)
  }

  function EncodeTree(r: Outcome<seq<Block>>): Outcome<seq<Block>> {
    match r
    case Ok(blocks) => Ok(Map(blocks, EncodeBlock))
    case Refused(code) => Refused(code)
  }

  lemma {:induction false} BlockLinesEncode(lines: seq<Text>, seenList: bool)
    requires AllIterated(lines)
    ensures BlockOfLines(EncodeAll(lines), seenList) == EncodeBlockOf(BlockOfLines(lines, seenList))
  {
    ItemsEncode(lines);
    if AllItems(lines) { ItemTokensEncode(lines); } else { ParagraphEncode(lines); }
  }

  lemma {:induction false} BlockEncode(raw: Text, seenList: bool)
    requires Iterated(raw)
    ensures BlockOf(Encode(raw), seenList) == EncodeBlockOf(BlockOf(raw, seenList))
  {
    SplitEncode(raw, LINE_BREAK);
    SplitPaired(raw, LINE_BREAK);
    BlockLinesEncode(Split(raw, LINE_BREAK), seenList);
  }

  lemma {:induction false} BlocksEncode(raws: seq<Text>, seenList: bool)
    requires AllIterated(raws)
    ensures BlocksOf(EncodeAll(raws), seenList) == EncodeTree(BlocksOf(raws, seenList))
  {
    if raws == [] {
      assert Map([], EncodeBlock) == [];
    } else {
      var rest := raws[1..];
      assert forall i :: 0 <= i < |rest| ==> rest[i] == raws[i + 1];
      BlockEncode(raws[0], seenList);
      assert EncodeAll(raws)[1..] == EncodeAll(rest);
      var first := BlockOf(raws[0], seenList);
      if first.Ok? {
        BlocksEncode(rest, seenList || first.value.Ul?);
        var more := BlocksOf(rest, seenList || first.value.Ul?);
        if more.Ok? { MapCons(first.value, more.value, EncodeBlock); }
      }
    }
  }

  // ---------- The verdicts ----------

  lemma {:induction false} BodyVerdictEncode(md: Text)
    requires Iterated(md)
    ensures BodyVerdict(Encode(md)) == BodyVerdict(md)
  {
    EmptyEncode(md);
    PointsEncode(md);
    PointsOfIterated(md);
    SplitEncode(md, LINE_BREAK);
    CharsReadAlike();
    FindsEncode(md, AtControl);
    FindsEncode(md, AtBidi);
  }

  lemma {:induction false} AnyBreaksEncode(lines: seq<Text>, rule: Code, nd: int -> bool)
    requires AllIterated(lines)
    ensures AnyBreaks(EncodeAll(lines), rule, nd) <==> AnyBreaks(lines, rule, nd)
  {
    forall i | 0 <= i < |lines| ensures Breaks(rule, EncodeAll(lines)[i], nd) == Breaks(rule, lines[i], nd) {
      BreaksEncode(rule, lines[i], nd);
    }
  }

  lemma {:induction false} AnyDefinesEncode(lines: seq<Text>)
    requires AllCodePoints(lines)
    ensures AnyDefines(EncodeAll(lines)) <==> AnyDefines(lines)
  {
    forall i | 0 <= i < |lines| ensures IsDefinition(EncodeAll(lines)[i]) == IsDefinition(lines[i]) {
      DefinitionEncode(lines[i]);
    }
  }

  lemma {:induction false} FirstBrokenEncode(lines: seq<Text>, rules: seq<Code>, nd: int -> bool)
    requires AllIterated(lines)
    ensures FirstBroken(EncodeAll(lines), rules, nd) == FirstBroken(lines, rules, nd)
  {
    if rules != [] {
      AnyBreaksEncode(lines, rules[0], nd);
      FirstBrokenEncode(lines, rules[1..], nd);
    }
  }

  lemma {:induction false} AnywhereEncode(md: Text)
    requires CodePoints(md)
    ensures Finds(Encode(md), AtImage) == Finds(md, AtImage)
    ensures Finds(Encode(md), AtHtml) == Finds(md, AtHtml)
    ensures Finds(Encode(md), AtEntity) == Finds(md, AtEntity)
    ensures Finds(Encode(md), AtFootnote) == Finds(md, AtFootnote)
    ensures Finds(Encode(md), AtReference) == Finds(md, AtReference)
  {
    PairsReadAlike();
    RunsReadAlike();
    FindsEncode(md, AtImage);
    FindsEncode(md, AtHtml);
    FindsEncode(md, AtEntity);
    FindsEncode(md, AtFootnote);
    FindsEncode(md, AtReference);
  }

  lemma {:induction false} VerdictEncode(md: Text, nd: int -> bool)
    requires Iterated(md)
    ensures Verdict(Encode(md), nd) == Verdict(md, nd)
  {
    var lines := Split(md, LINE_BREAK);
    BodyVerdictEncode(md);
    SplitEncode(md, LINE_BREAK);
    SplitPaired(md, LINE_BREAK);
    FirstBrokenEncode(lines, LINE_RULES, nd);
    AnywhereEncode(md);
    AnyDefinesEncode(lines);
  }

  /** On whatever the string iterator yields, the grammar over UTF-16 units gives the UTF-16 form of what the
      grammar over code points gives: the same tree, or the same refusal. */
  lemma {:induction false} TokenizeRefines(md: Text, nd: int -> bool)
    requires Iterated(md)
    ensures Tokenize(Encode(md), nd) == EncodeTree(Tokenize(md, nd))
  {
    VerdictEncode(md, nd);
    SplitEncode(md, BLOCK_BREAK);
    SplitPaired(md, BLOCK_BREAK);
    BlocksEncode(Split(md, BLOCK_BREAK), false);
  }

  // ---------- Normalising ----------

  lemma {:induction false} ReturnsUnit(c: int, rest: Text)
    ensures ReturnsToBreaks([c] + rest) == [if c == RETURN then NEWLINE else c] + ReturnsToBreaks(rest)
  {
    assert ([c] + rest)[1..] == rest;
  }

  lemma {:induction false} ReturnsUnits(c: int, rest: Text)
    requires IsPoint(c)
    ensures ReturnsToBreaks(Units(c) + rest) == Units(if c == RETURN then NEWLINE else c) + ReturnsToBreaks(rest)
  {
    UnitsShape(c);
    var u := Units(c);
    if |u| == 1 {
      ReturnsUnit(c, rest);
    } else {
      ReturnsUnit(u[0], [u[1]] + rest);
      ReturnsUnit(u[1], rest);
      assert u + rest == [u[0]] + ([u[1]] + rest);
      assert [u[0]] + ([u[1]] + ReturnsToBreaks(rest)) == u + ReturnsToBreaks(rest);
    }
  }

  lemma {:induction false} ReturnsEncode(s: Text)
    requires CodePoints(s)
    ensures CodePoints(ReturnsToBreaks(s)) && ReturnsToBreaks(Encode(s)) == Encode(ReturnsToBreaks(s))
  {
    if s != [] {
      var c, tail := if s[0] == RETURN then NEWLINE else s[0], ReturnsToBreaks(s[1..]);
      CodePointsTail(s);
      ReturnsEncode(s[1..]);
      ReturnsUnits(s[0], Encode(s[1..]));
      EncodeCons(c, tail);
      CodePointsCons(c, tail);
    }
  }

  lemma {:induction false} PairsUnit(c: int, rest: Text)
    requires c != RETURN
    ensures PairsToBreaks([c] + rest) == [c] + PairsToBreaks(rest)
  {
    assert ([c] + rest)[1..] == rest;
  }

  lemma {:induction false} PairsUnits(c: int, rest: Text)
    requires IsPoint(c) && c != RETURN
    ensures PairsToBreaks(Units(c) + rest) == Units(c) + PairsToBreaks(rest)
  {
    UnitsShape(c);
    var u := Units(c);
    if |u| == 1 {
      PairsUnit(c, rest);
    } else {
      PairsUnit(u[0], [u[1]] + rest);
      PairsUnit(u[1], rest);
      assert u + rest == [u[0]] + ([u[1]] + rest);
      assert [u[0]] + ([u[1]] + PairsToBreaks(rest)) == u + PairsToBreaks(rest);
    }
  }

  lemma {:induction false} PairsReturn(rest: Text)
    ensures PairsToBreaks([RETURN] + rest) ==
      if rest != [] && rest[0] == NEWLINE then [NEWLINE] + PairsToBreaks(rest[1..]) else [RETURN] + PairsToBreaks(rest)
  {
    assert ([RETURN] + rest)[1..] == rest;
    if rest != [] { assert ([RETURN] + rest)[2..] == rest[1..]; }
  }

  lemma {:induction false} PairsEncode(s: Text)
    requires CodePoints(s)
    ensures CodePoints(PairsToBreaks(s)) && PairsToBreaks(Encode(s)) == Encode(PairsToBreaks(s))
    decreases |s|
  {
    if s != [] {
      var c, t := s[0], s[1..];
      CodePointsTail(s);
      assert s == [c] + t;
      PairsEncode(t);
      if c != RETURN {
        PairsUnit(c, t);
        PairsUnits(c, Encode(t));
        EncodeCons(c, PairsToBreaks(t));
        CodePointsCons(c, PairsToBreaks(t));
      } else {
        PairsAfterReturn(t);
      }
    }
  }

  lemma {:induction false} PairsAfterReturn(t: Text)
    requires CodePoints(t) && CodePoints(PairsToBreaks(t)) && PairsToBreaks(Encode(t)) == Encode(PairsToBreaks(t))
    ensures CodePoints(PairsToBreaks([RETURN] + t))
    ensures PairsToBreaks(Encode([RETURN] + t)) == Encode(PairsToBreaks([RETURN] + t))
    decreases |t|, 0
  {
    EncodeCons(RETURN, t);
    PairsReturn(t);
    PairsReturn(Encode(t));
    FirstEncode(t, One(NEWLINE));
    if t != [] && t[0] == NEWLINE {
      PairsEncode(t[1..]);
      EncodeCons(NEWLINE, PairsToBreaks(t[1..]));
      CodePointsCons(NEWLINE, PairsToBreaks(t[1..]));
    } else {
      EncodeCons(RETURN, PairsToBreaks(t));
      CodePointsCons(RETURN, PairsToBreaks(t));
    }
  }

  lemma {:induction false} EncodeAllInit(lines: seq<Text>)
    requires lines != []
    ensures var n := |lines| - 1;
      && EncodeAll(lines)[n] == Encode(lines[n]) && EncodeAll(lines)[..n] == EncodeAll(lines[..n])
      && (AllCodePoints(lines) ==> CodePoints(lines[n]) && AllCodePoints(lines[..n]))
  {
  }

  lemma {:induction false} EncodeAllPush(lines: seq<Text>, line: Text)
    ensures EncodeAll(lines + [line]) == EncodeAll(lines) + [Encode(line)]
    ensures AllCodePoints(lines) && CodePoints(line) ==> AllCodePoints(lines + [line])
  {
  }

  lemma {:induction false} DropEncode(lines: seq<Text>)
    requires AllCodePoints(lines)
    ensures AllCodePoints(DropLeading(lines)) && DropLeading(EncodeAll(lines)) == EncodeAll(DropLeading(lines))
  {
    if lines != [] {
      EmptyEncode(lines[0]);
      EncodeAllTail(lines);
      DropEncode(lines[1..]);
    }
  }

  lemma {:induction false} DropEndEncode(lines: seq<Text>)
    requires AllCodePoints(lines)
    ensures AllCodePoints(DropTrailing(lines)) && DropTrailing(EncodeAll(lines)) == EncodeAll(DropTrailing(lines))
  {
    if lines != [] {
      EmptyEncode(lines[|lines| - 1]);
      EncodeAllInit(lines);
      DropEndEncode(lines[..|lines| - 1]);
    }
  }

  lemma {:induction false} EncodeAllLast(lines: seq<Text>)
    requires AllCodePoints(lines)
    ensures |EncodeAll(lines)| == |lines|
    ensures lines != [] ==> (EncodeAll(lines)[|lines| - 1] == [] <==> lines[|lines| - 1] == [])
  {
    if lines != [] { EmptyEncode(lines[|lines| - 1]); }
  }

  lemma {:induction false} PushLineEncode(collapsed: seq<Text>, line: Text)
    requires AllCodePoints(collapsed) && CodePoints(line)
    ensures AllCodePoints(PushLine(collapsed, line))
    ensures PushLine(EncodeAll(collapsed), Encode(line)) == EncodeAll(PushLine(collapsed, line))
  {
    EmptyEncode(line);
    EncodeAllLast(collapsed);
    EncodeAllPush(collapsed, line);
  }

  lemma {:induction false} CollapseEncode(lines: seq<Text>)
    requires AllCodePoints(lines)
    ensures AllCodePoints(Collapse(lines)) && Collapse(EncodeAll(lines)) == EncodeAll(Collapse(lines))
  {
    if lines != [] {
      EncodeAllInit(lines);
      CollapseEncode(lines[..|lines| - 1]);
      PushLineEncode(Collapse(lines[..|lines| - 1]), lines[|lines| - 1]);
    }
  }

  lemma {:induction false} TrimEncode(lines: seq<Text>)
    requires AllCodePoints(lines)
    ensures AllCodePoints(Map(lines, Rstrip)) && Map(EncodeAll(lines), Rstrip) == EncodeAll(Map(lines, Rstrip))
  {
    forall i | 0 <= i < |lines|
      ensures CodePoints(Map(lines, Rstrip)[i]) && Map(EncodeAll(lines), Rstrip)[i] == EncodeAll(Map(lines, Rstrip))[i]
    {
      RstripEncode(lines[i]);
    }
  }

  lemma {:induction false} BreakEncode(a: Text, b: Text)
    requires CodePoints(a) && CodePoints(b)
    ensures CodePoints(a + LINE_BREAK + b) && Encode(a + LINE_BREAK + b) == Encode(a) + LINE_BREAK + Encode(b)
  {
    EncodeAppend(a + LINE_BREAK, b);
    EncodeAppend(a, LINE_BREAK);
    EncodeNarrow(LINE_BREAK);
  }

  lemma {:induction false} JoinEncode(lines: seq<Text>)
    requires AllCodePoints(lines)
    ensures CodePoints(Join(lines, LINE_BREAK)) && Join(EncodeAll(lines), LINE_BREAK) == Encode(Join(lines, LINE_BREAK))
  {
    if |lines| > 1 {
      EncodeAllTail(lines);
      JoinEncode(lines[1..]);
      BreakEncode(lines[0], Join(lines[1..], LINE_BREAK));
    }
  }

  /** Normalising commutes with the change of reading too. */
  lemma {:induction false} NormalizeRefines(md: Text)
    requires CodePoints(md)
    ensures CodePoints(Normalize(md)) && Normalize(Encode(md)) == Encode(Normalize(md))
  {
    var text := ReturnsToBreaks(PairsToBreaks(md));
    PairsEncode(md);
    ReturnsEncode(PairsToBreaks(md));
    SplitEncode(text, LINE_BREAK);
    TrimEncode(Split(text, LINE_BREAK));
    DropEncode(TrimmedLines(md));
    DropEndEncode(DropLeading(TrimmedLines(md)));
    CollapseEncode(DropTrailing(DropLeading(TrimmedLines(md))));
    JoinEncode(NormalLinesOf(md));
  }

  /** The text starts as `s` does, or with a newline. */
  ghost predicate StartsAs(r: Text, s: Text) {
    (r == [] <==> s == []) && (s != [] ==> r[0] == s[0] || r[0] == NEWLINE)
  }

  lemma {:induction false} ConsPaired(c: int, s: Text, r: Text)
    requires Paired([c] + s) && Paired(r) && StartsAs(r, s)
    ensures Paired([c] + r)
  {
    PairedCons(c, s);
    PairedCons(c, r);
  }

  lemma {:induction false} NewlinePaired(r: Text)
    requires Paired(r)
    ensures Paired([NEWLINE] + r)
  {
    PairedCons(NEWLINE, r);
  }

  lemma {:induction false} PairsPaired(s: Text)
    requires Paired(s)
    ensures Paired(PairsToBreaks(s)) && StartsAs(PairsToBreaks(s), s)
    decreases |s|
  {
    if s != [] {
      if |s| > 1 && s[0] == RETURN && s[1] == NEWLINE {
        PairedDrop(s, 2);
        PairsPaired(s[2..]);
        NewlinePaired(PairsToBreaks(s[2..]));
      } else {
        PairedDrop(s, 1);
        PairsPaired(s[1..]);
        assert s == [s[0]] + s[1..];
        ConsPaired(s[0], s[1..], PairsToBreaks(s[1..]));
      }
    }
  }

  lemma {:induction false} ReturnsPaired(s: Text)
    requires Paired(s)
    ensures Paired(ReturnsToBreaks(s)) && StartsAs(ReturnsToBreaks(s), s)
  {
    if s != [] {
      var r := ReturnsToBreaks(s[1..]);
      PairedDrop(s, 1);
      ReturnsPaired(s[1..]);
      assert s == [s[0]] + s[1..];
      ConsPaired(s[0], s[1..], r);
      NewlinePaired(r);
    }
  }

  lemma {:induction false} PairedPrefix(r: Text, s: Text)
    requires Paired(s) && r <= s
    ensures Paired(r)
  {
    forall i | 0 < i < |r| ensures !(IsHigh(r[i - 1]) && IsLow(r[i])) {
      assert r[i - 1] == s[i - 1] && r[i] == s[i];
    }
  }

  lemma {:induction false} RstripPaired(s: Text)
    requires Paired(s)
    ensures Paired(Rstrip(s))
  {
    PairedPrefix(Rstrip(s), s);
  }

  lemma {:induction false} TrimPaired(lines: seq<Text>)
    requires AllPaired(lines)
    ensures AllPaired(Map(lines, Rstrip))
  {
    forall i | 0 <= i < |lines| ensures Paired(Map(lines, Rstrip)[i]) {
      RstripPaired(lines[i]);
    }
  }

  lemma {:induction false} DropPaired(lines: seq<Text>)
    requires AllPaired(lines)
    ensures AllPaired(DropLeading(lines))
  {
    if lines != [] { DropPaired(lines[1..]); }
  }

  lemma {:induction false} DropEndPaired(lines: seq<Text>)
    requires AllPaired(lines)
    ensures AllPaired(DropTrailing(lines))
  {
    if lines != [] { DropEndPaired(lines[..|lines| - 1]); }
  }

  lemma {:induction false} CollapsePaired(lines: seq<Text>)
    requires AllPaired(lines)
    ensures AllPaired(Collapse(lines))
  {
    forall i | 0 <= i < |Collapse(lines)| ensures Paired(Collapse(lines)[i]) {
      assert Collapse(lines)[i] in lines;
    }
  }

  lemma {:induction false} BreakPaired(a: Text, b: Text)
    requires Paired(a) && Paired(b)
    ensures Paired(a + LINE_BREAK + b)
  {
    var s := a + LINE_BREAK + b;
    forall i | 0 < i < |s| ensures !(IsHigh(s[i - 1]) && IsLow(s[i])) {
      if i < |a| {
        assert s[i - 1] == a[i - 1] && s[i] == a[i];
      } else if i <= |a| + 1 {
        assert s[|a|] == NEWLINE;
      } else {
        var k := i - |a| - 1;
        assert s[i - 1] == b[k - 1] && s[i] == b[k];
      }
    }
  }

  lemma {:induction false} JoinPaired(lines: seq<Text>)
    requires AllPaired(lines)
    ensures Paired(Join(lines, LINE_BREAK))
  {
    if |lines| > 1 {
      JoinPaired(lines[1..]);
      BreakPaired(lines[0], Join(lines[1..], LINE_BREAK));
    }
  }

  /** Normalising brings no two surrogates together. */
  lemma {:induction false} NormalizePaired(md: Text)
    requires Paired(md)
    ensures Paired(Normalize(md))
  {
    var text := ReturnsToBreaks(PairsToBreaks(md));
    PairsPaired(md);
    ReturnsPaired(PairsToBreaks(md));
    SplitPaired(text, LINE_BREAK);
    TrimPaired(Split(text, LINE_BREAK));
    DropPaired(TrimmedLines(md));
    DropEndPaired(DropLeading(TrimmedLines(md)));
    CollapsePaired(DropTrailing(DropLeading(TrimmedLines(md))));
    JoinPaired(NormalLinesOf(md));
  }

  /** The two readings agree from the raw body to the tree. */
  lemma {:induction false} PipelineRefines(md: Text, nd: int -> bool)
    requires Iterated(md)
    ensures Tokenize(Normalize(Encode(md)), nd) == EncodeTree(Tokenize(Normalize(md), nd))
  {
    NormalizeRefines(md);
    NormalizePaired(md);
    TokenizeRefines(Normalize(md), nd);
  }

  /** For every string of units, lone surrogates included: what the engine computes on units is the UTF-16
      form of what the grammar gives on the code points of its iterator, from the raw body to the tree. */
  lemma {:induction false} UnitsRefine(units: Text, nd: int -> bool)
    requires IsUnits(units)
    ensures Tokenize(Normalize(units), nd) == EncodeTree(Tokenize(Normalize(Points(units)), nd))
  {
    EncodePoints(units);
    PipelineRefines(Points(units), nd);
  }
}
