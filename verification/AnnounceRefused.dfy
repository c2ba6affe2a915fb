/** Why an announcement that breaks none of the nineteen rules may still be refused (announcements/markdown.tsx):
    for the first block that is no proper list or holds a link that is refused. And one family that is
    always accepted: a link by itself. */
module AnnounceRefused {
  import opened Prelude
  import opened AnnounceText
  import opened AnnounceInline
  import opened AnnounceRules
  import opened AnnounceBlocks
  import opened AnnounceLetters
  import opened AnnounceAccept
  import opened AnnounceWritten
  import Utf16

  // ---------- Refused links ----------

  /** The piece at `k` is the first link that is refused, and `code` is why. */
  ghost predicate RefusedAt(ps: seq<Piece>, k: int, code: Code) {
    && 0 <= k < |ps| && ps[k].Link? && LinkRuling(ps[k].caption, ps[k].url, Some(code))
    && forall j :: 0 <= j < k && ps[j].Link? ==> LinkRuling(ps[j].caption, ps[j].url, None)
  }

  lemma {:induction false} RulingIsOne(text: Text, url: Text, refusal: Option<Code>)
    ensures LinkRuling(text, url, refusal) <==> refusal == LinkRefusal(text, url)
  {
    LinkRulingIs(text, url);
  }

  lemma {:induction false} TokenRefused(p: Piece, code: Code)
    ensures TokenOf(p) == Refused(code) <==> p.Link? && LinkRuling(p.caption, p.url, Some(code))
    ensures TokenOf(p).Ok? <==> !p.Link? || LinkRuling(p.caption, p.url, None)
  {
    if p.Link? {
      RulingIsOne(p.caption, p.url, Some(code));
      RulingIsOne(p.caption, p.url, None);
    }
  }

  lemma {:induction false} RefusedLater(p: Piece, rest: seq<Piece>, k: int, code: Code)
    requires TokenOf(p).Ok?
    ensures RefusedAt(rest, k, code) <==> RefusedAt([p] + rest, k + 1, code)
    ensures !RefusedAt([p] + rest, 0, code)
  {
    var ps := [p] + rest;
    TokenRefused(p, code);
    assert forall j :: 0 <= j < |rest| ==> rest[j] == ps[j + 1];
    assert forall j :: 0 < j < |ps| ==> ps[j] == rest[j - 1];
  }

  lemma {:induction false} RefusedFirst(p: Piece, rest: seq<Piece>, k: int, code: Code)
    requires TokenOf(p).Refused?
    ensures RefusedAt([p] + rest, k, code) <==> k == 0 && TokenOf(p).code == code
  {
    var ps := [p] + rest;
    assert ps[0] == p;
    TokenRefused(p, code);
    TokenRefused(p, TokenOf(p).code);
  }

  ghost predicate SomeRefused(ps: seq<Piece>, code: Code) {
    exists k :: RefusedAt(ps, k, code)
  }

  lemma {:induction false} SomeRefusedOn(p: Piece, rest: seq<Piece>, code: Code)
    ensures SomeRefused([p] + rest, code) <==>
      if TokenOf(p).Refused? then TokenOf(p).code == code else SomeRefused(rest, code)
  {
    if TokenOf(p).Refused? {
      RefusedFirst(p, rest, 0, code);
      if k :| RefusedAt([p] + rest, k, code) { RefusedFirst(p, rest, k, code); }
    } else {
      if k :| RefusedAt(rest, k, code) { RefusedLater(p, rest, k, code); }
      if k :| RefusedAt([p] + rest, k, code) { RefusedLater(p, rest, k - 1, code); }
    }
  }

  lemma {:induction false} TokensRefused(ps: seq<Piece>, buffer: Text, code: Code)
    ensures Tokens(ps, buffer) == Refused(code) <==> SomeRefused(ps, code)
    decreases |ps|
  {
    if ps != [] {
      assert ps == [ps[0]] + ps[1..];
      SomeRefusedOn(ps[0], ps[1..], code);
      TokensRefused(ps[1..], if ps[0].Lit? then buffer + [ps[0].c] else [], code);
    }
  }

  /** A line is refused exactly for its first link that is. */
  lemma {:induction false} ScanRefused(s: Text, code: Code)
    ensures Scan(s) == Refused(code) <==> SomeRefused(Pieces(s), code)
  {
    TokensRefused(Pieces(s), [], code);
  }

  // ---------- Blocks ----------

  /** The outcome at `i` is the first refusal, for `code`. */
  ghost predicate FirstBad<X>(outcomes: seq<Outcome<X>>, i: int, code: Code) {
    0 <= i < |outcomes| && outcomes[i] == Refused(code) && forall j :: 0 <= j < i ==> outcomes[j].Ok?
  }

  ghost predicate SomeBad<X>(outcomes: seq<Outcome<X>>, code: Code) {
    exists i :: FirstBad(outcomes, i, code)
  }

  lemma {:induction false} BadLater<X>(first: Outcome<X>, rest: seq<Outcome<X>>, i: int, code: Code)
    requires first.Ok?
    ensures FirstBad(rest, i, code) <==> FirstBad([first] + rest, i + 1, code)
    ensures !FirstBad([first] + rest, 0, code)
  {
    var all := [first] + rest;
    assert forall j :: 0 <= j < |rest| ==> rest[j] == all[j + 1];
    assert forall j :: 0 < j < |all| ==> all[j] == rest[j - 1];
  }

  lemma {:induction false} BadOn<X>(first: Outcome<X>, rest: seq<Outcome<X>>, code: Code)
    ensures SomeBad([first] + rest, code) <==> if first.Refused? then first.code == code else SomeBad(rest, code)
  {
    var all := [first] + rest;
    assert all[0] == first;
    if first.Refused? {
      if first.code == code { assert FirstBad(all, 0, code); }
    } else {
      if i :| FirstBad(rest, i, code) { BadLater(first, rest, i, code); }
      if i :| FirstBad(all, i, code) { BadLater(first, rest, i - 1, code); }
    }
  }

  lemma {:induction false} MapOn<S, X>(lines: seq<S>, f: S -> X)
    requires lines != []
    ensures Map(lines, f) == [f(lines[0])] + Map(lines[1..], f)
  {
  }

  lemma {:induction false} ParagraphRefused(lines: seq<Text>, code: Code)
    ensures ParagraphTokens(lines) == Refused(code) <==> SomeBad(Map(lines, Scan), code)
  {
    if lines != [] {
      MapOn(lines, Scan);
      BadOn(Scan(lines[0]), Map(lines[1..], Scan), code);
      ParagraphRefused(lines[1..], code);
    }
  }

  /** What is read of an item. */
  function ItemText(line: Text): Text { if |line| < 2 then [] else line[2..] }

  function ScanItem(line: Text): Outcome<seq<Inline>> { Scan(ItemText(line)) }

  lemma {:induction false} ItemsRefused(lines: seq<Text>, code: Code)
    requires AllItems(lines)
    ensures ItemTokens(lines) == Refused(code) <==> SomeBad(Map(lines, ScanItem), code)
  {
    if lines != [] {
      MapOn(lines, ScanItem);
      BadOn(ScanItem(lines[0]), Map(lines[1..], ScanItem), code);
      assert IsItem(lines[0]) && AllItems(lines[1..]);
      ItemsRefused(lines[1..], code);
    }
  }

  /** Every line of the block opens an item. */
  ghost predicate ListBlock(raw: Text) {
    forall a, b :: LineAt(raw, a, b) ==> OpensItem(raw[a..b])
  }

  /** No line of the block opens an item. */
  ghost predicate TextBlock(raw: Text) {
    forall a, b :: LineAt(raw, a, b) ==> !OpensItem(raw[a..b])
  }

  lemma {:induction false} BlockKind(raw: Text, lines: seq<Text>)
    requires lines == Split(raw, LINE_BREAK)
    ensures AllItems(lines) <==> ListBlock(raw)
    ensures SomeItem(lines) <==> !TextBlock(raw)
  {
    SomeLineIs(raw, lines, line => !IsItem(line));
    SomeLineIs(raw, lines, IsItem);
    forall line ensures IsItem(line) <==> OpensItem(line) {
      ItemStarts(line);
    }
  }

  /** What a block is refused for: items and other lines, a second list, more than five items, a link. */
  ghost predicate BlockRuling(raw: Text, seenList: bool, code: Code) {
    var lines := Split(raw, Chars("\n"));
    if TextBlock(raw) then SomeBad(Map(lines, Scan), code)
    else if !ListBlock(raw) then code == ListMixed
    else if seenList then code == MultipleLists
    else if Newlines(raw) + 1 > 5 then code == ListTooLong
    else SomeBad(Map(lines, ScanItem), code)
  }

  lemma {:induction false} LinesRuling(lines: seq<Text>, seenList: bool, code: Code)
    requires lines != []
    ensures BlockOfLines(lines, seenList) == Refused(code) <==>
      if !SomeItem(lines) then SomeBad(Map(lines, Scan), code)
      else if !AllItems(lines) then code == ListMixed
      else if seenList then code == MultipleLists
      else if |lines| > 5 then code == ListTooLong
      else SomeBad(Map(lines, ScanItem), code)
    ensures BlockOfLines(lines, seenList).Ok? ==> (BlockOfLines(lines, seenList).value.Ul? <==> AllItems(lines))
  {
    assert AllItems(lines) ==> IsItem(lines[0]);
    if AllItems(lines) { ItemsRefused(lines, code); } else { ParagraphRefused(lines, code); }
  }

  lemma {:induction false} BlockRulingIs(raw: Text, seenList: bool, code: Code)
    ensures BlockOf(raw, seenList) == Refused(code) <==> BlockRuling(raw, seenList, code)
    ensures BlockOf(raw, seenList).Ok? ==> (BlockOf(raw, seenList).value.Ul? <==> ListBlock(raw))
  {
    MarksAre();
    BlockKind(raw, Split(raw, LINE_BREAK));
    LineCount(raw);
    LinesRuling(Split(raw, LINE_BREAK), seenList, code);
  }

  ghost predicate ListBefore(raws: seq<Text>, k: int) {
    exists j :: 0 <= j < k && j < |raws| && ListBlock(raws[j])
  }

  ghost function OutcomeAt(raws: seq<Text>, seenList: bool, k: nat): Outcome<Block>
    requires k < |raws|
  {
    BlockOf(raws[k], seenList || ListBefore(raws, k))
  }

  /** What becomes of each block, given the lists before it. */
  ghost function Outcomes(raws: seq<Text>, seenList: bool): (r: seq<Outcome<Block>>)
    ensures |r| == |raws| && forall k :: 0 <= k < |raws| ==> r[k] == OutcomeAt(raws, seenList, k)
  {
    seq(|raws|, k requires 0 <= k < |raws| => OutcomeAt(raws, seenList, k))
  }

  lemma {:induction false} ListBeforeOn(raw: Text, rest: seq<Text>, k: nat)
    ensures ListBefore([raw] + rest, k + 1) <==> ListBlock(raw) || ListBefore(rest, k)
    ensures !ListBefore([raw] + rest, 0)
  {
    var raws := [raw] + rest;
    if ListBlock(raw) { assert ListBlock(raws[0]); }
    if j :| 0 <= j < k && j < |rest| && ListBlock(rest[j]) { assert ListBlock(raws[j + 1]); }
    if j :| 0 <= j < k + 1 && j < |raws| && ListBlock(raws[j]) && !ListBlock(raw) { assert ListBlock(rest[j - 1]); }
  }

  lemma {:induction false} OutcomeOn(raw: Text, rest: seq<Text>, seenList: bool, k: nat)
    requires k < |rest|
    ensures OutcomeAt([raw] + rest, seenList, k + 1) == OutcomeAt(rest, seenList || ListBlock(raw), k)
  {
    ListBeforeOn(raw, rest, k);
    assert ([raw] + rest)[k + 1] == rest[k];
  }

  lemma {:induction false} OutcomeFirst(raw: Text, rest: seq<Text>, seenList: bool)
    ensures OutcomeAt([raw] + rest, seenList, 0) == BlockOf(raw, seenList)
  {
    ListBeforeOn(raw, rest, 0);
  }

  lemma {:induction false} ConsIs<X>(all: seq<X>, first: X, more: seq<X>)
    requires |all| == |more| + 1 && all[0] == first && forall k :: 0 <= k < |more| ==> all[k + 1] == more[k]
    ensures all == [first] + more
  {
    assert forall k :: 0 < k < |all| ==> all[k] == more[k - 1];
  }

  lemma {:induction false} OutcomesAt(raws: seq<Text>, seenList: bool, all: seq<Outcome<Block>>, k: nat)
    requires all == Outcomes(raws, seenList) && k < |raws|
    ensures |all| == |raws| && all[k] == OutcomeAt(raws, seenList, k)
  {
  }

  lemma {:induction false} OutcomesOn(raw: Text, rest: seq<Text>, seenList: bool, all: seq<Outcome<Block>>,
      more: seq<Outcome<Block>>)
    requires all == Outcomes([raw] + rest, seenList) && more == Outcomes(rest, seenList || ListBlock(raw))
    ensures all == [BlockOf(raw, seenList)] + more
  {
    OutcomeFirst(raw, rest, seenList);
    OutcomesAt([raw] + rest, seenList, all, 0);
    forall k | 0 <= k < |more| ensures all[k + 1] == more[k] {
      OutcomesAt([raw] + rest, seenList, all, k + 1);
      OutcomesAt(rest, seenList || ListBlock(raw), more, k);
      OutcomeOn(raw, rest, seenList, k);
    }
    ConsIs(all, BlockOf(raw, seenList), more);
  }

  lemma {:induction false} BlocksRefused(raws: seq<Text>, seenList: bool, code: Code)
    ensures BlocksOf(raws, seenList) == Refused(code) <==> SomeBad(Outcomes(raws, seenList), code)
  {
    if raws != [] {
      var raw, rest := raws[0], raws[1..];
      assert raws == [raw] + rest;
      OutcomesOn(raw, rest, seenList, Outcomes(raws, seenList), Outcomes(rest, seenList || ListBlock(raw)));
      BadOn(BlockOf(raw, seenList), Outcomes(rest, seenList || ListBlock(raw)), code);
      BlockRulingIs(raw, seenList, code);
      BlocksRefused(rest, seenList || ListBlock(raw), code);
    }
  }

  /** A body is refused for the first rule it breaks, or else for its first block that is refused. */
  lemma {:induction false} BodyRefused(md: Text, nd: int -> bool, code: Code)
    ensures Tokenize(md, nd) == Refused(code) <==>
      RuledOut(code, md, nd)
      || ((forall c :: !BodyBreaks(c, md, nd)) && SomeBad(Outcomes(Split(md, Chars("\n\n")), false), code))
  {
    VerdictIs(md, nd, code);
    assert Chars("\n\n") == BLOCK_BREAK;
    BlocksRefused(Split(md, BLOCK_BREAK), false, code);
    if Verdict(md, nd).Some? { VerdictIs(md, nd, Verdict(md, nd).value); }
  }

  // ---------- A link by itself ----------

  /** Letters, digits and spaces, with no space at an end. */
  predicate Caption(text: Text) {
    && text != [] && !At(text, 0, ' ') && !At(text, |text| - 1, ' ')
    && forall k :: 0 <= k < |text| ==> Letter(text[k]) || Digit(text[k]) || text[k] == ' ' as int
  }

  function LinkBody(caption: Text, url: Text): Text {
    Chars("[") + caption + Chars("](") + url + Chars(")")
  }

  /** An url the grammar takes, in which nothing reads as a character entity. */
  ghost predicate LinkUrl(url: Text) {
    && (SafeHttps(url) || SafePath(url)) && |url| <= 300
    && forall i, j :: !EntityFrom(url, i, j)
  }

  /** The characters of such a body. */
  predicate LinkChar(c: int) {
    UrlChar(c) || c in {' ' as int, '[' as int, ']' as int, '(' as int, ')' as int}
  }

  lemma {:induction false} LinkBodyAt(caption: Text, url: Text, body: Text)
    requires body == LinkBody(caption, url)
    ensures |body| == |caption| + |url| + 4
    ensures At(body, 0, '[') && forall k :: 1 <= k <= |caption| ==> body[k] == caption[k - 1]
    ensures At(body, |caption| + 1, ']') && At(body, |caption| + 2, '(') && At(body, |body| - 1, ')')
    ensures forall k :: |caption| + 3 <= k < |body| - 1 ==> body[k] == url[k - |caption| - 3]
  {
  }

  lemma {:induction false} LinkBodyChars(caption: Text, url: Text, body: Text)
    requires Caption(caption) && LinkUrl(url) && body == LinkBody(caption, url)
    ensures forall k :: 0 <= k < |body| ==> LinkChar(body[k])
    ensures forall k :: 0 < k < |body| ==> !At(body, k, '[')
    ensures forall k :: 0 < k < |body| && At(body, k, ']') ==> At(body, k + 1, '(')
  {
    UrlCharsAre(url);
    LinkBodyAt(caption, url, body);
  }

  lemma {:induction false} AsciiPoints(s: Text)
    requires forall k :: 0 <= k < |s| ==> 0 <= s[k] < 0x80
    ensures Utf16.Points(s) == s
  {
    forall i | 0 < i < |s| ensures !(Utf16.IsHigh(s[i - 1]) && Utf16.IsLow(s[i])) {
      assert 0 <= s[i] < 0x80;
    }
    Utf16.PointsOfIterated(s);
  }

  lemma {:induction false} MarkInUrl(caption: Text, url: Text, body: Text, i: int, c: char)
    requires Caption(caption) && body == LinkBody(caption, url) && At(body, i, c) && c in {'&', ';'}
    ensures |caption| + 3 <= i < |caption| + 3 + |url|
  {
    LinkBodyAt(caption, url, body);
    assert forall k :: 1 <= k <= |caption| ==> body[k] == caption[k - 1];
  }

  lemma {:induction false} UrlInBody(caption: Text, url: Text, body: Text)
    requires body == LinkBody(caption, url)
    ensures var n := |caption| + 3; n + |url| <= |body| && forall k :: 0 <= k < |url| ==> url[k] == body[k + n]
  {
  }

  lemma {:induction false} EntityLater(body: Text, url: Text, n: nat, i: int, j: int)
    requires n + |url| <= |body| && forall k :: 0 <= k < |url| ==> url[k] == body[k + n]
    requires n <= i < n + |url| && n <= j < n + |url| && EntityFrom(body, i, j)
    ensures EntityFrom(url, i - n, j - n)
  {
  }

  lemma {:induction false} EntityInUrl(caption: Text, url: Text, body: Text, i: int, j: int)
    requires Caption(caption) && body == LinkBody(caption, url) && EntityFrom(body, i, j)
    ensures EntityFrom(url, i - |caption| - 3, j - |caption| - 3)
  {
    UrlInBody(caption, url, body);
    MarkInUrl(caption, url, body, i, '&');
    MarkInUrl(caption, url, body, j, ';');
    EntityLater(body, url, |caption| + 3, i, j);
  }

  /** What makes a body of one link pass. */
  ghost predicate LinkLike(body: Text) {
    && 3 <= |body| <= 600 && At(body, 0, '[') && (Letter(body[1]) || Digit(body[1]))
    && (forall k :: 0 <= k < |body| ==> LinkChar(body[k]))
    && (forall k :: 0 < k < |body| ==> !At(body, k, '['))
    && (forall k :: 0 < k < |body| && At(body, k, ']') ==> At(body, k + 1, '('))
    && forall i, j :: !EntityFrom(body, i, j)
  }

  lemma {:induction false} LinkBodyLike(caption: Text, url: Text, body: Text)
    requires Caption(caption) && LinkUrl(url) && body == LinkBody(caption, url) && |body| <= 600
    ensures LinkLike(body)
  {
    LinkBodyAt(caption, url, body);
    LinkBodyChars(caption, url, body);
    if i, j :| EntityFrom(body, i, j) { EntityInUrl(caption, url, body, i, j); }
    assert body[1] == caption[0];
  }

  lemma {:induction false} LinkAscii(body: Text)
    requires LinkLike(body)
    ensures Utf16.Points(body) == body && Newlines(body) == 0
    ensures forall k :: 0 <= k < |body| ==> 0x20 <= body[k] < 0x7F && body[k] !in {0x3C, 0x5E, 0x7C}
  {
    forall k | 0 <= k < |body| ensures 0x20 <= body[k] < 0x7F && body[k] !in {0x3C, 0x5E, 0x7C} {
      assert LinkChar(body[k]);
    }
    AsciiPoints(body);
    assert '\n' as int !in body;
  }

  lemma {:induction false} Starts(line: Text, nd: int -> bool, n: int)
    ensures HeadingTo(line, n) ==> At(line, 0, '#')
    ensures OrderedTo(line, nd, n) ==> nd(line[0])
  {
  }

  lemma {:induction false} LinkFirst(line: Text, nd: int -> bool, code: Code)
    requires At(line, 0, '[') && Utf16.Points(line) == line && !nd('[' as int)
    requires forall k :: 0 <= k < |line| ==> line[k] != 0x7C
    ensures !LineBreaks(code, line, nd)
  {
    forall n ensures !HeadingTo(line, n) && !OrderedTo(line, nd, n) {
      Starts(line, nd, n);
    }
    forall i: nat ensures !RowHere(line, i) {
      assert !At(line, i, '|');
    }
  }

  lemma {:induction false} OneLine(body: Text, a: int, b: int)
    requires LinkLike(body) && LineAt(body, a, b)
    ensures a == 0 && b == |body| && body[a..b] == body
  {
    LinkAscii(body);
    assert body[0..|body|] == body;
  }

  lemma {:induction false} LinkLines(body: Text, nd: int -> bool, code: Code)
    requires LinkLike(body) && !nd('[' as int)
    ensures !SomeLineBreaks(body, code, nd) && !SomeDefinition(body)
  {
    LinkAscii(body);
    LinkFirst(body, nd, code);
    forall a, b | LineAt(body, a, b) ensures body[a..b] == body {
      OneLine(body, a, b);
    }
    forall n ensures !DefinitionTo(body, n) {
      if n >= 2 && At(body, n, ']') { assert At(body, n + 1, '('); }
    }
  }

  lemma {:induction false} LinkNowhere(body: Text)
    requires LinkLike(body)
    ensures !Somewhere(body, ControlHere) && !Somewhere(body, BidiHere)
    ensures !Somewhere(body, ImageHere) && !Somewhere(body, HtmlHere) && !Somewhere(body, FootnoteHere)
    ensures forall i, j :: !ReferenceFrom(body, i, j)
  {
    LinkAscii(body);
  }

  lemma {:induction false} LinkPasses(body: Text, nd: int -> bool, code: Code)
    requires LinkLike(body) && !nd('[' as int)
    ensures !BodyBreaks(code, body, nd)
  {
    LinkAscii(body);
    LinkNowhere(body);
    LinkLines(body, nd, code);
  }

  lemma {:induction false} LinkDraft(caption: Text, url: Text, kind: LinkKind, tokens: seq<Inline>, body: Text)
    requires tokens == [A(caption, url, kind)] && Plain(tokens[0]) && body == LinkBody(caption, url)
    requires '\n' as int !in body
    ensures PlainText(tokens) && QuietLine(tokens) && WrittenLine(tokens) == body && !OpensItem(body)
  {
    assert tokens[1..] == [];
    assert body[0] == '[' as int;
  }

  lemma {:induction false} OneDraft(tokens: seq<Inline>, drafts: seq<Draft>, body: Text)
    requires PlainText(tokens) && QuietLine(tokens) && WrittenLine(tokens) == body && !OpensItem(body)
    requires drafts == [Para([tokens])]
    ensures PlainBody(drafts) && QuietDrafts(drafts) && WrittenBody(drafts) == body && Map(drafts, Meant) == [P(tokens)]
  {
    assert PlainDraft(drafts[0]);
    assert Map([tokens], WrittenLine) == [body];
    assert Map(drafts, DraftText) == [body];
    assert Meant(drafts[0]) == P(tokens);
  }

  lemma {:induction false} LinkPlain(caption: Text, url: Text)
    requires Caption(caption) && LinkUrl(url)
    ensures Plain(A(caption, url, if SafeHttps(url) then Ext else Int))
  {
    UrlCharsAre(url);
    AsciiPoints(url);
    assert !White(caption[0]) && !White(caption[|caption| - 1]);
    assert forall k :: 0 <= k < |caption| ==> caption[k] in caption;
  }

  /** A link by itself is one paragraph that holds it, whatever its label and its url. */
  lemma {:induction false} LinkIsAccepted(caption: Text, url: Text, nd: int -> bool)
    requires Caption(caption) && LinkUrl(url) && |LinkBody(caption, url)| <= 600 && !nd('[' as int)
    ensures Tokenize(LinkBody(caption, url), nd) == Ok([P([A(caption, url, if SafeHttps(url) then Ext else Int)])])
  {
    var body, kind := LinkBody(caption, url), if SafeHttps(url) then Ext else Int;
    var tokens := [A(caption, url, kind)];
    LinkBodyLike(caption, url, body);
    LinkAscii(body);
    LinkPlain(caption, url);
    LinkDraft(caption, url, kind, tokens, body);
    OneDraft(tokens, [Para([tokens])], body);
    forall c ensures !BodyBreaks(c, body, nd) {
      LinkPasses(body, nd, c);
    }
    BodyIsRead([Para([tokens])], nd);
  }
}
