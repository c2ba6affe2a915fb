/** Every announcement that can be written is read as it was meant (announcements/markdown.tsx): a tree is
    written down with the marks of the grammar, and parsing gives the tree back. */
module AnnounceWritten {
  import opened Prelude
  import opened AnnounceText
  import opened AnnounceInline
  import opened AnnounceScan
  import opened AnnounceNormalize
  import opened AnnounceBlocks
  import opened AnnounceLetters
  import opened AnnounceAccept
  import Utf16

  // ---------- Writing ----------

  function Chars(s: string): (t: Text)
    ensures |t| == |s| && forall i :: 0 <= i < |s| ==> t[i] == s[i] as int
  {
    seq(|s|, i requires 0 <= i < |s| => s[i] as int)
  }

  /** A token with its marks. */
  function Written(t: Inline): Text {
    match t
    case T(text) => text
    case B(text) => Chars("**") + text + Chars("**")
    case I(text) => Chars("*") + text + Chars("*")
    case C(text) => Chars("`") + text + Chars("`")
    case A(caption, url, _) => Chars("[") + caption + Chars("](") + url + Chars(")")
    case Br => Chars("\n")
  }

  function WrittenLine(tokens: seq<Inline>): Text {
    if tokens == [] then [] else Written(tokens[0]) + WrittenLine(tokens[1..])
  }

  predicate Has(s: Text, c: char) { c as int in s }

  /** Something, and no white space at an end. */
  predicate Bare(s: Text) {
    s != [] && !White(s[0]) && !White(s[|s| - 1])
  }

  /** Two stars side by side, or one at the end. */
  ghost predicate StarsIn(s: Text) {
    s != [] && (s[|s| - 1] == '*' as int || exists i :: At(s, i, '*') && At(s, i + 1, '*'))
  }

  /** A token that shows something, with a content it may have. */
  ghost predicate Plain(t: Inline) {
    match t
    case T(text) => text != []
    case B(text) => Bare(text) && !StarsIn(text)
    case I(text) => Bare(text) && !Has(text, '*')
    case C(text) => text != [] && !Has(text, '`')
    case A(caption, url, kind) =>
      && Bare(caption) && !Has(caption, '[') && !Has(caption, ']') && !Has(caption, '\n')
      && |Utf16.Points(url)| <= 300 && (if kind.Ext? then SafeHttps(url) else SafePath(url))
    case Br => false
  }

  /** No two texts side by side, which would be one. */
  ghost predicate PlainLine(tokens: seq<Inline>) {
    && (forall i :: 0 <= i < |tokens| ==> Plain(tokens[i]))
    && forall i :: 0 < i < |tokens| ==> !(tokens[i - 1].T? && tokens[i].T?)
  }

  // ---------- A line ----------

  function PieceFor(t: Inline): Piece
    requires !t.T? && !t.Br?
  {
    match t
    case B(text) => Strong(text)
    case I(text) => Em(text)
    case C(text) => Code(text)
    case A(caption, url, _) => Link(caption, url)
  }

  lemma {:induction false} MarksAre()
    ensures Chars("**") == [STAR, STAR] && Chars("*") == [STAR] && Chars("`") == [TICK]
    ensures Chars("[") == [OPEN] && Chars("](") == [CLOSE, LEFT] && Chars(")") == [RIGHT]
    ensures Chars("\n") == LINE_BREAK
  {
  }

  lemma {:induction false} WrittenIs(t: Inline)
    requires !t.T? && !t.Br?
    ensures Written(t) == Source(PieceFor(t))
  {
    MarksAre();
  }

  lemma {:induction false} BareIs(s: Text)
    requires Bare(s)
    ensures Unpadded(s) && Strip(s) == s
  {
    WhiteIs();
    StripShape(s);
  }

  lemma {:induction false} StarsAre(s: Text)
    requires s != [] && !StarsIn(s)
    ensures NoStars(s)
  {
    forall i | 0 < i < |s| ensures s[i - 1] != STAR || s[i] != STAR {
      assert !(At(s, i - 1, '*') && At(s, i - 1 + 1, '*'));
    }
  }

  /** What a construct looks like. */
  function PieceText(p: Piece): Text {
    match p
    case Lit(c) => [c]
    case Code(content) => Chars("`") + content + Chars("`")
    case Link(caption, url) => Chars("[") + caption + Chars("](") + url + Chars(")")
    case Strong(content) => Chars("**") + content + Chars("**")
    case Em(content) => Chars("*") + content + Chars("*")
  }

  /** What a construct may hold. */
  ghost predicate PlainPiece(p: Piece) {
    match p
    case Lit(_) => true
    case Code(content) => content != [] && !Has(content, '`')
    case Link(caption, url) =>
      && caption != [] && !Has(caption, '[') && !Has(caption, ']') && !Has(caption, '\n')
      && url != [] && !Has(url, '(') && !Has(url, ')') && forall c :: c in url ==> !White(c)
    case Strong(content) => Bare(content) && !StarsIn(content)
    case Em(content) => Bare(content) && !Has(content, '*')
  }

  lemma {:induction false} PieceTextIs(p: Piece)
    ensures PieceText(p) == Source(p)
  {
    MarksAre();
  }

  /** Printing a token writes it. */
  lemma {:induction false} PrintSays(t: Inline)
    ensures PrintToken(t) == Written(t)
  {
    MarksAre();
    if !t.T? && !t.Br? { WrittenIs(t); }
  }

  lemma {:induction false} StarsInIs(s: Text)
    requires s != []
    ensures StarsIn(s) <==> !NoStars(s)
  {
    if !StarsIn(s) { StarsAre(s); }
    if i :| At(s, i, '*') && At(s, i + 1, '*') { assert s[i + 1 - 1] == STAR && s[i + 1] == STAR; }
  }

  lemma {:induction false} PlainPieceIs(p: Piece)
    ensures PlainPiece(p) <==> PieceOk(p)
  {
    WhiteIs();
    match p
    case Strong(content) => if content != [] { StarsInIs(content); }
    case _ =>
  }

  /** A construct stands at the front of a text exactly when the text opens with one that is well formed. */
  lemma {:induction false} FrontSays(s: Text, p: Piece, rest: Text)
    requires s != [] && !p.Lit?
    ensures Front(s) == (p, rest) <==> PlainPiece(p) && s == PieceText(p) + rest
  {
    PlainPieceIs(p);
    PieceTextIs(p);
    FrontExact(s, p, rest);
  }

  lemma {:induction false} UrlCharsAre(url: Text)
    requires SafeHttps(url) || SafePath(url)
    ensures Over(url, IsUrlChar) && forall k :: 0 <= k < |url| ==> UrlChar(url[k])
  {
    if SafeHttps(url) {
      var n :| HostTo(url, n);
      assert forall k :: 8 <= k < |url| ==> UrlChar(url[k]);
    }
    assert forall k :: 0 <= k < |url| ==> UrlChar(url[k]);
    assert forall c :: UrlChar(c) ==> IsUrlChar(c);
  }

  lemma {:induction false} PieceForOk(t: Inline)
    requires Plain(t) && !t.T?
    ensures PieceOk(PieceFor(t)) && TokenOf(PieceFor(t)) == Ok(t)
  {
    match t
    case B(text) => BareIs(text); StarsAre(text);
    case I(text) => BareIs(text);
    case C(_) =>
    case A(caption, url, kind) =>
      BareIs(caption);
      UrlCharsAre(url);
      LinkTokenIs(caption, url);
      assert !Blank(caption) by { assert !White(caption[0]); }
  }

  /** A construct opens the text. */
  ghost predicate OpensConstruct(s: Text) {
    exists p: Piece, rest :: !p.Lit? && PlainPiece(p) && s == PieceText(p) + rest
  }

  /** Nothing opens at any character of `text` when `rest` follows it. */
  ghost predicate Quiet(text: Text, rest: Text) {
    text == [] || (!OpensConstruct(text + rest) && Quiet(text[1..], rest))
  }

  /** No text of the line opens anything where it stands. */
  ghost predicate QuietLine(tokens: seq<Inline>) {
    tokens == [] ||
    ((tokens[0].T? ==> Quiet(tokens[0].text, WrittenLine(tokens[1..]))) && QuietLine(tokens[1..]))
  }

  lemma {:induction false} LitIs(s: Text)
    requires s != []
    ensures Front(s).0.Lit? <==> !OpensConstruct(s)
    ensures Front(s).0.Lit? ==> Front(s) == (Lit(s[0]), s[1..])
  {
    var (p, rest) := Front(s);
    if !p.Lit? { FrontSays(s, p, rest); }
    if q: Piece, more :| !q.Lit? && PlainPiece(q) && s == PieceText(q) + more { FrontSays(s, q, more); }
  }

  lemma {:induction false} PiecesOfPlain(c: int, rest: Text)
    requires !OpensConstruct([c] + rest)
    ensures Pieces([c] + rest) == [Lit(c)] + Pieces(rest)
  {
    LitIs([c] + rest);
    assert ([c] + rest)[1..] == rest;
  }

  lemma {:induction false} TokensOfLit(c: int, ps: seq<Piece>, buffer: Text)
    ensures Tokens([Lit(c)] + ps, buffer) == Tokens(ps, buffer + [c])
  {
    assert ([Lit(c)] + ps)[1..] == ps;
  }

  lemma {:induction false} ReadsOne(c: int, rest: Text, buffer: Text)
    requires !OpensConstruct([c] + rest)
    ensures Tokens(Pieces([c] + rest), buffer) == Tokens(Pieces(rest), buffer + [c])
  {
    PiecesOfPlain(c, rest);
    TokensOfLit(c, Pieces(rest), buffer);
  }

  lemma {:induction false} MoveOne(text: Text, c: int, more: Text, rest: Text, buffer: Text)
    requires text == [c] + more
    ensures text + rest == [c] + (more + rest) && buffer + [c] + more == buffer + text
  {
  }

  /** Where nothing opens, characters are read into the buffer. */
  lemma {:induction false} ReadsPlain(text: Text, rest: Text, buffer: Text)
    requires Quiet(text, rest)
    ensures Tokens(Pieces(text + rest), buffer) == Tokens(Pieces(rest), buffer + text)
    decreases |text|
  {
    if text == [] {
      assert text + rest == rest && buffer + text == buffer;
    } else {
      var c, more := text[0], text[1..];
        MoveOne(text, c, more, rest, buffer);
      ReadsOne(c, more + rest, buffer);
      ReadsPlain(more, rest, buffer + [c]);
    }
  }

  lemma {:induction false} TokenIsNoText(p: Piece)
    requires !p.Lit? && TokenOf(p).Ok?
    ensures !TokenOf(p).value.T?
  {
  }

  lemma {:induction false} TokensOfPiece(p: Piece, ps: seq<Piece>, buffer: Text, t: Inline)
    requires !p.Lit? && TokenOf(p) == Ok(t)
    ensures Tokens([p] + ps, buffer) == Extends(Flushed(buffer) + [t], Tokens(ps, []))
  {
    assert ([p] + ps)[1..] == ps;
  }

  lemma {:induction false} ReadsOpening(s: Text, buffer: Text)
    requires s != [] && OpensConstruct(s)
    ensures var r := Tokens(Pieces(s), buffer);
      r.Ok? ==> r.value != [] && (r.value[0].T? ==> r.value[0] == T(buffer))
  {
    LitIs(s);
    var (p, rest) := Front(s);
    assert Pieces(s) == [p] + Pieces(rest);
    if TokenOf(p).Ok? {
      TokenIsNoText(p);
      TokensOfPiece(p, Pieces(rest), buffer, TokenOf(p).value);
    }
  }

  /** The tokens start with a text shorter than `n`, or with no text. */
  ghost predicate StartsShort(r: Outcome<seq<Inline>>, n: nat) {
    r.Ok? ==> r.value != [] && (r.value[0].T? ==> |r.value[0].text| < n)
  }

  lemma {:induction false} OpensShort(s: Text, buffer: Text, n: nat)
    requires s != [] && OpensConstruct(s) && |buffer| < n
    ensures StartsShort(Tokens(Pieces(s), buffer), n)
  {
    ReadsOpening(s, buffer);
  }

  /** Where something opens, the text read ends there. */
  lemma {:induction false} ReadsShort(text: Text, rest: Text, buffer: Text, n: nat)
    requires !Quiet(text, rest) && n == |buffer| + |text|
    ensures StartsShort(Tokens(Pieces(text + rest), buffer), n)
    decreases |text|
  {
    var c, more := text[0], text[1..];
    MoveOne(text, c, more, rest, buffer);
    if OpensConstruct(text + rest) {
      OpensShort(text + rest, buffer, n);
    } else {
      ReadsOne(c, more + rest, buffer);
      ReadsShort(more, rest, buffer + [c], n);
    }
  }

  lemma {:induction false} ReadsConstruct(t: Inline, rest: Text, buffer: Text)
    requires Plain(t) && !t.T?
    ensures Tokens(Pieces(Written(t) + rest), buffer) == Extends(Flushed(buffer) + [t], Tokens(Pieces(rest), []))
  {
    var p := PieceFor(t);
    PieceForOk(t);
    WrittenIs(t);
    FrontIs(p, rest);
    TokensOfPiece(p, Pieces(rest), buffer, t);
  }

  lemma {:induction false} PlainTail(tokens: seq<Inline>)
    requires PlainLine(tokens) && tokens != []
    ensures PlainLine(tokens[1..]) && Plain(tokens[0])
    ensures tokens[0].T? && |tokens| > 1 ==> !tokens[1..][0].T?
  {
    var rest := tokens[1..];
    assert forall i :: 0 <= i < |rest| ==> rest[i] == tokens[i + 1];
    forall i | 0 < i < |rest| ensures !(rest[i - 1].T? && rest[i].T?) {
      assert rest[i - 1] == tokens[i] && rest[i] == tokens[i + 1];
    }
  }

  lemma {:induction false} WrittenFirst(t: Inline, rest: seq<Inline>)
    ensures WrittenLine([t] + rest) == Written(t) + WrittenLine(rest)
  {
    assert ([t] + rest)[1..] == rest;
  }

  lemma {:induction false} ReadsText(t: Inline, rest: seq<Inline>)
    requires t.T? && Plain(t) && Quiet(t.text, WrittenLine(rest))
    requires Tokens(Pieces(WrittenLine(rest)), t.text) == Ok(Flushed(t.text) + rest)
    ensures Tokens(Pieces(WrittenLine([t] + rest)), []) == Ok(Flushed([]) + ([t] + rest))
  {
    WrittenFirst(t, rest);
    ReadsPlain(t.text, WrittenLine(rest), []);
    assert [] + t.text == t.text;
    assert Flushed([]) + ([t] + rest) == [t] + rest;
  }

  lemma {:induction false} ReadsOther(t: Inline, rest: seq<Inline>, buffer: Text)
    requires !t.T? && Plain(t) && Tokens(Pieces(WrittenLine(rest)), []) == Ok(Flushed([]) + rest)
    ensures Tokens(Pieces(WrittenLine([t] + rest)), buffer) == Ok(Flushed(buffer) + ([t] + rest))
  {
    WrittenFirst(t, rest);
    ReadsConstruct(t, WrittenLine(rest), buffer);
    assert Flushed([]) + rest == rest;
    Regroup(Flushed(buffer), [t], rest);
  }

  lemma {:induction false} QuietTail(tokens: seq<Inline>, t: Inline, rest: seq<Inline>)
    requires tokens == [t] + rest
    ensures QuietLine(tokens) <==> (t.T? ==> Quiet(t.text, WrittenLine(rest))) && QuietLine(rest)
  {
    assert tokens[1..] == rest;
  }

  lemma {:induction false} ReadsRest(tokens: seq<Inline>, buffer: Text)
    requires PlainLine(tokens) && QuietLine(tokens) && (buffer != [] && tokens != [] ==> !tokens[0].T?)
    ensures Tokens(Pieces(WrittenLine(tokens)), buffer) == Ok(Flushed(buffer) + tokens)
    decreases |tokens|
  {
    if tokens == [] {
      assert Flushed(buffer) + tokens == Flushed(buffer);
    } else {
      var t, rest := tokens[0], tokens[1..];
      PlainTail(tokens);
      assert tokens == [t] + rest;
      QuietTail(tokens, t, rest);
      if t.T? {
        ReadsRest(rest, t.text);
        ReadsText(t, rest);
      } else {
        ReadsRest(rest, []);
        ReadsOther(t, rest, buffer);
      }
    }
  }

  lemma {:induction false} ExtendsBy(t: Inline, u: Inline, more: Outcome<seq<Inline>>, rest: seq<Inline>)
    requires Extends([t] + [u], more) == Ok([t] + rest)
    ensures Extends([u], more) == Ok(rest)
  {
    assert ([t] + [u] + more.value)[1..] == [u] + more.value && ([t] + rest)[1..] == rest;
  }

  /** A text that is read back is read before what follows it. */
  lemma {:induction false} AfterText(t: Inline, rest: seq<Inline>)
    requires t.T? && Plain(t) && PlainLine(rest) && (rest != [] ==> !rest[0].T?)
    requires Tokens(Pieces(WrittenLine(rest)), t.text) == Ok([t] + rest)
    ensures Tokens(Pieces(WrittenLine(rest)), []) == Ok(rest)
  {
    if rest != [] {
      var u, more := rest[0], rest[1..];
      PlainTail(rest);
      ReadsConstruct(u, WrittenLine(more), t.text);
      ReadsConstruct(u, WrittenLine(more), []);
      assert Flushed([]) + [u] == [u];
      ExtendsBy(t, u, Tokens(Pieces(WrittenLine(more)), []), rest);
    }
  }

  lemma {:induction false} AfterOther(t: Inline, more: Outcome<seq<Inline>>, rest: seq<Inline>)
    requires Extends(Flushed([]) + [t], more) == Ok([t] + rest)
    ensures more == Ok(rest)
  {
    assert (Flushed([]) + [t] + more.value)[1..] == more.value && ([t] + rest)[1..] == rest;
  }

  lemma {:induction false} ReadBackFirst(t: Inline, rest: seq<Inline>)
    requires PlainLine([t] + rest) && Tokens(Pieces(WrittenLine([t] + rest)), []) == Ok([t] + rest)
    ensures t.T? ==> Quiet(t.text, WrittenLine(rest))
    ensures Tokens(Pieces(WrittenLine(rest)), []) == Ok(rest)
  {
    PlainTail([t] + rest);
    assert ([t] + rest)[1..] == rest && ([t] + rest)[0] == t;
    WrittenFirst(t, rest);
    if t.T? {
      if !Quiet(t.text, WrittenLine(rest)) { ReadsShort(t.text, WrittenLine(rest), [], |t.text|); }
      ReadsPlain(t.text, WrittenLine(rest), []);
      assert [] + t.text == t.text;
      AfterText(t, rest);
    } else {
      ReadsConstruct(t, WrittenLine(rest), []);
      AfterOther(t, Tokens(Pieces(WrittenLine(rest)), []), rest);
    }
  }

  lemma {:induction false} ReadBackIsQuiet(tokens: seq<Inline>)
    requires PlainLine(tokens) && Tokens(Pieces(WrittenLine(tokens)), []) == Ok(tokens)
    ensures QuietLine(tokens)
    decreases |tokens|
  {
    if tokens != [] {
      var t, rest := tokens[0], tokens[1..];
      assert tokens == [t] + rest;
      PlainTail(tokens);
      ReadBackFirst(t, rest);
      ReadBackIsQuiet(rest);
      QuietTail(tokens, t, rest);
    }
  }

  /** A line that is written down is read as it was written exactly if no text of it opens anything. */
  lemma {:induction false} LineIsRead(tokens: seq<Inline>)
    requires PlainLine(tokens)
    ensures Scan(WrittenLine(tokens)) == Ok(tokens) <==> QuietLine(tokens)
  {
    if QuietLine(tokens) {
      ReadsRest(tokens, []);
      assert Flushed([]) + tokens == tokens;
    }
    if Scan(WrittenLine(tokens)) == Ok(tokens) { ReadBackIsQuiet(tokens); }
  }

  lemma {:induction false} FirstMark(p: Piece, rest: Text)
    requires !p.Lit?
    ensures PieceText(p) + rest != [] && (PieceText(p) + rest)[0] in {'`' as int, '[' as int, '*' as int}
  {
    MarksAre();
  }

  lemma {:induction false} NoMarkOpens(s: Text)
    requires s != [] && s[0] !in {'`' as int, '[' as int, '*' as int}
    ensures !OpensConstruct(s)
  {
    forall p: Piece, rest | !p.Lit? ensures s != PieceText(p) + rest {
      FirstMark(p, rest);
    }
  }

  /** A text without a backtick, a star or an opening bracket never does. */
  lemma {:induction false} NoMarksIsQuiet(text: Text, rest: Text)
    requires !Has(text, '`') && !Has(text, '[') && !Has(text, '*')
    ensures Quiet(text, rest)
  {
    if text != [] {
      assert text[0] in text && forall c :: c in text[1..] ==> c in text;
      NoMarkOpens(text + rest);
      NoMarksIsQuiet(text[1..], rest);
    }
  }

  // ---------- A body ----------

  /** A block as its author writes it. */
  datatype Draft = Para(lines: seq<seq<Inline>>) | Bullets(items: seq<seq<Inline>>)

  function BreakLines(lines: seq<seq<Inline>>): seq<Inline> {
    if lines == [] then []
    else if |lines| == 1 then lines[0]
    else lines[0] + [Br] + BreakLines(lines[1..])
  }

  /** The block that is meant. */
  function Meant(d: Draft): Block {
    match d
    case Para(lines) => P(BreakLines(lines))
    case Bullets(items) => Ul(items)
  }

  function Item(tokens: seq<Inline>): Text { Chars("- ") + WrittenLine(tokens) }

  function DraftLines(d: Draft): (r: seq<Text>)
    ensures |r| == match d case Para(lines) => |lines| case Bullets(items) => |items|
  {
    match d
    case Para(lines) => Map(lines, WrittenLine)
    case Bullets(items) => Map(items, Item)
  }

  function DraftText(d: Draft): Text { Join(DraftLines(d), Chars("\n")) }

  function WrittenBody(drafts: seq<Draft>): Text { Join(Map(drafts, DraftText), Chars("\n\n")) }

  predicate OpensItem(line: Text) { At(line, 0, '-') && At(line, 1, ' ') }

  ghost predicate PlainText(tokens: seq<Inline>) {
    tokens != [] && PlainLine(tokens) && !Has(WrittenLine(tokens), '\n')
  }

  /** Lines of their own, and no line of a paragraph looks like an item; five items at most. */
  ghost predicate PlainDraft(d: Draft) {
    match d
    case Para(lines) => lines != [] && forall i :: 0 <= i < |lines| ==>
      PlainText(lines[i]) && !OpensItem(WrittenLine(lines[i]))
    case Bullets(items) => 1 <= |items| <= 5 && forall i :: 0 <= i < |items| ==> PlainText(items[i])
  }

  ghost predicate PlainDrafts(drafts: seq<Draft>) {
    forall i :: 0 <= i < |drafts| ==> PlainDraft(drafts[i])
  }

  /** No list follows one already seen, and there is at most one. */
  ghost predicate ListOnce(drafts: seq<Draft>, seenList: bool) {
    && (seenList ==> forall i :: 0 <= i < |drafts| ==> !drafts[i].Bullets?)
    && forall i, j :: 0 <= i < j < |drafts| ==> !(drafts[i].Bullets? && drafts[j].Bullets?)
  }

  ghost predicate PlainBody(drafts: seq<Draft>) {
    drafts != [] && PlainDrafts(drafts) && ListOnce(drafts, false)
  }

  lemma {:induction false} WrittenSome(tokens: seq<Inline>)
    requires tokens != [] && PlainLine(tokens)
    ensures WrittenLine(tokens) != []
  {
    var t := tokens[0];
    assert Plain(t);
    if !t.T? {
      WrittenIs(t);
      PieceForOk(t);
    }
  }

  lemma {:induction false} ItemIs(tokens: seq<Inline>)
    ensures LIST_MARKER <= Item(tokens) && Item(tokens)[2..] == WrittenLine(tokens)
    ensures '\n' as int !in WrittenLine(tokens) ==> '\n' as int !in Item(tokens)
  {
    assert Chars("- ") == LIST_MARKER;
  }

  lemma {:induction false} ItemStarts(line: Text)
    ensures IsItem(line) <==> OpensItem(line)
  {
    if OpensItem(line) { assert line[..2] == LIST_MARKER; }
  }

  /** A line that holds something and no line break. */
  predicate Proper(line: Text) { line != [] && NEWLINE !in line }

  lemma {:induction false} DraftLinesProper(d: Draft, i: nat)
    requires PlainDraft(d) && i < |DraftLines(d)|
    ensures Proper(DraftLines(d)[i]) && (IsItem(DraftLines(d)[i]) <==> d.Bullets?)
  {
    match d
    case Para(lines) =>
      WrittenSome(lines[i]);
      ItemStarts(WrittenLine(lines[i]));
    case Bullets(items) =>
      ItemIs(items[i]);
  }

  lemma {:induction false} SolidCons(line: Text, rest: Text)
    requires Proper(line) && SolidBlock(rest)
    ensures SolidBlock(line + LINE_BREAK + rest)
  {
    var s := line + LINE_BREAK + rest;
    assert line[0] in line && line[|line| - 1] in line;
    forall i | 0 < i < |s| ensures s[i - 1] != NEWLINE || s[i] != NEWLINE {
      if i < |line| { assert s[i] == line[i] && line[i] in line; }
      if i == |line| { assert s[i - 1] == line[i - 1]; }
      if i > |line| + 1 { assert s[i - 1] == rest[i - |line| - 2] && s[i] == rest[i - |line| - 1]; }
    }
  }

  lemma {:induction false} ProperIsSolid(line: Text)
    requires Proper(line)
    ensures SolidBlock(line)
  {
    assert forall i :: 0 <= i < |line| ==> line[i] in line;
  }

  lemma {:induction false} JoinIsSolid(lines: seq<Text>)
    requires lines != [] && forall i :: 0 <= i < |lines| ==> Proper(lines[i])
    ensures SolidBlock(Join(lines, LINE_BREAK))
  {
    if |lines| == 1 {
      ProperIsSolid(lines[0]);
    } else {
      assert forall i :: 0 < i < |lines| ==> lines[i] == lines[1..][i - 1];
      JoinIsSolid(lines[1..]);
      SolidCons(lines[0], Join(lines[1..], LINE_BREAK));
    }
  }

  lemma {:induction false} NoBreakYet(raw: Text, rest: Text)
    requires FirmBlock(raw)
    ensures !(BLOCK_BREAK <= raw + BLOCK_BREAK + rest)
  {
    var s := raw + BLOCK_BREAK + rest;
    BlockBreakStarts(s);
    if |raw| > 1 { assert s[0] == raw[0] && s[1] == raw[1]; }
  }

  lemma {:induction false} BreakHere(rest: Text)
    ensures Split(BLOCK_BREAK + rest, BLOCK_BREAK) == [[]] + Split(rest, BLOCK_BREAK)
  {
    assert (BLOCK_BREAK + rest)[2..] == rest;
  }

  lemma {:induction false} BlockStep(c: int, more: Text, parts: seq<Text>)
    requires parts != [] && !(BLOCK_BREAK <= [c] + more) && Split(more, BLOCK_BREAK) == parts
    ensures Split([c] + more, BLOCK_BREAK) == [[c] + parts[0]] + parts[1..]
  {
    assert ([c] + more)[1..] == more;
  }

  lemma {:induction false} FirstBlock(raw: Text, rest: Text)
    requires raw == [] || FirmBlock(raw)
    ensures Split(raw + BLOCK_BREAK + rest, BLOCK_BREAK) == [raw] + Split(rest, BLOCK_BREAK)
  {
    if raw == [] {
      assert raw + BLOCK_BREAK + rest == BLOCK_BREAK + rest;
      BreakHere(rest);
    } else {
      var c, tail := raw[0], raw[1..];
      if |raw| > 1 { FirmTail(raw); }
      FirstBlock(tail, rest);
      NoBreakYet(raw, rest);
      assert raw + BLOCK_BREAK + rest == [c] + (tail + BLOCK_BREAK + rest);
      assert raw == [c] + tail;
      BlockStep(c, tail + BLOCK_BREAK + rest, [tail] + Split(rest, BLOCK_BREAK));
    }
  }

  lemma {:induction false} OnlyBlock(raw: Text)
    requires raw == [] || FirmBlock(raw)
    ensures Split(raw, BLOCK_BREAK) == [raw]
  {
    if raw != [] {
      var c, tail := raw[0], raw[1..];
      if |raw| > 1 { FirmTail(raw); }
      OnlyBlock(tail);
      BlockBreakStarts(raw);
      assert raw == [c] + tail;
      BlockStep(c, tail, [tail]);
    }
  }

  /** Solid blocks are what a body splits into. */
  lemma {:induction false} BlocksSplit(raws: seq<Text>)
    requires raws != [] && forall i :: 0 <= i < |raws| ==> SolidBlock(raws[i])
    ensures Split(Join(raws, BLOCK_BREAK), BLOCK_BREAK) == raws
  {
    if |raws| == 1 {
      OnlyBlock(raws[0]);
      assert raws == [raws[0]];
    } else {
      assert forall i :: 0 < i < |raws| ==> raws[i] == raws[1..][i - 1];
      BlocksSplit(raws[1..]);
      FirstBlock(raws[0], Join(raws[1..], BLOCK_BREAK));
      assert raws == [raws[0]] + raws[1..];
    }
  }

  ghost predicate PlainLines(lines: seq<seq<Inline>>) {
    forall i :: 0 <= i < |lines| ==> PlainLine(lines[i])
  }

  ghost predicate QuietLines(lines: seq<seq<Inline>>) {
    forall i :: 0 <= i < |lines| ==> QuietLine(lines[i])
  }

  lemma {:induction false} AllRest<X>(s: seq<X>, rest: seq<X>, p: X -> bool)
    requires s != [] && rest == s[1..]
    ensures s == [s[0]] + rest
    ensures (forall i :: 0 <= i < |s| ==> p(s[i])) <==> p(s[0]) && forall i :: 0 <= i < |rest| ==> p(rest[i])
  {
    assert forall i :: 0 <= i < |rest| ==> rest[i] == s[i + 1];
    assert forall i :: 0 < i < |s| ==> s[i] == rest[i - 1];
  }

  lemma {:induction false} LinesRest(lines: seq<seq<Inline>>, rest: seq<seq<Inline>>)
    requires lines != [] && rest == lines[1..] && PlainLines(lines)
    ensures PlainLine(lines[0]) && PlainLines(rest) && lines == [lines[0]] + rest
    ensures QuietLines(lines) <==> QuietLine(lines[0]) && QuietLines(rest)
  {
    AllRest(lines, rest, PlainLine);
    AllRest(lines, rest, QuietLine);
  }

  lemma {:induction false} NoBreakBefore(a: seq<Inline>, x: seq<Inline>, b: seq<Inline>, y: seq<Inline>)
    requires Br !in b && a + [Br] + x == b + [Br] + y
    ensures |a| >= |b|
  {
    assert (a + [Br] + x)[|a|] == Br;
    assert forall i :: 0 <= i < |b| ==> (b + [Br] + y)[i] == b[i] && b[i] in b;
  }

  /** Hard breaks stand only between lines, so they tell the lines apart. */
  lemma {:induction false} BreaksTell(a: seq<Inline>, x: seq<Inline>, b: seq<Inline>, y: seq<Inline>)
    requires Br !in a && Br !in b && a + [Br] + x == b + [Br] + y
    ensures a == b && x == y
  {
    NoBreakBefore(a, x, b, y);
    NoBreakBefore(b, y, a, x);
    var s, t := a + [Br] + x, b + [Br] + y;
    assert s[..|a|] == a && t[..|b|] == b && s[|a| + 1..] == x && t[|b| + 1..] == y;
  }

  lemma {:induction false} ScanHasNoBreak(s: Text)
    requires Scan(s).Ok?
    ensures Br !in Scan(s).value
  {
    ScanShape(s);
  }

  lemma {:induction false} ParagraphOn(first: seq<Inline>, rest: seq<seq<Inline>>, s: Text, more: seq<Text>)
    requires PlainLine(first) && rest != [] && |more| == |rest|
    ensures ParagraphTokens([s] + more) == Ok(first + [Br] + BreakLines(rest)) <==>
      Scan(s) == Ok(first) && ParagraphTokens(more) == Ok(BreakLines(rest))
  {
    assert ([s] + more)[1..] == more;
    if ParagraphTokens([s] + more) == Ok(first + [Br] + BreakLines(rest)) {
      ScanHasNoBreak(s);
      BreaksTell(Scan(s).value, ParagraphTokens(more).value, first, BreakLines(rest));
    }
  }

  lemma {:induction false} ParagraphIsRead(lines: seq<seq<Inline>>)
    requires PlainLines(lines)
    ensures ParagraphTokens(Map(lines, WrittenLine)) == Ok(BreakLines(lines)) <==> QuietLines(lines)
  {
    if lines != [] {
      var first, rest := lines[0], lines[1..];
      LinesRest(lines, rest);
      LineIsRead(first);
      ParagraphIsRead(rest);
      MapCons(first, rest, WrittenLine);
      if rest != [] { ParagraphOn(first, rest, WrittenLine(first), Map(rest, WrittenLine)); }
    }
  }

  lemma {:induction false} ItemsOn(first: Text, rest: seq<Text>, tokens: seq<Inline>, more: seq<seq<Inline>>)
    requires IsItem(first) && AllItems(rest)
    ensures AllItems([first] + rest)
    ensures ItemTokens([first] + rest) == Ok([tokens] + more) <==>
      Scan(first[2..]) == Ok(tokens) && ItemTokens(rest) == Ok(more)
  {
    var all := [first] + rest;
    assert all[1..] == rest;
    if ItemTokens(all) == Ok([tokens] + more) {
      assert ItemTokens(all).value[0] == tokens && ItemTokens(all).value[1..] == more;
    }
  }

  lemma {:induction false} ItemsCons(items: seq<seq<Inline>>, tokens: seq<Inline>, rest: seq<seq<Inline>>)
    requires items == [tokens] + rest && PlainLine(tokens) && AllItems(Map(rest, Item))
    ensures AllItems(Map(items, Item))
    ensures ItemTokens(Map(items, Item)) == Ok(items) <==>
      QuietLine(tokens) && ItemTokens(Map(rest, Item)) == Ok(rest)
  {
    ItemIs(tokens);
    LineIsRead(tokens);
    MapCons(tokens, rest, Item);
    ItemsOn(Item(tokens), Map(rest, Item), tokens, rest);
  }

  lemma {:induction false} ItemsAreRead(items: seq<seq<Inline>>)
    requires PlainLines(items)
    ensures AllItems(Map(items, Item))
    ensures ItemTokens(Map(items, Item)) == Ok(items) <==> QuietLines(items)
  {
    if items != [] {
      var rest := items[1..];
      LinesRest(items, rest);
      ItemsAreRead(rest);
      ItemsCons(items, items[0], rest);
    }
  }

  lemma {:induction false} LinesOfDraft(d: Draft)
    requires PlainDraft(d)
    ensures Split(DraftText(d), LINE_BREAK) == DraftLines(d) && SolidBlock(DraftText(d))
    ensures AllItems(DraftLines(d)) <==> d.Bullets?
    ensures SomeItem(DraftLines(d)) <==> d.Bullets?
  {
    var lines := DraftLines(d);
    MarksAre();
    forall i | 0 <= i < |lines| ensures Proper(lines[i]) && (IsItem(lines[i]) <==> d.Bullets?) {
      DraftLinesProper(d, i);
    }
    SplitJoin(lines, NEWLINE);
    JoinIsSolid(lines);
    assert IsItem(lines[0]) <==> d.Bullets?;
  }

  /** No text of the block opens anything. */
  ghost predicate QuietDraft(d: Draft) {
    match d
    case Para(lines) => QuietLines(lines)
    case Bullets(items) => QuietLines(items)
  }

  lemma {:induction false} PlainDraftLines(d: Draft)
    requires PlainDraft(d)
    ensures match d case Para(lines) => PlainLines(lines) case Bullets(items) => PlainLines(items)
  {
  }

  /** A block is read as it was meant exactly if it is quiet. */
  lemma {:induction false} BlockIsRead(d: Draft, seenList: bool)
    requires PlainDraft(d) && !(seenList && d.Bullets?)
    ensures BlockOf(DraftText(d), seenList) == Ok(Meant(d)) <==> QuietDraft(d)
  {
    LinesOfDraft(d);
    PlainDraftLines(d);
    match d
    case Para(lines) => ParagraphIsRead(lines);
    case Bullets(items) => ItemsAreRead(items);
  }

  lemma {:induction false} BlocksOn(first: Text, rest: seq<Text>, block: Block, more: seq<Block>, seenList: bool)
    ensures BlocksOf([first] + rest, seenList) == Ok([block] + more) <==>
      BlockOf(first, seenList) == Ok(block) && BlocksOf(rest, seenList || block.Ul?) == Ok(more)
  {
    var all := [first] + rest;
    assert all[1..] == rest;
    if BlocksOf(all, seenList) == Ok([block] + more) {
      assert BlocksOf(all, seenList).value[0] == block && BlocksOf(all, seenList).value[1..] == more;
    }
  }

  lemma {:induction false} ListOnceRest(drafts: seq<Draft>, first: Draft, rest: seq<Draft>, seenList: bool)
    requires drafts == [first] + rest && ListOnce(drafts, seenList)
    ensures ListOnce(rest, seenList || first.Bullets?) && !(seenList && first.Bullets?)
  {
    assert drafts[0] == first && forall i :: 0 <= i < |rest| ==> rest[i] == drafts[i + 1];
  }

  ghost predicate QuietDrafts(drafts: seq<Draft>) {
    forall i :: 0 <= i < |drafts| ==> QuietDraft(drafts[i])
  }

  lemma {:induction false} DraftsRest(drafts: seq<Draft>, rest: seq<Draft>)
    requires drafts != [] && rest == drafts[1..] && PlainDrafts(drafts)
    ensures PlainDraft(drafts[0]) && PlainDrafts(rest) && drafts == [drafts[0]] + rest
    ensures QuietDrafts(drafts) <==> QuietDraft(drafts[0]) && QuietDrafts(rest)
  {
    AllRest(drafts, rest, PlainDraft);
    AllRest(drafts, rest, QuietDraft);
  }

  lemma {:induction false} BlocksCons(drafts: seq<Draft>, first: Draft, rest: seq<Draft>, seenList: bool)
    requires drafts == [first] + rest && PlainDraft(first) && !(seenList && first.Bullets?)
    ensures BlocksOf(Map(drafts, DraftText), seenList) == Ok(Map(drafts, Meant)) <==>
      QuietDraft(first) && BlocksOf(Map(rest, DraftText), seenList || first.Bullets?) == Ok(Map(rest, Meant))
  {
    BlockIsRead(first, seenList);
    MapCons(first, rest, DraftText);
    MapCons(first, rest, Meant);
    BlocksOn(DraftText(first), Map(rest, DraftText), Meant(first), Map(rest, Meant), seenList);
  }

  lemma {:induction false} BlocksAreRead(drafts: seq<Draft>, seenList: bool)
    requires ListOnce(drafts, seenList) && PlainDrafts(drafts)
    ensures BlocksOf(Map(drafts, DraftText), seenList) == Ok(Map(drafts, Meant)) <==> QuietDrafts(drafts)
  {
    if drafts != [] {
      var first, rest := drafts[0], drafts[1..];
      DraftsRest(drafts, rest);
      ListOnceRest(drafts, first, rest, seenList);
      BlocksAreRead(rest, seenList || first.Bullets?);
      BlocksCons(drafts, first, rest, seenList);
    }
  }

  lemma {:induction false} BodySplits(drafts: seq<Draft>)
    requires PlainBody(drafts)
    ensures Split(WrittenBody(drafts), BLOCK_BREAK) == Map(drafts, DraftText)
  {
    forall i | 0 <= i < |drafts| ensures SolidBlock(Map(drafts, DraftText)[i]) {
      assert PlainDraft(drafts[i]);
      LinesOfDraft(drafts[i]);
    }
    assert Chars("\n\n") == BLOCK_BREAK;
    BlocksSplit(Map(drafts, DraftText));
  }

  /** A body that is written down is accepted and read as it was meant exactly if it breaks no rule and no text of
      it opens anything. */
  lemma {:induction false} BodyIsRead(drafts: seq<Draft>, nd: int -> bool)
    requires PlainBody(drafts)
    ensures Tokenize(WrittenBody(drafts), nd) == Ok(Map(drafts, Meant)) <==>
      (forall c :: !BodyBreaks(c, WrittenBody(drafts), nd)) && QuietDrafts(drafts)
  {
    VerdictIs(WrittenBody(drafts), nd, Empty);
    BodySplits(drafts);
    BlocksAreRead(drafts, false);
  }
}
