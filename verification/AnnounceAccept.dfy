/** Which announcements are accepted, and what each is refused for (announcements/markdown.tsx): the
    nineteen rules for a body by number, those for a block, and those for a link. */
module AnnounceAccept {
  import opened Prelude
  import opened AnnounceText
  import opened AnnounceInline
  import opened AnnounceRules
  import opened AnnounceLetters
  import AnnouncePatterns
  import Utf16

  // ---------- The rules by number ----------

  /** The place of a rule in the order in which the grammar tries them; 0 for the codes of blocks and links. */
  function RuleNumber(code: Code): nat {
    match code
    case Empty => 1
    case TooLong => 2
    case TooManyLines => 3
    case ControlChar => 4
    case BidiControl => 5
    case CodeBlock => 6
    case Heading => 7
    case Blockquote => 8
    case Table => 9
    case Rule => 10
    case OrderedList => 11
    case BulletMarker => 12
    case ListItemEmpty => 13
    case Indented => 14
    case Image => 15
    case Html => 16
    case Entity => 17
    case Footnote => 18
    case ReferenceLink => 19
    case _ => 0
  }

  /** A line that breaks the rule of this code. */
  ghost predicate LineBreaks(code: Code, line: Text, nd: int -> bool) {
    match code
    case CodeBlock => CodeLine(line)
    case Heading => HeadingLine(line)
    case Blockquote => QuoteLine(line)
    case Table => TableLine(line)
    case Rule => exists c :: RuleLine(line, c)
    case OrderedList => OrderedLine(Utf16.Points(line), nd)
    case BulletMarker => BulletLine(line)
    case ListItemEmpty => EmptyItemLine(line)
    case Indented => IndentedLine(line)
    case _ => false
  }

  ghost predicate SomeLineBreaks(md: Text, code: Code, nd: int -> bool) {
    exists a, b :: LineAt(md, a, b) && LineBreaks(code, md[a..b], nd)
  }

  ghost predicate SomeDefinition(md: Text) {
    exists a, b :: LineAt(md, a, b) && DefinitionLine(md[a..b])
  }

  /** The body breaks the rule of this code. */
  ghost predicate BodyBreaks(code: Code, md: Text, nd: int -> bool) {
    match code
    case Empty => |md| == 0
    case TooLong => |Utf16.Points(md)| > 600
    case TooManyLines => Newlines(md) + 1 > 12
    case ControlChar => Somewhere(md, ControlHere)
    case BidiControl => Somewhere(md, BidiHere)
    case Image => Somewhere(md, ImageHere)
    case Html => Somewhere(md, HtmlHere)
    case Entity => exists i, j :: EntityFrom(md, i, j)
    case Footnote => Somewhere(md, FootnoteHere)
    case ReferenceLink => (exists i, j :: ReferenceFrom(md, i, j)) || SomeDefinition(md)
    case _ => SomeLineBreaks(md, code, nd)
  }

  /** The rule is broken and no rule before it is. */
  ghost predicate RuledOut(code: Code, md: Text, nd: int -> bool) {
    && BodyBreaks(code, md, nd)
    && forall c :: BodyBreaks(c, md, nd) ==> RuleNumber(code) <= RuleNumber(c)
  }

  lemma {:induction false} LineBreaksIs(code: Code, line: Text, nd: int -> bool)
    ensures Breaks(code, line, nd) <==> LineBreaks(code, line, nd)
  {
    match code
    case Heading => HeadingLineIs(line);
    case Table => RowAnywhere(line);
    case Rule => RuleLineIs(line);
    case OrderedList => OrderedLineIs(line, nd);
    case BulletMarker => BulletLineIs(line);
    case ListItemEmpty => EmptyItemLineIs(line);
    case _ =>
  }

  lemma {:induction false} SomeLineIs(md: Text, lines: seq<Text>, p: Text -> bool)
    requires lines == Split(md, LINE_BREAK)
    ensures (exists i :: 0 <= i < |lines| && p(lines[i])) <==> exists a, b :: LineAt(md, a, b) && p(md[a..b])
  {
    if i :| 0 <= i < |lines| && p(lines[i]) {
      LinesAre(md, lines[i]);
      var a, b :| IsStretch(md, lines[i], a, b);
    }
    if a, b :| LineAt(md, a, b) && p(md[a..b]) {
      assert IsStretch(md, md[a..b], a, b);
      LinesAre(md, md[a..b]);
    }
  }

  lemma {:induction false} AnyBreaksIs(md: Text, code: Code, nd: int -> bool)
    ensures AnyBreaks(Split(md, LINE_BREAK), code, nd) <==> SomeLineBreaks(md, code, nd)
  {
    SomeLineIs(md, Split(md, LINE_BREAK), line => Breaks(code, line, nd));
    forall line ensures Breaks(code, line, nd) <==> LineBreaks(code, line, nd) {
      LineBreaksIs(code, line, nd);
    }
  }

  lemma {:induction false} AnyDefinesIs(md: Text)
    ensures AnyDefines(Split(md, LINE_BREAK)) <==> SomeDefinition(md)
  {
    SomeLineIs(md, Split(md, LINE_BREAK), IsDefinition);
    forall line ensures IsDefinition(line) <==> DefinitionLine(line) {
      DefinitionLineIs(line);
    }
  }

  predicate OfBody(code: Code) { 1 <= RuleNumber(code) <= 5 }
  predicate OfLine(code: Code) { 6 <= RuleNumber(code) <= 14 }

  /** `r` is the first code of the class that holds. */
  ghost predicate IsFirst(among: Code -> bool, holds: Code -> bool, r: Option<Code>) {
    && (r.None? ==> forall c :: among(c) ==> !holds(c))
    && (r.Some? ==> among(r.value) && holds(r.value))
    && (r.Some? ==> forall c :: among(c) && holds(c) ==> RuleNumber(r.value) <= RuleNumber(c))
  }

  lemma {:induction false} FirstOfBody(holds: Code -> bool, r: Option<Code>)
    requires r ==
      if holds(Empty) then Some(Empty) else if holds(TooLong) then Some(TooLong)
      else if holds(TooManyLines) then Some(TooManyLines) else if holds(ControlChar) then Some(ControlChar)
      else if holds(BidiControl) then Some(BidiControl) else None
    ensures IsFirst(OfBody, holds, r)
  {
  }

  /** `holds` says of a code whether the body breaks its rule. */
  ghost predicate Says(holds: Code -> bool, md: Text, nd: int -> bool) {
    forall c :: holds(c) <==> BodyBreaks(c, md, nd)
  }

  lemma {:induction false} SizeCodes(md: Text, nd: int -> bool)
    ensures BodyBreaks(Empty, md, nd) <==> md == []
    ensures BodyBreaks(TooLong, md, nd) <==> |Utf16.Points(md)| > MAX_BODY_CHARS
    ensures BodyBreaks(TooManyLines, md, nd) <==> |Split(md, LINE_BREAK)| > MAX_LINES
  {
    LineCount(md);
  }

  lemma {:induction false} CharCodes(md: Text, nd: int -> bool)
    ensures BodyBreaks(ControlChar, md, nd) <==> Finds(md, AtControl)
    ensures BodyBreaks(BidiControl, md, nd) <==> Finds(md, AtBidi)
  {
    ControlIs(md);
    BidiIs(md);
  }

  /** Rules 1 to 5. */
  lemma {:induction false} BodyVerdictIs(md: Text, nd: int -> bool, holds: Code -> bool)
    requires Says(holds, md, nd)
    ensures IsFirst(OfBody, holds, BodyVerdict(md))
  {
    SizeCodes(md, nd);
    CharCodes(md, nd);
    FirstOfBody(holds, BodyVerdict(md));
  }

  lemma {:induction false} LineRuleAt(k: nat)
    requires k < 9
    ensures |LINE_RULES| == 9 && RuleNumber(LINE_RULES[k]) == k + 6
  {
  }

  lemma {:induction false} LineRuleOf(code: Code)
    requires OfLine(code)
    ensures LINE_RULES[RuleNumber(code) - 6] == code
  {
  }

  lemma {:induction false} LineCodes(md: Text, code: Code, nd: int -> bool)
    requires OfLine(code)
    ensures BodyBreaks(code, md, nd) <==> AnyBreaks(Split(md, LINE_BREAK), LINE_RULES[RuleNumber(code) - 6], nd)
  {
    LineRuleOf(code);
    AnyBreaksIs(md, code, nd);
  }

  lemma {:induction false} FirstOfLines(lines: seq<Text>, nd: int -> bool, holds: Code -> bool, r: Option<Code>)
    requires |LINE_RULES| == 9 && r == FirstBroken(lines, LINE_RULES, nd)
    requires forall c :: OfLine(c) ==> (holds(c) <==> AnyBreaks(lines, LINE_RULES[RuleNumber(c) - 6], nd))
    ensures IsFirst(OfLine, holds, r)
  {
    if r.Some? {
      var k :| 0 <= k < |LINE_RULES| && LINE_RULES[k] == r.value && AnyBreaks(lines, LINE_RULES[k], nd)
        && forall j :: 0 <= j < k ==> !AnyBreaks(lines, LINE_RULES[j], nd);
      LineRuleAt(k);
    }
  }

  /** Rules 6 to 14. */
  lemma {:induction false} LineVerdictIs(md: Text, nd: int -> bool, holds: Code -> bool)
    requires Says(holds, md, nd)
    ensures IsFirst(OfLine, holds, FirstBroken(Split(md, LINE_BREAK), LINE_RULES, nd))
  {
    var lines := Split(md, LINE_BREAK);
    LineRuleAt(0);
    forall c | OfLine(c) ensures holds(c) <==> AnyBreaks(lines, LINE_RULES[RuleNumber(c) - 6], nd) {
      LineCodes(md, c, nd);
    }
    FirstOfLines(lines, nd, holds, FirstBroken(lines, LINE_RULES, nd));
  }

  predicate OfWhole(code: Code) { RuleNumber(code) >= 15 }

  function WholeVerdict(md: Text): Option<Code> {
    if Finds(md, AtImage) then Some(Image)
    else if Finds(md, AtHtml) then Some(Html)
    else if Finds(md, AtEntity) then Some(Entity)
    else if Finds(md, AtFootnote) then Some(Footnote)
    else if Finds(md, AtReference) || AnyDefines(Split(md, LINE_BREAK)) then Some(ReferenceLink)
    else None
  }

  lemma {:induction false} FirstOfWhole(holds: Code -> bool, r: Option<Code>)
    requires r ==
      if holds(Image) then Some(Image) else if holds(Html) then Some(Html) else if holds(Entity) then Some(Entity)
      else if holds(Footnote) then Some(Footnote) else if holds(ReferenceLink) then Some(ReferenceLink) else None
    ensures IsFirst(OfWhole, holds, r)
  {
  }

  lemma {:induction false} PairCodes(md: Text, nd: int -> bool)
    ensures BodyBreaks(Image, md, nd) <==> Finds(md, AtImage)
    ensures BodyBreaks(Html, md, nd) <==> Finds(md, AtHtml)
    ensures BodyBreaks(Footnote, md, nd) <==> Finds(md, AtFootnote)
  {
    ImageIs(md);
    HtmlIs(md);
    FootnoteIs(md);
  }

  lemma {:induction false} RunCodes(md: Text, nd: int -> bool)
    ensures BodyBreaks(Entity, md, nd) <==> Finds(md, AtEntity)
    ensures BodyBreaks(ReferenceLink, md, nd) <==> Finds(md, AtReference) || AnyDefines(Split(md, LINE_BREAK))
  {
    EntityAnywhere(md);
    ReferenceAnywhere(md);
    AnyDefinesIs(md);
  }

  /** Rules 15 to 19. */
  lemma {:induction false} WholeVerdictIs(md: Text, nd: int -> bool, holds: Code -> bool)
    requires Says(holds, md, nd)
    ensures IsFirst(OfWhole, holds, WholeVerdict(md))
  {
    PairCodes(md, nd);
    RunCodes(md, nd);
    FirstOfWhole(holds, WholeVerdict(md));
  }

  lemma {:induction false} NumberedRules(code: Code, md: Text, nd: int -> bool)
    ensures BodyBreaks(code, md, nd) ==> OfBody(code) || OfLine(code) || OfWhole(code)
  {
  }

  lemma {:induction false} OneNumber(c: Code, d: Code)
    requires RuleNumber(c) == RuleNumber(d) > 0
    ensures c == d
  {
  }

  predicate Any(code: Code) { true }

  lemma {:induction false} FirstOfAll(holds: Code -> bool, body: Option<Code>, line: Option<Code>, whole: Option<Code>)
    requires IsFirst(OfBody, holds, body) && IsFirst(OfLine, holds, line) && IsFirst(OfWhole, holds, whole)
    requires forall c :: holds(c) ==> OfBody(c) || OfLine(c) || OfWhole(c)
    ensures IsFirst(Any, holds, if body.Some? then body else if line.Some? then line else whole)
  {
  }

  lemma {:induction false} FirstIsOne(holds: Code -> bool, r: Option<Code>, code: Code)
    requires IsFirst(Any, holds, r) && forall c :: holds(c) ==> RuleNumber(c) > 0
    ensures r == Some(code) <==> holds(code) && forall c :: holds(c) ==> RuleNumber(code) <= RuleNumber(c)
    ensures r == None <==> forall c :: !holds(c)
  {
    assert Any(code);
    if r.Some? && RuleNumber(code) == RuleNumber(r.value) > 0 { OneNumber(code, r.value); }
    if r.None? { assert forall c :: Any(c) ==> !holds(c); }
  }

  lemma {:induction false} VerdictRules(md: Text, nd: int -> bool, holds: Code -> bool)
    requires Says(holds, md, nd)
    ensures IsFirst(Any, holds, Verdict(md, nd))
  {
    BodyVerdictIs(md, nd, holds);
    LineVerdictIs(md, nd, holds);
    WholeVerdictIs(md, nd, holds);
    forall c ensures holds(c) ==> OfBody(c) || OfLine(c) || OfWhole(c) {
      NumberedRules(c, md, nd);
    }
    FirstOfAll(holds, BodyVerdict(md), FirstBroken(Split(md, LINE_BREAK), LINE_RULES, nd), WholeVerdict(md));
  }

  /** A body is refused before it is parsed exactly for the first rule that it breaks. */
  lemma {:induction false} VerdictIs(md: Text, nd: int -> bool, code: Code)
    ensures Verdict(md, nd) == Some(code) <==> RuledOut(code, md, nd)
    ensures Verdict(md, nd) == None <==> forall c :: !BodyBreaks(c, md, nd)
  {
    var holds: Code -> bool := c => BodyBreaks(c, md, nd);
    assert Says(holds, md, nd);
    VerdictRules(md, nd, holds);
    forall c ensures holds(c) ==> RuleNumber(c) > 0 {
      NumberedRules(c, md, nd);
    }
    FirstIsOne(holds, Verdict(md, nd), code);
  }

  // ---------- Links ----------

  /** What may stand in the name of a host: nothing that could hide where a link goes. */
  predicate HostChar(c: int) {
    Letter(c) || Digit(c) || c in {
      '-' as int, '.' as int, '_' as int, '~' as int, ':' as int, '!' as int, '$' as int, '&' as int,
      '*' as int, '+' as int, ',' as int, ';' as int, '=' as int, '%' as int}
  }

  predicate UrlChar(c: int) {
    HostChar(c) || c in {'/' as int, '?' as int, '#' as int, '@' as int}
  }

  predicate OpensHttps(url: Text) {
    && At(url, 0, 'h') && At(url, 1, 't') && At(url, 2, 't') && At(url, 3, 'p') && At(url, 4, 's')
    && At(url, 5, ':') && At(url, 6, '/') && At(url, 7, '/')
  }

  /** One slash, not two. */
  predicate OpensPath(url: Text) {
    At(url, 0, '/') && !At(url, 1, '/')
  }

  predicate UrlCharsFrom(url: Text, n: nat) {
    forall k :: n <= k < |url| ==> UrlChar(url[k])
  }

  /** The host ends at `n`. */
  predicate HostTo(url: Text, n: int) {
    && 8 < n <= |url| && (forall k :: 8 <= k < n ==> HostChar(url[k]))
    && (n == |url| || At(url, n, '/') || At(url, n, '?') || At(url, n, '#')) && UrlCharsFrom(url, n)
  }

  ghost predicate SafeHttps(url: Text) {
    OpensHttps(url) && exists n :: HostTo(url, n)
  }

  predicate SafePath(url: Text) {
    OpensPath(url) && UrlCharsFrom(url, 1)
  }

  predicate Blank(text: Text) {
    forall k :: 0 <= k < |text| ==> White(text[k])
  }

  lemma {:induction false} HttpsIs(url: Text)
    ensures HTTPS <= url <==> OpensHttps(url)
  {
    assert HTTPS <= url <==> |url| >= 8 && forall k :: 0 <= k < 8 ==> url[k] == HTTPS[k];
  }

  lemma {:induction false} UrlCharIs()
    ensures forall c :: IsAuthorityChar(c) <==> HostChar(c)
    ensures forall c :: IsTailChar(c) <==> UrlChar(c)
  {
  }

  lemma {:induction false} TailIs(url: Text, n: nat)
    requires n <= |url|
    ensures AllTail(url[n..]) <==> UrlCharsFrom(url, n)
  {
    UrlCharIs();
    var s := url[n..];
    AnnouncePatterns.SpanAll(s, IsTailChar);
    assert forall k :: 0 <= k < |s| ==> s[k] == url[n + k] && s[k] in s;
    forall k | n <= k < |url| ensures url[k] in s {
      assert s[k - n] == url[k];
    }
  }

  lemma {:induction false} PathIs(url: Text)
    ensures IsPath(url) <==> SafePath(url)
    ensures StartsPath(url) <==> OpensPath(url)
  {
    if url != [] { TailIs(url, 1); }
  }

  lemma {:induction false} HostIs(url: Text, n: nat)
    requires 8 <= n <= |url|
    ensures Span(url[8..], IsAuthorityChar) == (url[8..n], url[n..]) <==>
      (forall k :: 8 <= k < n ==> HostChar(url[k])) && (n < |url| ==> !HostChar(url[n]))
  {
    UrlCharIs();
    var s := url[8..];
    assert url[8..n] + url[n..] == s;
    forall k | 8 <= k < n ensures url[8..n][k - 8] == url[k] && url[k] in url[8..n] {
    }
    SpanInClass(s, IsAuthorityChar);
    if (forall k :: 8 <= k < n ==> HostChar(url[k])) && (n < |url| ==> !HostChar(url[n])) {
      assert forall c :: c in url[8..n] ==> IsAuthorityChar(c);
      SpanUnique(url[8..n], url[n..], IsAuthorityChar);
    }
  }

  lemma {:induction false} HostEnds(url: Text, n: nat)
    requires 8 <= n <= |url| && Span(url[8..], IsAuthorityChar) == (url[8..n], url[n..])
    ensures IsAfterHttps(url[8..]) <==> HostTo(url, n)
  {
    HostIs(url, n);
    if n < |url| {
      TailIs(url, n + 1);
      assert url[n..][1..] == url[n + 1..];
    }
  }

  lemma {:induction false} HostLength(url: Text) returns (n: nat)
    requires |url| >= 8
    ensures 8 <= n <= |url| && Span(url[8..], IsAuthorityChar) == (url[8..n], url[n..])
  {
    var (host, rest) := Span(url[8..], IsAuthorityChar);
    n := 8 + |host|;
    assert url[8..] == host + rest;
    assert url[8..n] == host && url[n..] == rest;
  }

  lemma {:induction false} HostOnce(url: Text, m: nat, n: nat)
    requires 8 <= n <= |url| && HostTo(url, m) && Span(url[8..], IsAuthorityChar) == (url[8..n], url[n..])
    ensures m == n
  {
    HostIs(url, m);
    assert |url[8..m]| == m - 8 && |url[8..n]| == n - 8;
  }

  lemma {:induction false} AfterHttpsIs(url: Text)
    requires |url| >= 8
    ensures IsAfterHttps(url[8..]) <==> exists n :: HostTo(url, n)
  {
    var n := HostLength(url);
    HostEnds(url, n);
    if m :| HostTo(url, m) { HostOnce(url, m, n); }
  }

  lemma {:induction false} SafeHttpsIs(url: Text)
    ensures IsHttps(url) <==> SafeHttps(url)
  {
    HttpsIs(url);
    if |url| >= 8 { AfterHttpsIs(url); }
  }

  /** `text` from `a` up to `b` is what is left without the white space around it. */
  predicate StripsTo(text: Text, a: int, b: int) {
    && 0 <= a <= b <= |text| && WhiteRun(text, 0, a) && WhiteRun(text, b, |text|)
    && (a < b ==> !White(text[a]) && !White(text[b - 1]))
  }

  lemma {:induction false} FrontRun(text: Text, front: Text, b: nat)
    requires text != [] && front == text[..|text| - 1] && b <= |front| && White(text[|text| - 1])
    requires WhiteRun(front, b, |front|)
    ensures WhiteRun(text, b, |text|) && front[..b] == text[..b]
  {
    assert forall k :: 0 <= k < |front| ==> text[k] == front[k];
  }

  lemma {:induction false} RightEnd(text: Text) returns (b: nat)
    ensures b <= |text| && Rstrip(text) == text[..b] && WhiteRun(text, b, |text|)
    ensures b > 0 ==> !White(text[b - 1])
  {
    WhiteIs();
    if text != [] && IsSpace(text[|text| - 1]) {
      var front := text[..|text| - 1];
      b := RightEnd(front);
      FrontRun(text, front, b);
    } else {
      b := |text|;
      assert text[..b] == text;
    }
  }

  lemma {:induction false} RestRun(text: Text, rest: Text, a: nat)
    requires text != [] && rest == text[1..] && a <= |rest| && White(text[0]) && WhiteRun(rest, 0, a)
    ensures WhiteRun(text, 0, a + 1) && rest[a..] == text[a + 1..]
    ensures a < |rest| ==> rest[a] == text[a + 1]
  {
    forall k | 0 <= k < a + 1 ensures White(text[k]) {
      if k > 0 { assert rest[k - 1] == text[k]; }
    }
  }

  lemma {:induction false} LeftEnd(text: Text) returns (a: nat)
    ensures a <= |text| && Lstrip(text) == text[a..] && WhiteRun(text, 0, a)
    ensures a < |text| ==> !White(text[a])
  {
    WhiteIs();
    if text != [] && IsSpace(text[0]) {
      var rest := text[1..];
      a := LeftEnd(rest);
      RestRun(text, rest, a);
      a := a + 1;
    } else {
      a := 0;
      assert text[0..] == text;
    }
  }

  lemma {:induction false} StrippedOn(text: Text, front: Text, a: nat, b: nat)
    requires b <= |text| && front == text[..b] && a <= b
    requires WhiteRun(text, b, |text|) && WhiteRun(front, 0, a)
    requires (a < b ==> !White(front[a])) && (b > 0 ==> !White(text[b - 1]))
    ensures StripsTo(text, a, b) && front[a..] == text[a..b]
  {
    assert forall k :: 0 <= k < a ==> text[k] == front[k];
  }

  /** Stripping leaves the stretch between the first and the last character that are no white space. */
  lemma {:induction false} Stripped(text: Text) returns (a: nat, b: nat)
    ensures StripsTo(text, a, b) && Strip(text) == text[a..b]
  {
    b := RightEnd(text);
    var front := text[..b];
    a := LeftEnd(front);
    StrippedOn(text, front, a, b);
  }

  lemma {:induction false} BlankIs(text: Text)
    ensures IsLabelled(text) <==> !Blank(text)
  {
    var a, b := Stripped(text);
    if a < b { assert !White(text[a]); }
  }

  /** A link is refused for the first of these that holds, and otherwise accepted. */
  ghost predicate LinkRuling(text: Text, url: Text, refusal: Option<Code>) {
    if Blank(text) then refusal == Some(LinkTextEmpty)
    else if |Utf16.Points(url)| > 300 then refusal == Some(UrlTooLong)
    else if !OpensHttps(url) && !OpensPath(url) then refusal == Some(UrlScheme)
    else if !SafeHttps(url) && !SafePath(url) then refusal == Some(UrlInvalid)
    else refusal == None
  }

  lemma {:induction false} LinkRulingIs(text: Text, url: Text)
    ensures LinkRuling(text, url, LinkRefusal(text, url))
  {
    BlankIs(text);
    HttpsIs(url);
    SafeHttpsIs(url);
    PathIs(url);
  }

  /** An accepted link keeps its url, and its label without the white space around it. */
  lemma {:induction false} LinkTokenIs(text: Text, url: Text)
    ensures LinkToken(text, url).Ok? <==>
      !Blank(text) && |Utf16.Points(url)| <= 300 && (SafeHttps(url) || SafePath(url))
    ensures LinkToken(text, url).Ok? ==>
      LinkToken(text, url).value == A(Strip(text), url, if SafeHttps(url) then Ext else Int)
  {
    LinkRulingIs(text, url);
    HttpsIs(url);
  }
}
