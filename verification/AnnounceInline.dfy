/** The inline scan of the announcement grammar (announcements/markdown.tsx, `inline` and `link`). */
module AnnounceInline {
  import opened Prelude
  import opened AnnounceText
  import Utf16

  datatype Code =
    | BidiControl | Blockquote | BulletMarker | CodeBlock | ControlChar | Empty | Entity | Footnote | Heading
    | Html | Image | Indented | LinkTextEmpty | ListItemEmpty | ListMixed | ListTooLong | MultipleLists
    | OrderedList | ReferenceLink | Rule | Table | TooLong | TooManyLines | UrlInvalid | UrlScheme | UrlTooLong

  datatype Outcome<+T> = Ok(value: T) | Refused(code: Code)

  datatype LinkKind = Ext | Int

  datatype Inline =
    | T(text: Text)
    | B(text: Text)
    | I(text: Text)
    | C(text: Text)
    | A(caption: Text, url: Text, kind: LinkKind)
    | Br

  const TICK := 0x60
  const STAR := 0x2A
  const OPEN := 0x5B
  const CLOSE := 0x5D
  const LEFT := 0x28
  const RIGHT := 0x29
  const SLASH := 0x2F
  const AT_SIGN := 0x40
  const MAX_URL_CHARS := 300

  predicate NotTick(c: int) { c != TICK }
  predicate NotStar(c: int) { c != STAR }
  predicate IsLabelChar(c: int) { c != OPEN && c != CLOSE && c != NEWLINE }
  predicate IsUrlChar(c: int) { !IsSpace(c) && c != LEFT && c != RIGHT }

  // ---------- The constructs ----------

  /** What the scan finds at a position: a construct with its literal content, or one character. */
  datatype Piece =
    | Lit(c: int)
    | Code(content: Text)
    | Link(caption: Text, url: Text)
    | Strong(content: Text)
    | Em(content: Text)

  function Source(p: Piece): Text {
    match p
    case Lit(c) => [c]
    case Code(content) => [TICK] + content + [TICK]
    case Link(caption, url) => [OPEN] + caption + [CLOSE, LEFT] + url + [RIGHT]
    case Strong(content) => [STAR, STAR] + content + [STAR, STAR]
    case Em(content) => [STAR] + content + [STAR]
  }

  function FrontCode(s: Text): Option<(Text, Text)>
    requires s != []
  {
    if s[0] != TICK then None
    else
      var (content, rest) := Span(s[1..], NotTick);
      if content != [] && rest != [] then Some((content, rest[1..])) else None
  }

  /** `(url, rest)` where `t` is `url` and a closing parenthesis, then `rest`. */
  function UrlTail(t: Text): Option<(Text, Text)> {
    var (url, after) := Span(t, IsUrlChar);
    if url != [] && after != [] && after[0] == RIGHT then Some((url, after[1..])) else None
  }

  /** The second half of the link pattern: `](url)`. */
  function UrlAfter(rest: Text): Option<(Text, Text)> {
    if [CLOSE, LEFT] <= rest then UrlTail(rest[2..]) else None
  }

  function FrontLink(s: Text): Option<(Text, Text, Text)>
    requires s != []
  {
    if s[0] != OPEN then None
    else
      var (caption, rest) := Span(s[1..], IsLabelChar);
      var url := UrlAfter(rest);
      if caption == [] || url.None? then None else Some((caption, url.value.0, url.value.1))
  }

  /** The text before the first `**`, and the text after it. */
  function UntilStars(s: Text): (r: Option<(Text, Text)>)
    ensures r.Some? ==> r.value.0 + [STAR, STAR] + r.value.1 == s
  {
    if |s| < 2 then None
    else if s[0] == STAR && s[1] == STAR then Some(([], s[2..]))
    else
      var r := UntilStars(s[1..]);
      if r.None? then None else Some(([s[0]] + r.value.0, r.value.1))
  }

  function FrontStrong(s: Text): Option<(Text, Text)>
    requires s != []
  {
    if |s| < 2 || s[0] != STAR || s[1] != STAR then None
    else
      var r := UntilStars(s[2..]);
      if r.Some? && r.value.0 != [] && r.value.0 == Strip(r.value.0) then r else None
  }

  function FrontEm(s: Text): Option<(Text, Text)>
    requires s != []
  {
    if s[0] != STAR then None
    else
      var (content, rest) := Span(s[1..], NotStar);
      if content != [] && rest != [] && content == Strip(content) then Some((content, rest[1..])) else None
  }

  /** The first construct that matches at the front, in the order of the source, and the rest. */
  function Front(s: Text): (Piece, Text)
    requires s != []
  {
    if FrontCode(s).Some? then (Code(FrontCode(s).value.0), FrontCode(s).value.1)
    else if FrontLink(s).Some? then (Link(FrontLink(s).value.0, FrontLink(s).value.1), FrontLink(s).value.2)
    else if FrontStrong(s).Some? then (Strong(FrontStrong(s).value.0), FrontStrong(s).value.1)
    else if FrontEm(s).Some? then (Em(FrontEm(s).value.0), FrontEm(s).value.1)
    else (Lit(s[0]), s[1..])
  }

  // ---------- The constructs, declaratively ----------

  ghost predicate Over(s: Text, p: int -> bool) {
    s != [] && forall c :: c in s ==> p(c)
  }

  /** No two stars in a row, and none at the end. */
  ghost predicate NoStars(s: Text) {
    && (s != [] ==> s[|s| - 1] != STAR)
    && forall i :: 0 < i < |s| ==> s[i - 1] != STAR || s[i] != STAR
  }

  /** What each construct may hold. */
  ghost predicate PieceOk(p: Piece) {
    match p
    case Lit(_) => true
    case Code(content) => Over(content, NotTick)
    case Link(caption, url) => Over(caption, IsLabelChar) && Over(url, IsUrlChar)
    case Strong(content) => content != [] && Unpadded(content) && NoStars(content)
    case Em(content) => Over(content, NotStar) && Unpadded(content)
  }

  lemma {:induction false} Enclosed(open: Text, content: Text, close: Text, rest: Text)
    ensures open <= open + content + close + rest
    ensures (open + content + close + rest)[|open|..] == content + (close + rest)
    ensures (close + rest)[|close|..] == rest
  {
  }

  lemma {:induction false} Enclose(s: Text, open: Text, content: Text, close: Text, rest: Text)
    requires open <= s && s[|open|..] == content + (close + rest)
    ensures s == open + content + close + rest
  {
    assert s == open + s[|open|..];
  }

  lemma {:induction false} CodeIs(content: Text, rest: Text)
    requires Over(content, NotTick)
    ensures FrontCode([TICK] + content + [TICK] + rest) == Some((content, rest))
  {
    Enclosed([TICK], content, [TICK], rest);
    SpanUnique(content, [TICK] + rest, NotTick);
  }

  lemma {:induction false} CodeWas(s: Text, content: Text, rest: Text)
    requires s != [] && FrontCode(s) == Some((content, rest))
    ensures Over(content, NotTick) && s == [TICK] + content + [TICK] + rest
  {
    SpanInClass(s[1..], NotTick);
    assert Span(s[1..], NotTick).1 == [TICK] + rest;
    Enclose(s, [TICK], content, [TICK], rest);
  }

  lemma {:induction false} EmIs(content: Text, rest: Text)
    requires Over(content, NotStar) && Unpadded(content)
    ensures FrontEm([STAR] + content + [STAR] + rest) == Some((content, rest))
  {
    StripShape(content);
    Enclosed([STAR], content, [STAR], rest);
    SpanUnique(content, [STAR] + rest, NotStar);
  }

  lemma {:induction false} EmWas(s: Text, content: Text, rest: Text)
    requires s != [] && FrontEm(s) == Some((content, rest))
    ensures Over(content, NotStar) && Unpadded(content) && s == [STAR] + content + [STAR] + rest
  {
    StripShape(content);
    SpanInClass(s[1..], NotStar);
    assert Span(s[1..], NotStar).1 == [STAR] + rest;
    Enclose(s, [STAR], content, [STAR], rest);
  }

  lemma {:induction false} UrlIs(url: Text, rest: Text)
    requires Over(url, IsUrlChar)
    ensures Span(url + [RIGHT] + rest, IsUrlChar) == (url, [RIGHT] + rest)
    ensures ([RIGHT] + rest)[1..] == rest
  {
    assert url + [RIGHT] + rest == url + ([RIGHT] + rest);
    SpanUnique(url, [RIGHT] + rest, IsUrlChar);
  }

  lemma {:induction false} LinkIs(caption: Text, url: Text, rest: Text)
    requires Over(caption, IsLabelChar) && Over(url, IsUrlChar)
    ensures FrontLink([OPEN] + caption + [CLOSE, LEFT] + (url + [RIGHT] + rest)) == Some((caption, url, rest))
  {
    var after := url + [RIGHT] + rest;
    Enclosed([OPEN], caption, [CLOSE, LEFT], after);
    SpanUnique(caption, [CLOSE, LEFT] + after, IsLabelChar);
    UrlIs(url, rest);
  }

  lemma {:induction false} LinkWas(s: Text, caption: Text, url: Text, rest: Text)
    requires s != [] && FrontLink(s) == Some((caption, url, rest))
    ensures Over(caption, IsLabelChar) && Over(url, IsUrlChar)
    ensures s == [OPEN] + caption + [CLOSE, LEFT] + (url + [RIGHT] + rest)
  {
    SpanInClass(s[1..], IsLabelChar);
    var after := Span(s[1..], IsLabelChar).1;
    SpanInClass(after[2..], IsUrlChar);
    assert Span(after[2..], IsUrlChar).1 == [RIGHT] + rest;
    Regroup(url, [RIGHT], rest);
    assert after == [CLOSE, LEFT] + (url + [RIGHT] + rest);
    Enclose(s, [OPEN], caption, [CLOSE, LEFT], url + [RIGHT] + rest);
  }

  lemma {:induction false} LinkSource(caption: Text, url: Text, rest: Text)
    ensures Source(Link(caption, url)) + rest == [OPEN] + caption + [CLOSE, LEFT] + (url + [RIGHT] + rest)
  {
  }

  lemma {:induction false} StarsFound(content: Text, rest: Text)
    requires NoStars(content)
    ensures UntilStars(content + [STAR, STAR] + rest) == Some((content, rest))
  {
    var s := content + [STAR, STAR] + rest;
    if content == [] {
      assert s[2..] == rest;
    } else {
      var tail := content[1..];
      assert NoStars(tail) by {
        forall i | 0 < i < |tail| ensures tail[i - 1] != STAR || tail[i] != STAR {
          assert tail[i - 1] == content[i] && tail[i] == content[i + 1];
        }
      }
      StarsFound(tail, rest);
      assert s[1..] == tail + [STAR, STAR] + rest;
      assert s[0] == content[0] && (|content| > 1 ==> s[1] == content[1]);
      assert [content[0]] + tail == content;
    }
  }

  lemma {:induction false} StarsFree(s: Text)
    requires UntilStars(s).Some?
    ensures NoStars(UntilStars(s).value.0)
  {
    if !(s[0] == STAR && s[1] == STAR) {
      var r := UntilStars(s[1..]).value.0;
      var content := [s[0]] + r;
      StarsFree(s[1..]);
      assert s[1..] == r + [STAR, STAR] + UntilStars(s[1..]).value.1;
      assert s[1] == (if r == [] then STAR else r[0]);
      forall i | 0 < i < |content| ensures content[i - 1] != STAR || content[i] != STAR {
        if i > 1 { assert content[i - 1] == r[i - 2] && content[i] == r[i - 1]; }
      }
    }
  }

  lemma {:induction false} StrongIs(content: Text, rest: Text)
    requires content != [] && Unpadded(content) && NoStars(content)
    ensures FrontStrong([STAR, STAR] + content + [STAR, STAR] + rest) == Some((content, rest))
  {
    StripShape(content);
    Enclosed([STAR, STAR], content, [STAR, STAR], rest);
    Regroup(content, [STAR, STAR], rest);
    StarsFound(content, rest);
  }

  lemma {:induction false} StrongWas(s: Text, content: Text, rest: Text)
    requires s != [] && FrontStrong(s) == Some((content, rest))
    ensures content != [] && Unpadded(content) && NoStars(content)
    ensures s == [STAR, STAR] + content + [STAR, STAR] + rest
  {
    StripShape(content);
    StarsFree(s[2..]);
    Regroup(content, [STAR, STAR], rest);
    Enclose(s, [STAR, STAR], content, [STAR, STAR], rest);
  }

  /** Whatever is written down correctly is recognised: the constructs never compete. */
  lemma {:induction false} FrontIs(p: Piece, rest: Text)
    requires !p.Lit? && PieceOk(p)
    ensures Source(p) + rest != [] && Front(Source(p) + rest) == (p, rest)
  {
    match p
    case Code(content) =>
      CodeIs(content, rest);
    case Link(caption, url) =>
      LinkIs(caption, url, rest);
      LinkSource(caption, url, rest);
      assert (Source(p) + rest)[0] == OPEN;
    case Strong(content) =>
      StrongIs(content, rest);
      assert (Source(p) + rest)[0] == STAR;
    case Em(content) =>
      EmIs(content, rest);
      assert (Source(p) + rest)[0] == STAR && (Source(p) + rest)[1] == content[0] && content[0] in content;
  }

  lemma {:induction false} FrontWas(s: Text)
    requires s != []
    ensures PieceOk(Front(s).0) && s == Source(Front(s).0) + Front(s).1
    ensures |Front(s).1| < |s|
  {
    var (p, rest) := Front(s);
    match p
    case Lit(_) =>
      assert s == [s[0]] + s[1..];
    case Code(content) =>
      CodeWas(s, content, rest);
    case Link(caption, url) =>
      LinkWas(s, caption, url, rest);
      LinkSource(caption, url, rest);
    case Strong(content) =>
      StrongWas(s, content, rest);
    case Em(content) =>
      EmWas(s, content, rest);
  }

  /** A construct is found at the front exactly when the text starts with a well-formed one. */
  lemma {:induction false} FrontExact(s: Text, p: Piece, rest: Text)
    requires s != [] && !p.Lit?
    ensures Front(s) == (p, rest) <==> PieceOk(p) && s == Source(p) + rest
  {
    FrontWas(s);
    if PieceOk(p) && s == Source(p) + rest { FrontIs(p, rest); }
  }

  // ---------- Links ----------

  const HTTPS: Text := [0x68, 0x74, 0x74, 0x70, 0x73, 0x3A, 0x2F, 0x2F]

  predicate IsAlnum(c: int) { 0x30 <= c <= 0x39 || 0x41 <= c <= 0x5A || 0x61 <= c <= 0x7A }

  /** The class of the authority: everything a URL may hold but `/`, `?`, `#` and `@`. */
  predicate IsAuthorityChar(c: int) {
    IsAlnum(c) || c in {0x2D, 0x2E, 0x5F, 0x7E, 0x3A, 0x21, 0x24, 0x26, 0x2A, 0x2B, 0x2C, 0x3B, 0x3D, 0x25}
  }

  predicate EndsAuthority(c: int) { c in {0x2F, 0x3F, 0x23} }

  predicate IsTailChar(c: int) { IsAuthorityChar(c) || EndsAuthority(c) || c == AT_SIGN }

  predicate IsLabelled(text: Text) { Strip(text) != [] }

  predicate IsShort(url: Text) { |Utf16.Points(url)| <= MAX_URL_CHARS }

  predicate IsExternal(url: Text) { HTTPS <= url }

  /** `URL_PATH_PREFIX` */
  predicate StartsPath(url: Text) {
    url != [] && url[0] == SLASH && !(|url| > 1 && url[1] == SLASH)
  }

  predicate AllTail(s: Text) { Span(s, IsTailChar).1 == [] }

  /** What may follow `https://`. */
  predicate IsAfterHttps(t: Text) {
    var (authority, rest) := Span(t, IsAuthorityChar);
    authority != [] && (rest == [] || (EndsAuthority(rest[0]) && AllTail(rest[1..])))
  }

  /** `URL_HTTPS` */
  predicate IsHttps(url: Text) {
    HTTPS <= url && IsAfterHttps(url[|HTTPS|..])
  }

  /** `URL_PATH` */
  predicate IsPath(url: Text) { StartsPath(url) && AllTail(url[1..]) }

  predicate IsValidUrl(url: Text) {
    (HTTPS <= url ==> IsHttps(url)) && (StartsPath(url) ==> IsPath(url))
  }

  /** Why a link is refused, if it is. */
  function LinkRefusal(text: Text, url: Text): Option<Code> {
    if !IsLabelled(text) then Some(LinkTextEmpty)
    else if !IsShort(url) then Some(UrlTooLong)
    else if !IsExternal(url) && !StartsPath(url) then Some(UrlScheme)
    else if !IsValidUrl(url) then Some(UrlInvalid)
    else None
  }

  /** `link` */
  function LinkToken(text: Text, url: Text): Outcome<Inline> {
    var refusal := LinkRefusal(text, url);
    if refusal.Some? then Refused(refusal.value) else Ok(A(Strip(text), url, if IsExternal(url) then Ext else Int))
  }

  predicate InAuthority(c: int) { !EndsAuthority(c) }

  /** The authority component of section 3.2 of RFC 3986: up to the next slash, question mark or hash. */
  function Authority(url: Text): Text
    requires HTTPS <= url
  {
    Span(url[|HTTPS|..], InAuthority).0
  }

  /** A link that says where it goes. */
  ghost predicate LinkOk(token: Inline) {
    token.A? ==>
      && token.caption != [] && Unpadded(token.caption)
      && |Utf16.Points(token.url)| <= MAX_URL_CHARS
      && match token.kind
         case Int => token.url != [] && token.url[0] == SLASH && !(|token.url| > 1 && token.url[1] == SLASH)
         case Ext => HTTPS <= token.url && Authority(token.url) != [] && AT_SIGN !in Authority(token.url)
  }

  lemma {:induction false} AuthorityIsRun(url: Text)
    requires IsHttps(url)
    ensures Authority(url) == Span(url[|HTTPS|..], IsAuthorityChar).0
  {
    var (front, rest) := Span(url[|HTTPS|..], IsAuthorityChar);
    SpanInClass(url[|HTTPS|..], IsAuthorityChar);
    SpanUnique(front, rest, InAuthority);
  }

  lemma {:induction false} LinkTokenOk(text: Text, url: Text)
    ensures LinkToken(text, url).Ok? ==> LinkOk(LinkToken(text, url).value) && LinkToken(text, url).value.A?
  {
    StripShape(text);
    if HTTPS <= url && IsHttps(url) {
      AuthorityIsRun(url);
      SpanInClass(url[|HTTPS|..], IsAuthorityChar);
    }
  }

  // ---------- The scan ----------

  function Pieces(s: Text): seq<Piece>
    decreases |s|
  {
    if s == [] then []
    else
      FrontWas(s);
      [Front(s).0] + Pieces(Front(s).1)
  }

  function SourceOf(ps: seq<Piece>): Text {
    if ps == [] then [] else Source(ps[0]) + SourceOf(ps[1..])
  }

  /** Nothing is dropped or reordered: the pieces tile the text. */
  lemma {:induction false} PiecesTile(s: Text)
    ensures SourceOf(Pieces(s)) == s
    ensures forall p :: p in Pieces(s) ==> PieceOk(p)
    decreases |s|
  {
    if s != [] {
      FrontWas(s);
      PiecesTile(Front(s).1);
      assert Pieces(s)[1..] == Pieces(Front(s).1);
    }
  }

  function Flushed(buffer: Text): seq<Inline> {
    if buffer == [] then [] else [T(buffer)]
  }

  function Extends<X>(front: seq<X>, more: Outcome<seq<X>>): Outcome<seq<X>> {
    match more
    case Ok(value) => Ok(front + value)
    case Refused(code) => Refused(code)
  }

  function TokenOf(p: Piece): Outcome<Inline> {
    match p
    case Lit(c) => Ok(T([c]))
    case Code(content) => Ok(C(content))
    case Link(caption, url) => LinkToken(caption, url)
    case Strong(content) => Ok(B(content))
    case Em(content) => Ok(I(content))
  }

  /** The tokens of the pieces, when `buffer` holds the characters read since the last construct. */
  function Tokens(ps: seq<Piece>, buffer: Text): Outcome<seq<Inline>>
    decreases |ps|
  {
    if ps == [] then Ok(Flushed(buffer))
    else if ps[0].Lit? then Tokens(ps[1..], buffer + [ps[0].c])
    else
      var token := TokenOf(ps[0]);
      if token.Refused? then Refused(token.code)
      else Extends(Flushed(buffer) + [token.value], Tokens(ps[1..], []))
  }

  function Scan(s: Text): Outcome<seq<Inline>> { Tokens(Pieces(s), []) }
}
