/** The grammar read in UTF-16 units refines the grammar read in code points: "safe rather than lucky"
    (announcements/markdown.tsx, `inline` and its callers; section 2.1 of RFC 2781). */
module AnnounceUtf16 {
  import opened Prelude
  import opened Utf16
  import opened AnnounceText
  import opened AnnounceInline

  /** A unit that is a character by itself. */
  predicate Narrow(c: int) { c < 0xD800 || 0xDFFF < c < 0x10000 }

  /** The class does not tell the other values apart. */
  ghost predicate Uniform(p: int -> bool) {
    forall c, d :: !Narrow(c) && !Narrow(d) ==> p(c) == p(d)
  }

  // ---------- Texts ----------

  lemma {:induction false} Head(s: Text)
    requires CodePoints(s) && s != []
    ensures Encode(s) != [] && CodePoints(s[1..])
    ensures Narrow(s[0]) ==> Encode(s)[0] == s[0] && Encode(s)[1..] == Encode(s[1..])
    ensures !Narrow(s[0]) ==> !Narrow(Encode(s)[0])
  {
    CodePointsTail(s);
    UnitsShape(s[0]);
  }

  lemma {:induction false} EncodeNarrow(s: Text)
    requires forall c :: c in s ==> Narrow(c)
    ensures Encode(s) == s
  {
    if s != [] {
      assert s[0] in s && forall c :: c in s[1..] ==> c in s;
      EncodeNarrow(s[1..]);
      assert [s[0]] + s[1..] == s;
    }
  }

  lemma {:induction false} InEncode(s: Text, c: int)
    requires CodePoints(s) && Narrow(c)
    ensures c in Encode(s) <==> c in s
  {
    if s != [] {
      CodePointsTail(s);
      UnitsShape(s[0]);
      InEncode(s[1..], c);
      assert c in s <==> c == s[0] || c in s[1..];
      assert c in Units(s[0]) <==> c == s[0];
    }
  }

  lemma {:induction false} SpanThrough(u: Text, rest: Text, p: int -> bool)
    requires forall c :: c in u ==> p(c)
    ensures Span(u + rest, p) == (u + Span(rest, p).0, Span(rest, p).1)
  {
    var (front, after) := Span(rest, p);
    SpanInClass(rest, p);
    assert forall c :: c in u + front ==> c in u || c in front;
    SpanUnique(u + front, after, p);
    Regroup(u, front, after);
  }

  lemma {:induction false} UnitsInClass(c: int, p: int -> bool)
    requires IsPoint(c) && Uniform(p)
    ensures forall u :: u in Units(c) ==> p(u) == p(c)
  {
    UnitsShape(c);
  }

  /** Cutting at the end of a run is the same cut in both readings. */
  lemma {:induction false} SpanEncode(s: Text, p: int -> bool)
    requires CodePoints(s) && Uniform(p)
    ensures CodePoints(Span(s, p).0) && CodePoints(Span(s, p).1)
    ensures Span(Encode(s), p) == (Encode(Span(s, p).0), Encode(Span(s, p).1))
  {
    if s != [] {
      var u, t := Units(s[0]), s[1..];
      CodePointsTail(s);
      UnitsInClass(s[0], p);
      if p(s[0]) {
        SpanEncode(t, p);
        SpanThrough(u, Encode(t), p);
        var front := Span(t, p).0;
        assert ([s[0]] + front)[1..] == front;
      } else {
        assert Encode(s)[0] in u;
      }
    }
  }

  ghost predicate AllNarrow(sep: Text) { forall c :: c in sep ==> Narrow(c) }

  lemma {:induction false} PrefixCons(sep: Text, s: Text)
    requires sep != [] && s != []
    ensures sep <= s <==> sep[0] == s[0] && sep[1..] <= s[1..]
  {
    if sep[0] == s[0] && sep[1..] <= s[1..] {
      assert sep == [sep[0]] + sep[1..] && s == [s[0]] + s[1..];
    }
  }

  /** A prefix of plain units is the same prefix in both readings. */
  lemma {:induction false} PrefixEncode(s: Text, sep: Text)
    requires CodePoints(s) && AllNarrow(sep)
    ensures sep <= Encode(s) <==> sep <= s
    ensures sep <= s ==> Encode(s)[|sep|..] == Encode(s[|sep|..]) && CodePoints(s[|sep|..])
    decreases |sep|
  {
    if sep == [] {
      assert Encode(s)[0..] == Encode(s) && s[0..] == s;
    } else if s != [] {
      var t := sep[1..];
      assert sep[0] in sep && forall c :: c in t ==> c in sep;
      Head(s);
      PrefixCons(sep, s);
      PrefixCons(sep, Encode(s));
      if sep[0] == s[0] {
        PrefixEncode(s[1..], t);
        if sep <= s { assert s[1..][|t|..] == s[|sep|..] && Encode(s)[1..][|t|..] == Encode(s)[|sep|..]; }
      }
    }
  }

  lemma {:induction false} LstripEncode(s: Text)
    requires CodePoints(s)
    ensures CodePoints(Lstrip(s)) && Lstrip(Encode(s)) == Encode(Lstrip(s))
  {
    if s != [] {
      Head(s);
      if IsSpace(s[0]) { LstripEncode(s[1..]); }
    }
  }

  lemma {:induction false} Last(s: Text)
    requires CodePoints(s) && s != []
    ensures var init, last := s[..|s| - 1], s[|s| - 1];
      && CodePoints(init) && IsPoint(last) && Encode(s) == Encode(init) + Units(last)
  {
    var init, last := s[..|s| - 1], s[|s| - 1];
    assert s == init + [last] && last in s;
    assert forall c :: c in init ==> c in s;
    EncodeAppend(init, [last]);
    assert [last][1..] == [];
    assert Encode([last]) == Units(last) + [];
  }

  lemma {:induction false} RstripLast(s: Text, c: int)
    ensures IsSpace(c) ==> Rstrip(s + [c]) == Rstrip(s)
    ensures !IsSpace(c) ==> Rstrip(s + [c]) == s + [c]
  {
    assert (s + [c])[..|s|] == s;
  }

  lemma {:induction false} RstripUnits(s: Text, c: int)
    requires IsPoint(c)
    ensures Rstrip(s + Units(c)) == if IsSpace(c) then Rstrip(s) else s + Units(c)
  {
    UnitsShape(c);
    if c < 0x10000 {
      RstripLast(s, c);
    } else {
      RstripLast(s + [Units(c)[0]], Units(c)[1]);
      assert s + Units(c) == s + [Units(c)[0]] + [Units(c)[1]];
    }
  }

  lemma {:induction false} RstripEncode(s: Text)
    requires CodePoints(s)
    ensures CodePoints(Rstrip(s)) && Rstrip(Encode(s)) == Encode(Rstrip(s))
  {
    if s != [] {
      Last(s);
      var init, last := s[..|s| - 1], s[|s| - 1];
      assert init + [last] == s;
      UnitsShape(last);
      RstripLast(init, last);
      RstripUnits(Encode(init), last);
      if IsSpace(last) { RstripEncode(init); }
    }
  }

  lemma {:induction false} UnpaddedEncode(s: Text)
    requires CodePoints(s)
    ensures Unpadded(Encode(s)) <==> Unpadded(s)
  {
    if s != [] {
      var init, u := Encode(s[..|s| - 1]), Units(s[|s| - 1]);
      Head(s);
      Last(s);
      UnitsShape(s[|s| - 1]);
      assert (init + u)[|init + u| - 1] == u[|u| - 1];
    }
  }

  lemma {:induction false} StripEncode(s: Text)
    requires CodePoints(s)
    ensures CodePoints(Strip(s)) && Strip(Encode(s)) == Encode(Strip(s))
    ensures Encode(s) == Strip(Encode(s)) <==> s == Strip(s)
  {
    RstripEncode(s);
    LstripEncode(Rstrip(s));
    UnpaddedEncode(s);
    StripShape(s);
    StripShape(Encode(s));
  }

  // ---------- The constructs ----------

  function EncodePair(r: Option<(Text, Text)>): Option<(Text, Text)> {
    if r.None? then None else Some((Encode(r.value.0), Encode(r.value.1)))
  }

  function EncodeTriple(r: Option<(Text, Text, Text)>): Option<(Text, Text, Text)> {
    if r.None? then None else Some((Encode(r.value.0), Encode(r.value.1), Encode(r.value.2)))
  }

  ghost predicate PointPair(r: Option<(Text, Text)>) {
    r.Some? ==> CodePoints(r.value.0) && CodePoints(r.value.1)
  }

  lemma {:induction false} EmptyEncode(s: Text)
    ensures Encode(s) == [] <==> s == []
  {
  }

  lemma {:induction false} CodeEncode(s: Text)
    requires CodePoints(s) && s != []
    ensures PointPair(FrontCode(s))
    ensures Encode(s) != [] && FrontCode(Encode(s)) == EncodePair(FrontCode(s))
  {
    Head(s);
    if s[0] == TICK {
      SpanEncode(s[1..], NotTick);
      var (content, rest) := Span(s[1..], NotTick);
      EmptyEncode(content);
      EmptyEncode(rest);
      if rest != [] { Head(rest); }
    }
  }

  lemma {:induction false} EmEncode(s: Text)
    requires CodePoints(s) && s != []
    ensures PointPair(FrontEm(s))
    ensures Encode(s) != [] && FrontEm(Encode(s)) == EncodePair(FrontEm(s))
  {
    Head(s);
    if s[0] == STAR {
      SpanEncode(s[1..], NotStar);
      var (content, rest) := Span(s[1..], NotStar);
      EmptyEncode(content);
      EmptyEncode(rest);
      StripEncode(content);
      if rest != [] { Head(rest); }
    }
  }

  lemma {:induction false} StarsSkip(u: Text, rest: Text)
    requires forall c :: c in u ==> c != STAR
    ensures UntilStars(u + rest) ==
      var r := UntilStars(rest); if r.None? then None else Some((u + r.value.0, r.value.1))
  {
    if u == [] {
      assert u + rest == rest;
      if UntilStars(rest).Some? { assert u + UntilStars(rest).value.0 == UntilStars(rest).value.0; }
    } else {
      var t := u[1..];
      assert u[0] in u && forall c :: c in t ==> c in u;
      StarsSkip(t, rest);
      assert (u + rest)[0] == u[0] && (u + rest)[1..] == t + rest;
      if UntilStars(rest).Some? { assert [u[0]] + (t + UntilStars(rest).value.0) == u + UntilStars(rest).value.0; }
    }
  }

  lemma {:induction false} StarsEncode(s: Text)
    requires CodePoints(s)
    ensures PointPair(UntilStars(s))
    ensures UntilStars(Encode(s)) == EncodePair(UntilStars(s))
  {
    if s != [] {
      Head(s);
      var t := s[1..];
      StarsEncode(t);
      if t != [] { Head(t); }
      if s[0] != STAR {
        UnitsShape(s[0]);
        StarsSkip(Units(s[0]), Encode(t));
        if UntilStars(t).Some? { assert ([s[0]] + UntilStars(t).value.0)[1..] == UntilStars(t).value.0; }
        StarsSkip([s[0]], t);
        assert [s[0]] + t == s;
      } else if t != [] && t[0] == STAR {
        assert s[2..] == t[1..] && Encode(s)[2..] == Encode(t)[1..];
      } else {
        if UntilStars(t).Some? { assert ([s[0]] + UntilStars(t).value.0)[1..] == UntilStars(t).value.0; }
      }
    }
  }

  lemma {:induction false} StrongEncode(s: Text)
    requires CodePoints(s) && s != []
    ensures PointPair(FrontStrong(s))
    ensures Encode(s) != [] && FrontStrong(Encode(s)) == EncodePair(FrontStrong(s))
  {
    var stars: Text := [STAR, STAR];
    PrefixEncode(s, stars);
    assert forall x: Text :: stars <= x <==> |x| >= 2 && x[0] == STAR && x[1] == STAR;
    if stars <= s {
      StarsEncode(s[2..]);
      var r := UntilStars(s[2..]);
      if r.Some? {
        StripEncode(r.value.0);
        EmptyEncode(r.value.0);
      }
    }
  }

  lemma {:induction false} UrlTailEncode(t: Text)
    requires CodePoints(t)
    ensures PointPair(UrlTail(t)) && UrlTail(Encode(t)) == EncodePair(UrlTail(t))
  {
    SpanEncode(t, IsUrlChar);
    var (url, after) := Span(t, IsUrlChar);
    EmptyEncode(url);
    EmptyEncode(after);
    if after != [] { Head(after); }
  }

  lemma {:induction false} UrlEncode(rest: Text)
    requires CodePoints(rest)
    ensures PointPair(UrlAfter(rest)) && UrlAfter(Encode(rest)) == EncodePair(UrlAfter(rest))
  {
    var bracket: Text := [CLOSE, LEFT];
    PrefixEncode(rest, bracket);
    if bracket <= rest { UrlTailEncode(rest[2..]); }
  }

  lemma {:induction false} LinkEncode(s: Text)
    requires CodePoints(s) && s != []
    ensures FrontLink(s).Some? ==>
      CodePoints(FrontLink(s).value.0) && CodePoints(FrontLink(s).value.1) && CodePoints(FrontLink(s).value.2)
    ensures Encode(s) != [] && FrontLink(Encode(s)) == EncodeTriple(FrontLink(s))
  {
    Head(s);
    if s[0] == OPEN {
      SpanEncode(s[1..], IsLabelChar);
      var (caption, rest) := Span(s[1..], IsLabelChar);
      EmptyEncode(caption);
      if caption != [] { UrlEncode(rest); }
    }
  }

  // ---------- The scan ----------

  function EncodePiece(p: Piece): Piece {
    match p
    case Lit(c) => Lit(c)
    case Code(content) => Code(Encode(content))
    case Link(caption, url) => Link(Encode(caption), Encode(url))
    case Strong(content) => Strong(Encode(content))
    case Em(content) => Em(Encode(content))
  }

  ghost predicate PointPiece(p: Piece) {
    match p
    case Lit(c) => IsPoint(c)
    case Code(content) => CodePoints(content)
    case Link(caption, url) => CodePoints(caption) && CodePoints(url)
    case Strong(content) => CodePoints(content)
    case Em(content) => CodePoints(content)
  }

  lemma {:induction false} FrontEncode(s: Text)
    requires CodePoints(s) && s != [] && Narrow(s[0])
    ensures PointPiece(Front(s).0) && CodePoints(Front(s).1)
    ensures Encode(s) != [] && Front(Encode(s)) == (EncodePiece(Front(s).0), Encode(Front(s).1))
  {
    CodeEncode(s);
    LinkEncode(s);
    StrongEncode(s);
    EmEncode(s);
    CodePointsTail(s);
    Head(s);
  }

  /** Half of a pair is never a delimiter. */
  lemma {:induction false} FrontWide(c: int, rest: Text)
    requires !Narrow(c)
    ensures Front([c] + rest) == (Lit(c), rest)
  {
    assert ([c] + rest)[1..] == rest;
  }

  lemma {:induction false} TokensLit(c: int, ps: seq<Piece>, buffer: Text)
    ensures Tokens([Lit(c)] + ps, buffer) == Tokens(ps, buffer + [c])
  {
    assert ([Lit(c)] + ps)[1..] == ps;
  }

  lemma {:induction false} TokensConstruct(p: Piece, ps: seq<Piece>, buffer: Text)
    requires !p.Lit?
    ensures Tokens([p] + ps, buffer) ==
      if TokenOf(p).Refused? then Refused(TokenOf(p).code)
      else Extends(Flushed(buffer) + [TokenOf(p).value], Tokens(ps, []))
  {
    assert ([p] + ps)[1..] == ps;
  }

  function EncodeToken(t: Inline): Inline {
    match t
    case T(text) => T(Encode(text))
    case B(text) => B(Encode(text))
    case I(text) => I(Encode(text))
    case C(text) => C(Encode(text))
    case A(caption, url, kind) => A(Encode(caption), Encode(url), kind)
    case Br => Br
  }

  function EncodeTokens(tokens: seq<Inline>): seq<Inline> { Map(tokens, EncodeToken) }

  function EncodeLine(r: Outcome<seq<Inline>>): Outcome<seq<Inline>> {
    match r
    case Ok(tokens) => Ok(EncodeTokens(tokens))
    case Refused(code) => Refused(code)
  }

  function EncodeOne(r: Outcome<Inline>): Outcome<Inline> {
    match r
    case Ok(token) => Ok(EncodeToken(token))
    case Refused(code) => Refused(code)
  }

  lemma {:induction false} TailEncode(s: Text)
    requires CodePoints(s)
    ensures AllTail(Encode(s)) <==> AllTail(s)
  {
    SpanEncode(s, IsTailChar);
    EmptyEncode(Span(s, IsTailChar).1);
  }

  lemma {:induction false} AfterHttpsEncode(t: Text)
    requires CodePoints(t)
    ensures IsAfterHttps(Encode(t)) <==> IsAfterHttps(t)
  {
    SpanEncode(t, IsAuthorityChar);
    var (authority, rest) := Span(t, IsAuthorityChar);
    EmptyEncode(authority);
    EmptyEncode(rest);
    if rest != [] {
      Head(rest);
      TailEncode(rest[1..]);
    }
  }

  lemma {:induction false} HttpsEncode(url: Text)
    requires CodePoints(url)
    ensures HTTPS <= Encode(url) <==> HTTPS <= url
    ensures IsHttps(Encode(url)) <==> IsHttps(url)
  {
    PrefixEncode(url, HTTPS);
    if HTTPS <= url { AfterHttpsEncode(url[|HTTPS|..]); }
  }

  lemma {:induction false} PathEncode(url: Text)
    requires CodePoints(url)
    ensures StartsPath(Encode(url)) <==> StartsPath(url)
    ensures IsPath(Encode(url)) <==> IsPath(url)
  {
    EmptyEncode(url);
    if url != [] {
      Head(url);
      if url[0] == SLASH {
        var t := url[1..];
        TailEncode(t);
        EmptyEncode(t);
        if t != [] { Head(t); }
      }
    }
  }

  lemma {:induction false} ShortEncode(url: Text)
    requires Iterated(url)
    ensures IsShort(Encode(url)) <==> IsShort(url)
  {
    PointsEncode(url);
    PointsOfIterated(url);
  }

  lemma {:induction false} LabelEncode(text: Text)
    requires CodePoints(text)
    ensures IsLabelled(Encode(text)) <==> IsLabelled(text)
  {
    StripEncode(text);
    EmptyEncode(Strip(text));
  }

  lemma {:induction false} ValidEncode(url: Text)
    requires CodePoints(url)
    ensures IsExternal(Encode(url)) <==> IsExternal(url)
    ensures StartsPath(Encode(url)) <==> StartsPath(url)
    ensures IsValidUrl(Encode(url)) <==> IsValidUrl(url)
  {
    HttpsEncode(url);
    PathEncode(url);
  }

  lemma {:induction false} RefusalEncode(text: Text, url: Text)
    requires CodePoints(text) && Iterated(url)
    ensures LinkRefusal(Encode(text), Encode(url)) == LinkRefusal(text, url)
    ensures IsExternal(Encode(url)) <==> IsExternal(url)
  {
    LabelEncode(text);
    ShortEncode(url);
    ValidEncode(url);
  }

  lemma {:induction false} LinkTokenEncode(text: Text, url: Text)
    requires CodePoints(text) && Iterated(url)
    ensures LinkToken(Encode(text), Encode(url)) == EncodeOne(LinkToken(text, url))
  {
    RefusalEncode(text, url);
    StripEncode(text);
  }

  lemma {:induction false} UrlPaired(caption: Text, url: Text)
    requires Paired(Source(Link(caption, url)))
    ensures Paired(url)
  {
    var front := [OPEN] + caption + [CLOSE, LEFT];
    PairedParts(front + url, [RIGHT]);
    PairedParts(front, url);
  }

  lemma {:induction false} TokenEncode(p: Piece)
    requires PointPiece(p) && !p.Lit? && Paired(Source(p))
    ensures TokenOf(EncodePiece(p)) == EncodeOne(TokenOf(p)) && !EncodePiece(p).Lit?
  {
    if p.Link? {
      UrlPaired(p.caption, p.url);
      LinkTokenEncode(p.caption, p.url);
    }
  }

  lemma {:induction false} EncodeExtends(buffer: Text, token: Inline, more: Outcome<seq<Inline>>)
    ensures Extends(Flushed(Encode(buffer)) + [EncodeToken(token)], EncodeLine(more)) ==
            EncodeLine(Extends(Flushed(buffer) + [token], more))
  {
    EmptyEncode(buffer);
    if more.Ok? {
      var a, b := Flushed(buffer) + [token], more.value;
      assert EncodeTokens(a + b) == EncodeTokens(a) + EncodeTokens(b);
      assert EncodeTokens(a) == Flushed(Encode(buffer)) + [EncodeToken(token)];
    }
  }

  lemma {:induction false} EncodePush(buffer: Text, c: int)
    ensures Encode(buffer + [c]) == Encode(buffer) + Units(c)
  {
    EncodeAppend(buffer, [c]);
    assert [c][1..] == [];
    assert Units(c) + [] == Units(c);
  }

  lemma {:induction false} WideUnit(c: int, rest: Text, buffer: Text)
    requires !Narrow(c)
    ensures Tokens(Pieces([c] + rest), buffer) == Tokens(Pieces(rest), buffer + [c])
  {
    FrontWide(c, rest);
    TokensLit(c, Pieces(rest), buffer);
  }

  lemma {:induction false} WideUnits(u: Text, rest: Text, buffer: Text)
    requires 1 <= |u| <= 2 && forall c :: c in u ==> !Narrow(c)
    ensures Tokens(Pieces(u + rest), buffer) == Tokens(Pieces(rest), buffer + u)
  {
    var c, t := [u[0]], u[1..];
    assert u == c + t && u[0] in u;
    WideUnit(u[0], t + rest, buffer);
    Regroup(c, t, rest);
    Regroup(buffer, c, t);
    if t == [] {
      assert t + rest == rest;
    } else {
      assert t == [u[1]] && u[1] in u;
      WideUnit(u[1], rest, buffer + c);
    }
  }

  /** A point that is no character by itself goes to the buffer, in either reading. */
  lemma {:induction false} WideHead(c: int, t: Text, buffer: Text)
    requires IsPoint(c) && !Narrow(c)
    ensures Tokens(Pieces(Encode([c] + t)), Encode(buffer)) == Tokens(Pieces(Encode(t)), Encode(buffer + [c]))
  {
    UnitsShape(c);
    EncodeCons(c, t);
    EncodePush(buffer, c);
    WideUnits(Units(c), Encode(t), Encode(buffer));
  }

  lemma {:induction false} ScanFrom(s: Text, buffer: Text)
    requires Iterated(s)
    ensures Tokens(Pieces(Encode(s)), Encode(buffer)) == EncodeLine(Tokens(Pieces(s), buffer))
    decreases |s|
  {
    if s == [] {
      EmptyEncode(buffer);
      assert EncodeTokens(Flushed(buffer)) == Flushed(Encode(buffer));
    } else if !Narrow(s[0]) {
      var t := s[1..];
      IteratedTail(s);
      assert s == [s[0]] + t;
      WideHead(s[0], t, buffer);
      WideUnit(s[0], t, buffer);
      ScanFrom(t, buffer + [s[0]]);
    } else {
      FrontEncode(s);
      FrontWas(s);
      var (p, rest) := Front(s);
      PairedParts(Source(p), rest);
      if p.Lit? {
        ScanFrom(rest, buffer + [p.c]);
        EncodePush(buffer, p.c);
        TokensLit(p.c, Pieces(rest), buffer);
        TokensLit(p.c, Pieces(Encode(rest)), Encode(buffer));
      } else {
        ScanFrom(rest, []);
        TokenEncode(p);
        TokensConstruct(p, Pieces(rest), buffer);
        TokensConstruct(EncodePiece(p), Pieces(Encode(rest)), Encode(buffer));
        if TokenOf(p).Ok? { EncodeExtends(buffer, TokenOf(p).value, Tokens(Pieces(rest), [])); }
      }
    }
  }

  /** Scanning the UTF-16 form gives the UTF-16 form of the tokens, and the same refusals. */
  lemma {:induction false} ScanRefines(s: Text)
    requires Iterated(s)
    ensures Scan(Encode(s)) == EncodeLine(Scan(s))
  {
    ScanFrom(s, []);
  }
}
