/** The scan as a loop (announcements/markdown.tsx, `inline`), the shape of its tokens, and what
    printing them gives back. */
module AnnounceScan {
  import opened Prelude
  import opened AnnounceText
  import opened AnnounceInline

  // ---------- The loop ----------

  /** `s.indexOf(c, from)`, with -1 for none. */
  method IndexOf(s: Text, c: int, from: nat, p: int -> bool) returns (j: int)
    requires from <= |s| && forall x :: p(x) <==> x != c
    ensures j == -1 ==> Span(s[from..], p).1 == []
    ensures j != -1 ==> from <= j < |s| && s[j] == c && Span(s[from..], p) == (s[from..j], s[j..])
  {
    j := from;
    while j < |s| && s[j] != c
      invariant from <= j <= |s| && forall x :: x in s[from..j] ==> p(x)
    {
      assert s[from..j + 1] == s[from..j] + [s[j]];
      j := j + 1;
    }
    assert s[from..] == s[from..j] + s[j..];
    SpanUnique(s[from..j], s[j..], p);
    if j == |s| { j := -1; }
  }

  /** No double star starts from `from` up to `j`. */
  ghost predicate NoPairBefore(s: Text, from: nat, j: nat)
    requires from <= j <= |s|
  {
    forall i :: from <= i < j && i + 1 < |s| ==> s[i] != STAR || s[i + 1] != STAR
  }

  lemma {:induction false} NoStarHere(s: Text, i: nat)
    requires i < |s| && (i + 1 < |s| ==> s[i] != STAR || s[i + 1] != STAR)
    ensures UntilStars(s[i..]) ==
      var r := UntilStars(s[i + 1..]); if r.None? then None else Some(([s[i]] + r.value.0, r.value.1))
  {
    assert s[i..][1..] == s[i + 1..];
  }

  lemma {:induction false} StarsHere(s: Text, j: nat)
    requires j <= |s| && (j + 2 <= |s| ==> s[j] == STAR && s[j + 1] == STAR)
    ensures UntilStars(s[j..]) == if j + 2 <= |s| then Some(([], s[j + 2..])) else None
  {
    if j + 2 <= |s| { assert s[j..][2..] == s[j + 2..]; }
  }

  /** The first double star from `from` on is the one at `j`, or there is none. */
  lemma {:induction false} FirstPair(s: Text, from: nat, j: nat)
    requires from <= j <= |s| && NoPairBefore(s, from, j) && (j + 2 <= |s| ==> s[j] == STAR && s[j + 1] == STAR)
    ensures UntilStars(s[from..]) == if j + 2 <= |s| then Some((s[from..j], s[j + 2..])) else None
    decreases j - from
  {
    if from == j {
      StarsHere(s, j);
      assert s[from..j] == [];
    } else {
      FirstPair(s, from + 1, j);
      NoStarHere(s, from);
      assert [s[from]] + s[from + 1..j] == s[from..j];
    }
  }

  /** `s.indexOf("**", from)`, with -1 for none. */
  method IndexOfStars(s: Text, from: nat) returns (j: int)
    requires from <= |s|
    ensures j == -1 ==> UntilStars(s[from..]).None?
    ensures j != -1 ==> from <= j <= |s| - 2 && UntilStars(s[from..]) == Some((s[from..j], s[j + 2..]))
  {
    j := from;
    while j + 2 <= |s| && !(s[j] == STAR && s[j + 1] == STAR)
      invariant from <= j <= |s| && NoPairBefore(s, from, j)
    {
      j := j + 1;
    }
    FirstPair(s, from, j);
    if j + 2 > |s| { j := -1; }
  }

  /** The four tests of the loop body: the end of the construct at `i`, or -1. */
  method CodeAt(s: Text, i: nat) returns (j: int)
    requires i < |s|
    ensures j == -1 ==> FrontCode(s[i..]).None?
    ensures j != -1 ==> i + 1 < j < |s| && FrontCode(s[i..]) == Some((s[i + 1..j], s[j + 1..]))
  {
    if s[i] != TICK { return -1; }
    assert s[i..][1..] == s[i + 1..];
    j := IndexOf(s, TICK, i + 1, NotTick);
    if j > i + 1 { assert s[j..][1..] == s[j + 1..]; } else { j := -1; }
  }

  lemma {:induction false} SuffixOf(s: Text, i: nat, rest: Text, end: nat)
    requires i <= |s| && |rest| <= |s| - i && s[i..][|s| - i - |rest|..] == rest && end == |s| - |rest|
    ensures s[end..] == rest
  {
  }

  method LinkAt(s: Text, i: nat) returns (m: Option<(Text, Text)>, end: nat)
    requires i < |s|
    ensures m.None? ==> FrontLink(s[i..]).None?
    ensures m.Some? ==> i < end <= |s| && FrontLink(s[i..]) == Some((m.value.0, m.value.1, s[end..]))
  {
    var r := FrontLink(s[i..]);
    if r.None? { return None, i; }
    LinkWas(s[i..], r.value.0, r.value.1, r.value.2);
    end := |s| - |r.value.2|;
    assert s[end..] == r.value.2 by { SuffixOf(s, i, r.value.2, end); }
    m := Some((r.value.0, r.value.1));
  }

  method StrongAt(s: Text, i: nat) returns (j: int)
    requires i < |s|
    ensures j == -1 ==> FrontStrong(s[i..]).None?
    ensures j != -1 ==> i + 2 < j <= |s| - 2 && FrontStrong(s[i..]) == Some((s[i + 2..j], s[j + 2..]))
  {
    if i + 2 > |s| || s[i] != STAR || s[i + 1] != STAR { return -1; }
    assert s[i..][2..] == s[i + 2..];
    j := IndexOfStars(s, i + 2);
    if j > i + 1 {
      var content := s[i + 2..j];
      if content == [] || content != Strip(content) { j := -1; }
    }
  }

  method EmAt(s: Text, i: nat) returns (j: int)
    requires i < |s|
    ensures j == -1 ==> FrontEm(s[i..]).None?
    ensures j != -1 ==> i + 1 < j < |s| && FrontEm(s[i..]) == Some((s[i + 1..j], s[j + 1..]))
  {
    if s[i] != STAR { return -1; }
    assert s[i..][1..] == s[i + 1..];
    j := IndexOf(s, STAR, i + 1, NotStar);
    if j > i {
      assert s[j..][1..] == s[j + 1..];
      var content := s[i + 1..j];
      if content == [] || content != Strip(content) { j := -1; }
    }
  }

  /** What is scanned so far, and what is still to come, make the whole scan. */
  ghost predicate Pending(s: Text, i: nat, tokens: seq<Inline>, buffer: Text)
    requires i <= |s|
  {
    Extends(tokens, Tokens(Pieces(s[i..]), buffer)) == Scan(s)
  }

  lemma {:induction false} ScanStart(s: Text)
    ensures Pending(s, 0, [], [])
  {
    assert s[0..] == s;
    if Scan(s).Ok? { assert [] + Scan(s).value == Scan(s).value; }
  }

  lemma {:induction false} ScanLit(s: Text, i: nat, tokens: seq<Inline>, buffer: Text)
    requires i < |s| && Front(s[i..]) == (Lit(s[i]), s[i + 1..]) && Pending(s, i, tokens, buffer)
    ensures Pending(s, i + 1, tokens, buffer + [s[i]])
  {
    var rest := Pieces(s[i + 1..]);
    assert Pieces(s[i..]) == [Lit(s[i])] + rest;
    assert ([Lit(s[i])] + rest)[1..] == rest;
  }

  lemma {:induction false} ExtendsTwice<X>(a: seq<X>, b: seq<X>, more: Outcome<seq<X>>)
    ensures Extends(a, Extends(b, more)) == Extends(a + b, more)
  {
    if more.Ok? { Regroup(a, b, more.value); }
  }

  lemma {:induction false} ScanConstruct(s: Text, i: nat, tokens: seq<Inline>, buffer: Text, p: Piece, next: nat)
    requires i < |s| && next <= |s| && !p.Lit? && Front(s[i..]) == (p, s[next..]) && Pending(s, i, tokens, buffer)
    ensures TokenOf(p).Refused? ==> Scan(s) == Refused(TokenOf(p).code)
    ensures TokenOf(p).Ok? ==> Pending(s, next, tokens + Flushed(buffer) + [TokenOf(p).value], [])
  {
    var rest := Pieces(s[next..]);
    assert Pieces(s[i..]) == [p] + rest;
    assert ([p] + rest)[1..] == rest;
    if TokenOf(p).Ok? {
      ExtendsTwice(tokens, Flushed(buffer) + [TokenOf(p).value], Tokens(rest, []));
      Regroup(tokens, Flushed(buffer), [TokenOf(p).value]);
    }
  }

  lemma {:induction false} ScanEnd(s: Text, tokens: seq<Inline>, buffer: Text)
    requires Pending(s, |s|, tokens, buffer)
    ensures Scan(s) == Ok(tokens + Flushed(buffer))
  {
    assert s[|s|..] == [];
  }

  /** One turn of the loop: what stands at `i`, and where the scan goes on. */
  method NextPiece(s: Text, i: nat) returns (p: Piece, next: nat)
    requires i < |s|
    ensures i < next <= |s| && Front(s[i..]) == (p, s[next..])
    ensures p.Lit? ==> p.c == s[i] && next == i + 1
  {
    ghost var t := s[i..];
    var j := CodeAt(s, i);
    if j != -1 { return Code(s[i + 1..j]), j + 1; }
    var m, end := LinkAt(s, i);
    if m.Some? { return Link(m.value.0, m.value.1), end; }
    j := StrongAt(s, i);
    if j != -1 { return Strong(s[i + 2..j]), j + 2; }
    j := EmAt(s, i);
    if j != -1 { return Em(s[i + 1..j]), j + 1; }
    assert t[1..] == s[i + 1..];
    return Lit(s[i]), i + 1;
  }

  method Flush(tokens0: seq<Inline>, buffer: Text) returns (tokens: seq<Inline>)
    ensures tokens == tokens0 + Flushed(buffer)
  {
    tokens := tokens0;
    if buffer != [] { tokens := tokens + [T(buffer)]; }
  }

  method ScanInline(s: Text) returns (r: Outcome<seq<Inline>>)
    ensures r == Scan(s)
  {
    var tokens: seq<Inline> := [];
    var buffer: Text := [];
    var i: nat := 0;
    ScanStart(s);
    while i < |s|
      invariant i <= |s| && Pending(s, i, tokens, buffer)
      decreases |s| - i
    {
      var p, next := NextPiece(s, i);
      if p.Lit? {
        ScanLit(s, i, tokens, buffer);
        buffer := buffer + [s[i]];
      } else {
        ScanConstruct(s, i, tokens, buffer, p, next);
        tokens := Flush(tokens, buffer);
        buffer := [];
        var token := TokenOf(p);
        if token.Refused? { return Refused(token.code); }
        tokens := tokens + [token.value];
      }
      i := next;
    }
    ScanEnd(s, tokens, buffer);
    tokens := Flush(tokens, buffer);
    r := Ok(tokens);
  }

  // ---------- The shape of the tokens ----------

  /** A token that shows something. */
  ghost predicate TokenOk(t: Inline) {
    match t
    case T(text) => text != []
    case B(text) => text != [] && Unpadded(text)
    case I(text) => text != [] && Unpadded(text)
    case C(text) => text != []
    case A(_, _, _) => LinkOk(t)
    case Br => false
  }

  ghost predicate NoAdjacentTexts(tokens: seq<Inline>) {
    forall i :: 0 < i < |tokens| ==> !(tokens[i - 1].T? && tokens[i].T?)
  }

  /** The tokens of one line. */
  ghost predicate LineOk(tokens: seq<Inline>) {
    NoAdjacentTexts(tokens) && forall t :: t in tokens ==> TokenOk(t)
  }

  lemma {:induction false} LineJoins(a: seq<Inline>, b: seq<Inline>)
    requires LineOk(a) && LineOk(b) && (a == [] || b == [] || !(a[|a| - 1].T? && b[0].T?))
    ensures LineOk(a + b)
  {
    var s := a + b;
    forall i | 0 < i < |s| ensures !(s[i - 1].T? && s[i].T?) {
      if i > |a| { assert s[i - 1] == b[i - 1 - |a|] && s[i] == b[i - |a|]; }
    }
  }

  lemma {:induction false} TokenOfOk(p: Piece)
    requires PieceOk(p) && !p.Lit?
    ensures TokenOf(p).Ok? ==> TokenOk(TokenOf(p).value) && !TokenOf(p).value.T?
  {
    if p.Link? { LinkTokenOk(p.caption, p.url); }
  }

  lemma {:induction false} TokensShape(ps: seq<Piece>, buffer: Text)
    requires forall p :: p in ps ==> PieceOk(p)
    requires Tokens(ps, buffer).Ok?
    ensures LineOk(Tokens(ps, buffer).value)
    ensures ps != [] || buffer != [] ==> Tokens(ps, buffer).value != []
    decreases |ps|
  {
    if ps != [] {
      assert ps[0] in ps && forall p :: p in ps[1..] ==> p in ps;
      if ps[0].Lit? {
        TokensShape(ps[1..], buffer + [ps[0].c]);
      } else {
        TokenOfOk(ps[0]);
        TokensShape(ps[1..], []);
        var token := TokenOf(ps[0]).value;
        LineJoins(Flushed(buffer), [token]);
        LineJoins(Flushed(buffer) + [token], Tokens(ps[1..], []).value);
      }
    }
  }

  /** The tokens of an accepted line: none empty, no two texts side by side, every link honest, and
      something for every line that is not empty. */
  lemma {:induction false} ScanShape(s: Text)
    requires Scan(s).Ok?
    ensures LineOk(Scan(s).value)
    ensures s != [] ==> Scan(s).value != []
  {
    PiecesTile(s);
    TokensShape(Pieces(s), []);
  }

  // ---------- Printing ----------

  function PrintToken(t: Inline): Text {
    match t
    case T(text) => text
    case B(text) => Source(Strong(text))
    case I(text) => Source(Em(text))
    case C(text) => Source(Code(text))
    case A(caption, url, _) => Source(Link(caption, url))
    case Br => LINE_BREAK
  }

  function Print(tokens: seq<Inline>): Text {
    if tokens == [] then [] else PrintToken(tokens[0]) + Print(tokens[1..])
  }

  lemma {:induction false} PrintAppend(a: seq<Inline>, b: seq<Inline>)
    ensures Print(a + b) == Print(a) + Print(b)
  {
    if a == [] {
      assert a + b == b;
    } else {
      assert (a + b)[0] == a[0] && (a + b)[1..] == a[1..] + b;
      PrintAppend(a[1..], b);
      Regroup(PrintToken(a[0]), Print(a[1..]), Print(b));
    }
  }

  /** No link of the pieces has white space at an end of its label. */
  ghost predicate NoPadding(ps: seq<Piece>) {
    forall p :: p in ps && p.Link? ==> Unpadded(p.caption)
  }

  lemma {:induction false} LinkLength(caption: Text, url: Text)
    ensures |Source(Link(caption, url))| == |caption| + |url| + 4
  {
  }

  lemma {:induction false} PrintOfLink(caption: Text, url: Text)
    ensures |Source(Link(Strip(caption), url))| <= |Source(Link(caption, url))|
    ensures |Source(Link(Strip(caption), url))| == |Source(Link(caption, url))| <==> Unpadded(caption)
    ensures Unpadded(caption) ==> Strip(caption) == caption
  {
    StripShape(caption);
    LinkLength(caption, url);
    LinkLength(Strip(caption), url);
  }

  lemma {:induction false} PrintIsSource(p: Piece)
    requires !p.Lit? && !p.Link?
    ensures TokenOf(p).Ok? && PrintToken(TokenOf(p).value) == Source(p)
  {
  }

  lemma {:induction false} PrintOfToken(p: Piece)
    requires !p.Lit? && TokenOf(p).Ok?
    ensures |PrintToken(TokenOf(p).value)| <= |Source(p)|
    ensures |PrintToken(TokenOf(p).value)| == |Source(p)| <==> !p.Link? || Unpadded(p.caption)
    ensures !p.Link? || Unpadded(p.caption) ==> PrintToken(TokenOf(p).value) == Source(p)
  {
    if p.Link? { PrintOfLink(p.caption, p.url); } else { PrintIsSource(p); }
  }

  lemma {:induction false} PrintFlushed(buffer: Text, token: Inline)
    ensures Print(Flushed(buffer) + [token]) == buffer + PrintToken(token)
    ensures Print(Flushed(buffer)) == buffer
  {
    PrintAppend(Flushed(buffer), [token]);
    assert [token][1..] == [] && [T(buffer)][1..] == [];
    assert Print([token]) == PrintToken(token);
  }

  lemma {:induction false} PrintGlue(buffer: Text, a: Text, a': Text, b: Text, b': Text)
    ensures a == a' && b == [] + b' ==> buffer + a + b == buffer + (a' + b')
    ensures |buffer + a + b| == |buffer| + |a| + |b| && |a' + b'| == |a'| + |b'|
  {
  }

  /** Printed tokens are never longer than their source, and as long only if they are it. */
  lemma {:induction false} PrintOfTokens(ps: seq<Piece>, buffer: Text)
    requires Tokens(ps, buffer).Ok?
    ensures |Print(Tokens(ps, buffer).value)| <= |buffer| + |SourceOf(ps)|
    ensures |Print(Tokens(ps, buffer).value)| == |buffer| + |SourceOf(ps)| <==> NoPadding(ps)
    ensures NoPadding(ps) ==> Print(Tokens(ps, buffer).value) == buffer + SourceOf(ps)
    decreases |ps|
  {
    if ps == [] {
      PrintFlushed(buffer, Br);
    } else {
      var p, rest := ps[0], ps[1..];
      assert ps == [p] + rest;
      assert NoPadding(ps) <==> (!p.Link? || Unpadded(p.caption)) && NoPadding(rest);
      if p.Lit? {
        PrintOfTokens(rest, buffer + [p.c]);
        Regroup(buffer, [p.c], SourceOf(rest));
      } else {
        var token := TokenOf(p).value;
        PrintOfTokens(rest, []);
        PrintOfToken(p);
        PrintFlushed(buffer, token);
        PrintAppend(Flushed(buffer) + [token], Tokens(rest, []).value);
        PrintGlue(buffer, PrintToken(token), Source(p), Print(Tokens(rest, []).value), SourceOf(rest));
      }
    }
  }

  /** Printing the tokens of a line gives the line back exactly when no label is padded. */
  lemma {:induction false} PrintScan(s: Text)
    requires Scan(s).Ok?
    ensures Print(Scan(s).value) == s <==> NoPadding(Pieces(s))
    ensures |Print(Scan(s).value)| <= |s|
    ensures |Print(Scan(s).value)| == |s| <==> NoPadding(Pieces(s))
  {
    PiecesTile(s);
    PrintOfTokens(Pieces(s), []);
    assert [] + SourceOf(Pieces(s)) == s;
  }
}
