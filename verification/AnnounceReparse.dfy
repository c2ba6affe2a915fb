/** What printing and scanning again gives (announcements/markdown.tsx, `inline`): the exact condition
    under which stripping the labels of links makes the line mean something else. */
module AnnounceReparse {
  import opened Prelude
  import opened AnnounceText
  import opened AnnounceInline
  import opened AnnounceScan
  import opened AnnouncePadding

  // ---------- The condition ----------

  predicate OpensEm(mid: Text, stripped: Text)
    requires mid != [] && stripped != []
  {
    STAR !in mid && !IsSpace(mid[0]) && stripped[0] == STAR
  }

  ghost predicate OpensStrong(mid: Text, stripped: Text)
    requires mid != []
  {
    && mid[0] == STAR && |mid| > 1 && !IsSpace(mid[1]) && NoStars(mid[1..])
    && [STAR, STAR] <= stripped
  }

  predicate OpensLink(mid: Text, stripped: Text) {
    var (caption, rest) := Span(mid, IsLabelChar);
    && caption != []
    && [CLOSE, LEFT] <= rest
    && Span(rest[2..], IsUrlChar).1 == []
    && [RIGHT] <= Span(stripped, IsUrlChar).1
  }

  /** `c`, a character that opened nothing, opens a construct that ends within `stripped`, the label of
      a link, when `mid` stands between them: the text up to the bracket of the link. */
  ghost predicate Opens(c: int, mid: Text, stripped: Text)
    requires mid != [] && stripped != []
  {
    || (c == STAR && OpensEm(mid, stripped))
    || (c == STAR && OpensStrong(mid, stripped))
    || (c == OPEN && OpensLink(mid, stripped))
  }

  ghost predicate WakesHere(c: int, text: Text, p: Piece) {
    p.Link? && p.caption != [] && IsSpace(p.caption[0]) && Strip(p.caption) != [] &&
      Opens(c, text + [OPEN], Strip(p.caption))
  }

  /** `c` stands before `text` and the printed `ps`: one of these is a link whose label, once the white
      space at its front is gone, ends a construct that `c` opens. */
  ghost predicate Wakes(c: int, text: Text, ps: seq<Piece>)
    decreases |ps|
  {
    && ps != []
    && (WakesHere(c, text, ps[0]) || Wakes(c, text + Source(Trim(ps[0])), ps[1..]))
  }

  /** Some literal character of the line is woken. */
  ghost predicate SomeWakes(ps: seq<Piece>) {
    ps != [] && ((ps[0].Lit? && Wakes(ps[0].c, [], ps[1..])) || SomeWakes(ps[1..]))
  }

  /** `c` opens a construct that ends within any label that `back` starts with. */
  ghost predicate OpensAtAny(c: int, mid: Text, back: Text) {
    mid != [] && forall name: Text | name != [] && name + [CLOSE] <= back :: Opens(c, mid, name)
  }

  /** Where the label of the link ends what `c` opens, `c` is woken. */
  lemma {:induction false} LabelWakes(c: int, lead: Text, text: Text, ps: seq<Piece>, front: Text, back: Text)
    requires AtLabel(text, ps, front, back)
    requires OpensAtAny(c, lead + front, back)
    ensures Wakes(c, lead + text, ps)
    decreases |ps|
  {
    if AtLabelHere(text, ps[0], front, back) {
      Regroup(lead, text, [OPEN]);
    } else {
      LabelWakes(c, lead, text + Source(Trim(ps[0])), ps[1..], front, back);
      Regroup(lead, text, Source(Trim(ps[0])));
    }
  }

  // ---------- A star ----------

  lemma {:induction false} NoStarsIs(s: Text)
    ensures NoStars(s) <==> s == [] || (!ProfileOf(s).pair && !ProfileOf(s).endsStar)
  {
    if s != [] {
      assert HasPair(s) <==> exists i :: 0 < i < |s| && s[i - 1] == STAR && s[i] == STAR;
    }
  }

  /** What looks like the content of printed italics is the content of italics. */
  lemma {:induction false} EmLike(a: Text, content: Text)
    requires Over(content, NotStar) && Unpadded(content) && ProfileOf(a) == ProfileOf(content) && SameEnd(a, content)
    ensures Over(a, NotStar) && Unpadded(a)
  {
    assert STAR !in content;
    assert STAR !in a;
  }

  lemma {:induction false} StrongLike(a: Text, content: Text)
    requires content != [] && NoStars(content) && Unpadded(content)
    requires ProfileOf(a) == ProfileOf(content) && SameEnd(a, content)
    ensures a != [] && NoStars(a) && Unpadded(a)
  {
    NoStarsIs(a);
    NoStarsIs(content);
  }

  lemma {:induction false} StartsStar(a: Text, b: Text)
    requires ProfileOf(a) == ProfileOf(b)
    ensures [STAR] <= b ==> [STAR] <= a && a == [STAR] + a[1..]
    ensures [STAR, STAR] <= b ==> [STAR, STAR] <= a && a == [STAR, STAR] + a[2..]
  {
  }

  lemma {:induction false} NothingBefore(s: Text)
    ensures [] + s == s
  {
  }

  lemma {:induction false} EmFound(a1: Text, a2: Text)
    requires Over(a1, NotStar) && Unpadded(a1) && [STAR] <= a2
    ensures FrontEm([STAR] + (a1 + a2)).Some?
  {
    var rest := a2[1..];
    assert a2 == [STAR] + rest;
    EmIs(a1, rest);
    Regroup([STAR], a1, a2);
    Regroup([STAR] + a1, [STAR], rest);
  }

  lemma {:induction false} EmThere(s: Text, a1: Text, a2: Text, content: Text, back: Text)
    requires Over(content, NotStar) && Unpadded(content) && [STAR] <= back && CutsLike(s, a1, a2, content, back)
    ensures SameEnd(a1, content) ==> FrontEm([STAR] + s).Some?
  {
    if SameEnd(a1, content) {
      EmLike(a1, content);
      StartsStar(a2, back);
      EmFound(a1, a2);
    }
  }

  lemma {:induction false} StrongThere(s: Text, a1: Text, a2: Text, content: Text, back: Text)
    requires content != [] && NoStars(content) && Unpadded(content)
    requires [STAR, STAR] <= back && CutsLike(s, a1, a2, content, back)
    ensures SameEnd(a1, content) ==> FrontStrong([STAR, STAR] + s).Some?
  {
    if SameEnd(a1, content) {
      StrongLike(a1, content);
      StartsStar(a2, back);
      StrongIs(a1, a2[2..]);
      assert [STAR, STAR] + s == [STAR, STAR] + a1 + [STAR, STAR] + a2[2..];
    }
  }

  lemma {:induction false} EmOpens(content: Text, back: Text)
    requires Over(content, NotStar) && Unpadded(content) && [STAR] <= back
    ensures OpensAtAny(STAR, [] + content, back)
  {
    NothingBefore(content);
    assert STAR !in content;
    forall name: Text | name != [] && name + [CLOSE] <= back ensures Opens(STAR, content, name) {
      assert name[0] == (name + [CLOSE])[0] == back[0];
    }
  }

  /** Italics in the printed text that were none in the source: a label woke the star. */
  lemma {:induction false} EmWakes(ps: seq<Piece>, content: Text, rest: Text)
    requires Labelled(ps) && Over(content, NotStar) && Unpadded(content)
    requires SourceOf(Trims(ps)) == content + ([STAR] + rest)
    requires FrontEm([STAR] + SourceOf(ps)).None?
    ensures Wakes(STAR, [], ps)
  {
    var back := [STAR] + rest;
    NothingBefore(SourceOf(Trims(ps)));
    NothingBefore(SourceOf(ps));
    var a1, a2 := CutAtStar([], ps, content, back);
    EmThere(SourceOf(ps), a1, a2, content, back);
    EmOpens(content, back);
    LabelWakes(STAR, [], [], ps, content, back);
  }

  lemma {:induction false} StrongOpens(content: Text, back: Text)
    requires content != [] && NoStars(content) && Unpadded(content) && [STAR, STAR] <= back
    ensures OpensAtAny(STAR, [STAR] + content, back)
  {
    assert ([STAR] + content)[1..] == content;
    forall name: Text | name != [] && name + [CLOSE] <= back ensures Opens(STAR, [STAR] + content, name) {
      assert (name + [CLOSE])[0] == back[0] && (name + [CLOSE])[1] == back[1];
    }
  }

  lemma {:induction false} StrongWakes(text: Text, ps: seq<Piece>, content: Text, rest: Text)
    requires Labelled(ps) && content != [] && NoStars(content) && Unpadded(content)
    requires text + SourceOf(Trims(ps)) == content + ([STAR, STAR] + rest)
    requires FrontStrong([STAR, STAR] + (text + SourceOf(ps))).None?
    ensures Wakes(STAR, [STAR] + text, ps)
  {
    var back := [STAR, STAR] + rest;
    var a1, a2 := CutAtStar(text, ps, content, back);
    StrongThere(text + SourceOf(ps), a1, a2, content, back);
    StrongOpens(content, back);
    LabelWakes(STAR, [STAR], text, ps, content, back);
  }

  // ---------- A bracket ----------

  /** `a` continues a bracket to a whole link. */
  ghost predicate ClosesLink(a: Text, caption: Text, url: Text) {
    Over(caption, IsLabelChar) && Over(url, IsUrlChar) && caption + [CLOSE, LEFT] + url + [RIGHT] <= a
  }

  lemma {:induction false} LinkThere(a: Text, caption: Text, url: Text)
    requires ClosesLink(a, caption, url)
    ensures FrontLink([OPEN] + a).Some?
  {
    var whole := caption + [CLOSE, LEFT] + url + [RIGHT];
    assert a == whole + a[|whole|..];
    LinkIs(caption, url, a[|whole|..]);
    assert [OPEN] + a == [OPEN] + caption + [CLOSE, LEFT] + (url + [RIGHT] + a[|whole|..]);
  }

  lemma {:induction false} NothingNew(whole: Text, text: Text, a: Text, b: Text)
    requires whole <= text + a && |whole| <= |text|
    ensures whole <= text + b
  {
    assert (text + a)[..|whole|] == text[..|whole|] == (text + b)[..|whole|];
  }

  lemma {:induction false} BracketInUrl(caption: Text, url: Text, k: nat)
    requires Over(caption, IsLabelChar)
    requires k < |caption + [CLOSE, LEFT] + url + [RIGHT]| && (caption + [CLOSE, LEFT] + url + [RIGHT])[k] == OPEN
    ensures |caption| + 2 <= k < |caption| + 2 + |url|
  {
    forall i | 0 <= i < |caption| ensures caption[i] != OPEN {
      assert caption[i] in caption;
    }
  }

  lemma {:induction false} TailPrefix(a: Text, b: Text, k: nat)
    requires a <= b && k <= |a|
    ensures a[k..] <= b[k..]
  {
  }

  lemma {:induction false} EndsInName(v: Text, name: Text, more: Text)
    requires v + [RIGHT] <= name + [CLOSE, LEFT] + more && forall c :: c in v ==> IsUrlChar(c)
    ensures v + [RIGHT] <= name
  {
    var s := name + [CLOSE, LEFT] + more;
    assert s[|name|] == CLOSE && s[|name| + 1] == LEFT;
    assert forall i :: 0 <= i < |v| ==> s[i] == v[i] && v[i] in v;
    assert s[|v|] == RIGHT;
  }

  /** The new link reaches over the bracket and ends within the name. */
  lemma {:induction false} UrlSides(text: Text, name: Text, url0: Text, rest: Text, caption: Text, url: Text)
    returns (u1: Text, v: Text)
    requires ClosesLink(text + Source(Link(name, url0)) + rest, caption, url)
    requires |text| < |caption + [CLOSE, LEFT] + url + [RIGHT]|
    ensures url == u1 + v && text + [OPEN] == caption + [CLOSE, LEFT] + u1 && v + [RIGHT] <= name
  {
    var s := text + Source(Link(name, url0)) + rest;
    var whole := caption + [CLOSE, LEFT] + url + [RIGHT];
    var k := |text|;
    var n := |caption| + 2;
    assert forall i :: 0 <= i < |whole| ==> whole[i] == s[i];
    assert s[k] == OPEN && whole[k] == OPEN;
    assert n <= k < n + |url| by { BracketInUrl(caption, url, k); }
    u1, v := url[..k + 1 - n], url[k + 1 - n..];
    assert whole[..k + 1] == s[..k + 1];
    assert whole[..k + 1] == caption + [CLOSE, LEFT] + u1;
    assert s[..k + 1] == text + [OPEN];
    assert s[k + 1..] == name + [CLOSE, LEFT] + (url0 + [RIGHT] + rest);
    assert whole[k + 1..] == v + [RIGHT];
    assert v + [RIGHT] <= name + [CLOSE, LEFT] + (url0 + [RIGHT] + rest) by { TailPrefix(whole, s, k + 1); }
    EndsInName(v, name, url0 + [RIGHT] + rest);
  }

  lemma {:induction false} LinkOpens(text: Text, name: Text, caption: Text, u1: Text, v: Text)
    requires Over(caption, IsLabelChar) && (forall c :: c in u1 + v ==> IsUrlChar(c))
    requires text + [OPEN] == caption + [CLOSE, LEFT] + u1 && v + [RIGHT] <= name
    ensures name != [] && Opens(OPEN, text + [OPEN], name)
  {
    var mid := text + [OPEN];
    Regroup(caption, [CLOSE, LEFT], u1);
    SpanUnique(caption, [CLOSE, LEFT] + u1, IsLabelChar);
    assert ([CLOSE, LEFT] + u1)[2..] == u1 && u1 + [] == u1;
    assert forall c :: c in u1 ==> c in u1 + v;
    SpanUnique(u1, [], IsUrlChar);
    var more := name[|v|..];
    assert name == v + more && more[0] == RIGHT;
    assert forall c :: c in v ==> c in u1 + v;
    SpanUnique(v, more, IsUrlChar);
  }

  lemma {:induction false} Stretch(a: Text, u: Text, v: Text, b: Text, front: Text)
    requires front == a + u
    ensures a + (u + v) + b == front + (v + b)
  {
    Regroup(a, u, v);
    Regroup(front, v, b);
  }

  lemma {:induction false} PrefixAfter(a: Text, b: Text, c: Text)
    requires b <= c
    ensures a + b <= a + c
  {
  }

  lemma {:induction false} LinkStarts(name: Text, right: Text, url: Text)
    ensures [OPEN] + name <= Source(Link(name + right, url))
  {
    LinkParts([], name, right, url);
  }

  lemma {:induction false} WholeInName(text: Text, name: Text, right: Text, url0: Text, rest: Text, caption: Text,
      u1: Text, v: Text)
    requires text + [OPEN] == caption + [CLOSE, LEFT] + u1 && v + [RIGHT] <= name
    ensures caption + [CLOSE, LEFT] + (u1 + v) + [RIGHT] <= text + Source(Link(name + right, url0)) + rest
  {
    Stretch(caption + [CLOSE, LEFT], u1, v, [RIGHT], text + [OPEN]);
    PrefixAfter(text + [OPEN], v + [RIGHT], name);
    Regroup(text, [OPEN], name);
    LinkStarts(name, right, url0);
    PrefixAfter(text, [OPEN] + name, Source(Link(name + right, url0)));
    PrefixGrows(text + ([OPEN] + name), text + Source(Link(name + right, url0)), rest);
  }

  lemma {:induction false} LinkWakesHere(text: Text, label0: Text, url0: Text, rest: Text, rest': Text, caption: Text,
      url: Text)
    requires Strip(label0) != [] && ClosesLink(text + Source(Link(Strip(label0), url0)) + rest', caption, url)
    requires |text| < |caption + [CLOSE, LEFT] + url + [RIGHT]|
    requires FrontLink([OPEN] + (text + Source(Link(label0, url0)) + rest)).None?
    ensures WakesHere(OPEN, text, Link(label0, url0))
  {
    var name := Strip(label0);
    var left, right := StripParts(label0);
    var u1, v := UrlSides(text, name, url0, rest', caption, url);
    LinkOpens(text, name, caption, u1, v);
    if left == [] {
      NothingBefore(name);
      WholeInName(text, name, right, url0, rest, caption, u1, v);
      LinkThere(text + Source(Link(name + right, url0)) + rest, caption, url);
    }
  }

  lemma {:induction false} LinkWakes(text: Text, ps: seq<Piece>, caption: Text, url: Text)
    requires Labelled(ps) && ClosesLink(text + SourceOf(Trims(ps)), caption, url)
    requires FrontLink([OPEN] + (text + SourceOf(ps))).None?
    ensures Wakes(OPEN, text, ps)
    decreases |ps|
  {
    var whole := caption + [CLOSE, LEFT] + url + [RIGHT];
    if |whole| <= |text| {
      NothingNew(whole, text, SourceOf(Trims(ps)), SourceOf(ps));
      LinkThere(text + SourceOf(ps), caption, url);
      assert false;
    } else if ps != [] {
      var rest, rest' := SourceOf(ps[1..]), SourceOf(Trims(ps[1..]));
      LabelledTail(ps);
      TrimsCons(ps);
      Regroup(text, Source(ps[0]), rest);
      Regroup(text, Source(Trim(ps[0])), rest');
      if ps[0].Link? {
        LinkWakesHere(text, ps[0].caption, ps[0].url, rest, rest', caption, url);
      } else {
        LinkWakes(text + Source(ps[0]), ps[1..], caption, url);
      }
    }
  }

  // ---------- A tick ----------

  lemma {:induction false} CodeByProfile(a: Text)
    ensures FrontCode([TICK] + a).Some? <==> a != [] && a[0] != TICK && TICK in a
  {
    var s := [TICK] + a;
    assert s[1..] == a;
    SpanInClass(a, NotTick);
    var front, rest := Span(a, NotTick).0, Span(a, NotTick).1;
    assert a == front + rest;
    if rest == [] {
      assert TICK !in a;
    } else {
      assert rest[0] in a;
    }
    if front != [] { assert a[0] == front[0] && front[0] in front; }
  }

  lemma {:induction false} TickStays(a: Text, b: Text)
    requires ProfileOf(a) == ProfileOf(b)
    ensures FrontCode([TICK] + a).None? <==> FrontCode([TICK] + b).None?
  {
    CodeByProfile(a);
    CodeByProfile(b);
  }

  // ---------- Woken characters ----------

  lemma {:induction false} LinkSplit(text: Text, name: Text, url: Text, more: Text)
    ensures text + (Source(Link(name, url)) + more) == text + [OPEN] + name + ([CLOSE] + Target(url) + more)
  {
    LinkParts([], name, [], url);
    var tail := [CLOSE] + Target(url);
    assert Source(Link(name, url)) == [OPEN] + name + tail;
    Regroup([OPEN] + name, tail, more);
    Regroup(text, [OPEN] + name, tail + more);
    Regroup(text, [OPEN], name);
  }

  /** `whole` holds what `c` opens, up to a bracket, and the label that ends it. */
  ghost predicate OpensIn(c: int, whole: Text, mid: Text, name: Text, rest: Text) {
    mid != [] && mid[|mid| - 1] == OPEN && name != [] && Opens(c, mid, name) && whole == mid + name + rest
  }

  lemma {:induction false} WakesJustHere(c: int, text: Text, p: Piece, more: Text)
    returns (mid: Text, name: Text, rest: Text)
    requires WakesHere(c, text, p)
    ensures OpensIn(c, text + (Source(Trim(p)) + more), mid, name, rest)
  {
    mid, name, rest := text + [OPEN], Strip(p.caption), [CLOSE] + Target(p.url) + more;
    LinkSplit(text, name, p.url, more);
  }

  lemma {:induction false} WakesSides(c: int, text: Text, ps: seq<Piece>)
    requires Wakes(c, text, ps)
    ensures ps != [] && (WakesHere(c, text, ps[0]) || Wakes(c, text + Source(Trim(ps[0])), ps[1..]))
  {
  }

  lemma {:induction false} WakesWhere(c: int, text: Text, ps: seq<Piece>) returns (mid: Text, name: Text, rest: Text)
    requires Wakes(c, text, ps)
    ensures OpensIn(c, text + SourceOf(Trims(ps)), mid, name, rest)
    decreases |ps|
  {
    WakesSides(c, text, ps);
    TrimsCons(ps);
    var b, more := Source(Trim(ps[0])), SourceOf(Trims(ps[1..]));
    if WakesHere(c, text, ps[0]) {
      mid, name, rest := WakesJustHere(c, text, ps[0], more);
    } else {
      mid, name, rest := WakesWhere(c, text + b, ps[1..]);
      Regroup(text, b, more);
    }
  }

  lemma {:induction false} EmOpened(mid: Text, name: Text, rest: Text)
    requires mid != [] && mid[|mid| - 1] == OPEN && name != [] && OpensEm(mid, name)
    ensures FrontEm([STAR] + (mid + name + rest)).Some?
  {
    assert name == [STAR] + name[1..];
    EmIs(mid, name[1..] + rest);
    assert [STAR] + (mid + name + rest) == [STAR] + mid + [STAR] + (name[1..] + rest);
  }

  lemma {:induction false} StrongOpened(mid: Text, name: Text, rest: Text)
    requires mid != [] && mid[|mid| - 1] == OPEN && OpensStrong(mid, name)
    ensures FrontStrong([STAR] + (mid + name + rest)).Some?
  {
    var content := mid[1..];
    assert mid == [STAR] + content && name == [STAR, STAR] + name[2..];
    StrongIs(content, name[2..] + rest);
    assert [STAR] + (mid + name + rest) == [STAR, STAR] + content + [STAR, STAR] + (name[2..] + rest);
  }

  lemma {:induction false} WholeThere(mid: Text, name: Text, rest: Text, caption: Text, u1: Text, v: Text)
    requires mid == caption + [CLOSE, LEFT] + u1 && v + [RIGHT] <= name && mid[|mid| - 1] == OPEN
    ensures u1 != [] && caption + [CLOSE, LEFT] + (u1 + v) + [RIGHT] <= mid + name + rest
  {
    Stretch(caption + [CLOSE, LEFT], u1, v, [RIGHT], mid);
    PrefixAfter(mid, v + [RIGHT], name);
    PrefixGrows(mid + (v + [RIGHT]), mid + name, rest);
  }

  lemma {:induction false} LinkOpened(mid: Text, name: Text, rest: Text)
    requires mid != [] && mid[|mid| - 1] == OPEN && OpensLink(mid, name)
    ensures FrontLink([OPEN] + (mid + name + rest)).Some?
  {
    var (caption, more) := Span(mid, IsLabelChar);
    var u1 := more[2..];
    var (v, after) := Span(name, IsUrlChar);
    SpanInClass(mid, IsLabelChar);
    SpanInClass(u1, IsUrlChar);
    SpanInClass(name, IsUrlChar);
    assert Span(u1, IsUrlChar).0 + [] == u1;
    assert more == [CLOSE, LEFT] + u1 && after == [RIGHT] + after[1..];
    Regroup(caption, [CLOSE, LEFT], u1);
    Regroup(v, [RIGHT], after[1..]);
    WholeThere(mid, name, rest, caption, u1, v);
    LinkThere(mid + name + rest, caption, u1 + v);
  }

  /** A woken character does open a construct in the printed text. */
  lemma {:induction false} WokenOpens(c: int, ps: seq<Piece>)
    requires Wakes(c, [], ps)
    ensures !Front([c] + SourceOf(Trims(ps))).0.Lit?
  {
    var mid, name, rest := WakesWhere(c, [], ps);
    NothingBefore(SourceOf(Trims(ps)));
    if c == STAR && OpensEm(mid, name) {
      EmOpened(mid, name, rest);
    } else if c == STAR {
      StrongOpened(mid, name, rest);
    } else {
      LinkOpened(mid, name, rest);
    }
  }

  /** The first tests of the scan look at the first character only. */
  lemma {:induction false} FrontByFirst(c: int, a: Text)
    ensures var s := [c] + a;
      && (c == STAR ==> (Front(s).0.Lit? <==> FrontStrong(s).None? && FrontEm(s).None?))
      && (c == OPEN ==> (Front(s).0.Lit? <==> FrontLink(s).None?))
      && (c == TICK ==> (Front(s).0.Lit? <==> FrontCode(s).None?))
      && (c != STAR && c != OPEN && c != TICK ==> Front(s).0.Lit?)
      && (Front(s).0.Lit? ==> Front(s) == (Lit(c), a))
  {
    assert ([c] + a)[0] == c && ([c] + a)[1..] == a;
  }

  lemma {:induction false} Uncons(a: Text, more: Text)
    requires a != []
    ensures a == [a[0]] + a[1..] && a + more == [a[0]] + (a[1..] + more)
  {
  }

  lemma {:induction false} FirstOf(p: Piece)
    ensures Source(p) != [] && Source(Trim(p)) != [] && Source(Trim(p))[0] == Source(p)[0]
    ensures p.Link? ==> Source(p)[0] == OPEN
  {
  }

  lemma {:induction false} StarFirst(p: Piece, more: Text, more': Text)
    requires (Source(Trim(p)) + more')[0] == STAR
    ensures !p.Link? && Trim(p) == p && Source(p) == [STAR] + Source(p)[1..]
    ensures Source(p) + more == [STAR] + (Source(p)[1..] + more)
    ensures Source(p) + more' == [STAR] + (Source(p)[1..] + more')
  {
    FirstOf(p);
    Uncons(Source(p), more);
    Uncons(Source(p), more');
  }

  /** `s` without its first character, when it is a star. */
  lemma {:induction false} TwoStars(a: Text, b: Text)
    ensures [STAR] + ([STAR] + a) == [STAR, STAR] + a
    ensures [STAR] + b == [STAR, STAR] + a ==> b == [STAR] + a
    ensures [STAR] + b == [STAR] + a ==> b == a
  {
    assert ([STAR] + b)[1..] == b && ([STAR, STAR] + a)[1..] == [STAR] + a && ([STAR] + a)[1..] == a;
  }

  lemma {:induction false} PairWakesOn(ps: seq<Piece>, content: Text, rest: Text)
    requires Labelled(ps) && FrontStrong([STAR] + SourceOf(ps)).None?
    requires SourceOf(Trims(ps)) == [STAR] + (content + ([STAR, STAR] + rest))
    requires content != [] && Unpadded(content) && NoStars(content)
    ensures Wakes(STAR, [], ps)
  {
    TrimsCons(ps);
    LabelledTail(ps);
    var text, more, more' := Source(ps[0])[1..], SourceOf(ps[1..]), SourceOf(Trims(ps[1..]));
    StarFirst(ps[0], more, more');
    TwoStars(content + ([STAR, STAR] + rest), text + more');
    TwoStars(text + more, []);
    StrongWakes(text, ps[1..], content, rest);
    NothingBefore(Source(ps[0]));
  }

  lemma {:induction false} PairWakes(ps: seq<Piece>, content: Text, rest: Text)
    requires Labelled(ps) && FrontStrong([STAR] + SourceOf(ps)).None?
    requires FrontStrong([STAR] + SourceOf(Trims(ps))) == Some((content, rest))
    ensures Wakes(STAR, [], ps)
  {
    var b := SourceOf(Trims(ps));
    var tail := content + ([STAR, STAR] + rest);
    StrongWas([STAR] + b, content, rest);
    Enclosed([STAR, STAR], content, [STAR, STAR], rest);
    TwoStars(tail, b);
    assert b == [STAR] + tail;
    PairWakesOn(ps, content, rest);
  }

  lemma {:induction false} DropFirst(c: int, b: Text, content: Text, rest: Text)
    ensures [c] + b == [c] + content + rest ==> b == content + rest
  {
    assert ([c] + b)[1..] == b && ([c] + content + rest)[1..] == content + rest;
  }

  lemma {:induction false} StarWakes(ps: seq<Piece>)
    requires Labelled(ps) && Front([STAR] + SourceOf(ps)).0.Lit?
    requires !Front([STAR] + SourceOf(Trims(ps))).0.Lit?
    ensures Wakes(STAR, [], ps)
  {
    var a, b := SourceOf(ps), SourceOf(Trims(ps));
    FrontByFirst(STAR, a);
    FrontByFirst(STAR, b);
    if FrontStrong([STAR] + b).Some? {
      PairWakes(ps, FrontStrong([STAR] + b).value.0, FrontStrong([STAR] + b).value.1);
    } else {
      var (content, rest) := FrontEm([STAR] + b).value;
      EmWas([STAR] + b, content, rest);
      DropFirst(STAR, b, content, [STAR] + rest);
      EmWakes(ps, content, rest);
    }
  }

  lemma {:induction false} LinkBody(b: Text, caption: Text, url: Text, rest: Text)
    ensures [OPEN] + b == [OPEN] + caption + [CLOSE, LEFT] + (url + [RIGHT] + rest) ==>
      caption + [CLOSE, LEFT] + url + [RIGHT] <= b
  {
    if [OPEN] + b == [OPEN] + caption + [CLOSE, LEFT] + (url + [RIGHT] + rest) {
      assert b == ([OPEN] + b)[1..] == caption + [CLOSE, LEFT] + (url + [RIGHT] + rest);
      assert b == caption + [CLOSE, LEFT] + url + [RIGHT] + rest;
    }
  }

  lemma {:induction false} BracketWakes(ps: seq<Piece>)
    requires Labelled(ps) && Front([OPEN] + SourceOf(ps)).0.Lit?
    requires !Front([OPEN] + SourceOf(Trims(ps))).0.Lit?
    ensures Wakes(OPEN, [], ps)
  {
    var a, b := SourceOf(ps), SourceOf(Trims(ps));
    FrontByFirst(OPEN, a);
    FrontByFirst(OPEN, b);
    var (caption, url, rest) := FrontLink([OPEN] + b).value;
    LinkWas([OPEN] + b, caption, url, rest);
    LinkBody(b, caption, url, rest);
    NothingBefore(a);
    NothingBefore(b);
    LinkWakes([], ps, caption, url);
  }

  lemma {:induction false} TickNeverWakes(ps: seq<Piece>)
    requires Labelled(ps)
    ensures Front([TICK] + SourceOf(ps)).0.Lit? ==> Front([TICK] + SourceOf(Trims(ps))).0.Lit?
  {
    TrimsProfile(ps);
    TickStays(SourceOf(ps), SourceOf(Trims(ps)));
    FrontByFirst(TICK, SourceOf(ps));
    FrontByFirst(TICK, SourceOf(Trims(ps)));
  }

  /** A literal character stays one in the printed text unless it is woken. */
  lemma {:induction false} LiteralStays(c: int, ps: seq<Piece>)
    requires Labelled(ps) && Front([c] + SourceOf(ps)).0.Lit?
    ensures Front([c] + SourceOf(Trims(ps))).0.Lit? <==> !Wakes(c, [], ps)
  {
    if Wakes(c, [], ps) {
      WokenOpens(c, ps);
    } else if c == TICK {
      TickNeverWakes(ps);
    } else if c != STAR && c != OPEN {
      FrontByFirst(c, SourceOf(Trims(ps)));
    } else if !Front([c] + SourceOf(Trims(ps))).0.Lit? {
      if c == STAR { StarWakes(ps); } else { BracketWakes(ps); }
      assert false;
    }
  }

  // ---------- Tokens ----------

  lemma {:induction false} OkIsLabelled(ps: seq<Piece>, buffer: Text)
    requires (forall p :: p in ps ==> PieceOk(p)) && Tokens(ps, buffer).Ok?
    ensures Labelled(ps)
    decreases |ps|
  {
    if ps != [] {
      assert ps == [ps[0]] + ps[1..] && forall p :: p in ps[1..] ==> p in ps;
      OkIsLabelled(ps[1..], if ps[0].Lit? then buffer + [ps[0].c] else []);
    }
  }

  lemma {:induction false} TrimToken(p: Piece)
    requires TokenOf(p).Ok?
    ensures TokenOf(Trim(p)) == TokenOf(p) && Trim(p).Lit? == p.Lit?
    ensures p.Link? ==> Unpadded(Trim(p).caption)
  {
    if p.Link? { StripShape(p.caption); StripShape(Strip(p.caption)); }
  }

  /** Trimming does not show in the tokens, and the printed tokens are the trimmed pieces. */
  lemma {:induction false} TrimsTokens(ps: seq<Piece>, buffer: Text)
    requires Tokens(ps, buffer).Ok?
    ensures Tokens(Trims(ps), buffer) == Tokens(ps, buffer) && NoPadding(Trims(ps))
    decreases |ps|
  {
    if ps != [] {
      TrimToken(ps[0]);
      TrimsTokens(ps[1..], if ps[0].Lit? then buffer + [ps[0].c] else []);
      assert Trims(ps)[1..] == Trims(ps[1..]);
      assert forall p :: p in Trims(ps) ==> p == Trim(ps[0]) || p in Trims(ps[1..]);
    }
  }

  lemma {:induction false} PrintIsTrims(ps: seq<Piece>)
    requires Tokens(ps, []).Ok?
    ensures Print(Tokens(ps, []).value) == SourceOf(Trims(ps))
  {
    TrimsTokens(ps, []);
    PrintOfTokens(Trims(ps), []);
    NothingBefore(SourceOf(Trims(ps)));
  }

  /** The first token starts with what is buffered. */
  lemma {:induction false} BufferFirst(ps: seq<Piece>, buffer: Text)
    requires buffer != [] && Tokens(ps, buffer).Ok?
    ensures Tokens(ps, buffer).value != [] && Tokens(ps, buffer).value[0].T? &&
      buffer <= Tokens(ps, buffer).value[0].text
    decreases |ps|
  {
    if ps != [] && ps[0].Lit? {
      BufferFirst(ps[1..], buffer + [ps[0].c]);
    }
  }

  lemma {:induction false} TokenKind(p: Piece)
    ensures !p.Lit? && TokenOf(p).Ok? ==> !TokenOf(p).value.T?
  {
  }

  /** A line that goes on with a character and one that goes on with a construct never scan alike. */
  lemma {:induction false} LiteralOrConstruct(ps: seq<Piece>, qs: seq<Piece>, buffer: Text)
    requires ps != [] && ps[0].Lit? && qs != [] && !qs[0].Lit? && Tokens(ps, buffer).Ok?
    ensures Tokens(qs, buffer) != Tokens(ps, buffer)
  {
    BufferFirst(ps[1..], buffer + [ps[0].c]);
    var first := Tokens(ps, buffer).value[0];
    if Tokens(qs, buffer).Ok? {
      TokenKind(qs[0]);
      var t := Tokens(qs, buffer).value[0];
      assert if buffer == [] then !t.T? else t == T(buffer);
    }
  }

  // ---------- The theorem ----------

  /** The pieces are those of their own source. */
  ghost predicate Stable(ps: seq<Piece>) { ps == Pieces(SourceOf(ps)) }

  lemma {:induction false} StableSides(ps: seq<Piece>)
    requires Stable(ps) && ps != []
    ensures Stable(ps[1..]) && PieceOk(ps[0]) && Front(Source(ps[0]) + SourceOf(ps[1..])) == (ps[0], SourceOf(ps[1..]))
  {
    var s := SourceOf(ps);
    FrontWas(s);
    PiecesTile(Front(s).1);
    assert ([Front(s).0] + Pieces(Front(s).1))[1..] == Pieces(Front(s).1);
  }

  lemma {:induction false} PiecesByFront(s: Text, p: Piece, rest: Text)
    requires s != [] && Front(s) == (p, rest)
    ensures Pieces(s) == [p] + Pieces(rest)
  {
  }

  lemma {:induction false} ExtendsInjective(front: seq<Inline>, x: Outcome<seq<Inline>>, y: Outcome<seq<Inline>>)
    ensures Extends(front, x) == Extends(front, y) <==> x == y
  {
    if x.Ok? && y.Ok? {
      assert (front + x.value)[|front|..] == x.value && (front + y.value)[|front|..] == y.value;
    }
  }

  lemma {:induction false} RescanConstruct(p: Piece, ps: seq<Piece>, b: Text, buffer: Text)
    requires !p.Lit? && PieceOk(p) && (p.Link? ==> Strip(p.caption) != []) && Tokens([p] + ps, buffer).Ok?
    ensures Tokens(Pieces(Source(Trim(p)) + b), buffer) == Tokens([p] + ps, buffer) <==>
      Tokens(Pieces(b), []) == Tokens(ps, [])
  {
    TrimOk(p);
    TrimToken(p);
    FrontIs(Trim(p), b);
    PiecesByFront(Source(Trim(p)) + b, Trim(p), b);
    assert ([p] + ps)[1..] == ps && ([Trim(p)] + Pieces(b))[1..] == Pieces(b);
    ExtendsInjective(Flushed(buffer) + [TokenOf(p).value], Tokens(Pieces(b), []), Tokens(ps, []));
  }

  /** The printed pieces scan to the same tokens exactly when no character is woken. */
  lemma {:induction false} TrimsRescan(ps: seq<Piece>, buffer: Text)
    requires Stable(ps) && Labelled(ps) && Tokens(ps, buffer).Ok?
    ensures Tokens(Pieces(SourceOf(Trims(ps))), buffer) == Tokens(ps, buffer) <==> !SomeWakes(ps)
    decreases |ps|
  {
    if ps != [] {
      StableSides(ps);
      LabelledTail(ps);
      TrimsCons(ps);
      if ps[0].Lit? {
        RescanLiteral(ps, buffer);
      } else {
        TrimsRescan(ps[1..], []);
        RescanConstruct(ps[0], ps[1..], SourceOf(Trims(ps[1..])), buffer);
      }
    }
  }

  lemma {:induction false} RescanLiteral(ps: seq<Piece>, buffer: Text)
    requires Stable(ps) && Labelled(ps) && Tokens(ps, buffer).Ok? && ps != [] && ps[0].Lit?
    ensures Tokens(Pieces(SourceOf(Trims(ps))), buffer) == Tokens(ps, buffer) <==> !SomeWakes(ps)
    decreases |ps|, 0
  {
    var c, b := ps[0].c, SourceOf(Trims(ps[1..]));
    var qs := Pieces([c] + b);
    StableSides(ps);
    LabelledTail(ps);
    TrimsCons(ps);
    LiteralStays(c, ps[1..]);
    PiecesByFront([c] + b, Front([c] + b).0, Front([c] + b).1);
    if Wakes(c, [], ps[1..]) {
      LiteralOrConstruct(ps, qs, buffer);
    } else {
      FrontByFirst(c, b);
      assert qs[1..] == Pieces(b);
      TrimsRescan(ps[1..], buffer + [c]);
    }
  }

  /** Scanning what an accepted line prints as gives its tokens back exactly when no label, once
      stripped, ends a construct that a literal character before it opens. */
  lemma {:induction false} ReparseExact(s: Text)
    requires Scan(s).Ok?
    ensures Scan(Print(Scan(s).value)) == Scan(s) <==> !SomeWakes(Pieces(s))
  {
    var ps := Pieces(s);
    PiecesTile(s);
    OkIsLabelled(ps, []);
    PrintIsTrims(ps);
    TrimsRescan(ps, []);
  }

  lemma {:induction false} PaddedWakes(c: int, text: Text, ps: seq<Piece>)
    requires NoPadding(ps)
    ensures !Wakes(c, text, ps)
    decreases |ps|
  {
    if ps != [] {
      assert ps[0] in ps && forall p :: p in ps[1..] ==> p in ps;
      PaddedWakes(c, text + Source(Trim(ps[0])), ps[1..]);
    }
  }

  lemma {:induction false} NoneWakes(ps: seq<Piece>)
    requires NoPadding(ps)
    ensures !SomeWakes(ps)
  {
    if ps != [] {
      assert forall p :: p in ps[1..] ==> p in ps;
      if ps[0].Lit? { PaddedWakes(ps[0].c, [], ps[1..]); }
      NoneWakes(ps[1..]);
    }
  }

  /** In particular every accepted line without a padded label does. */
  lemma {:induction false} UnpaddedReparses(s: Text)
    requires Scan(s).Ok? && NoPadding(Pieces(s))
    ensures Scan(Print(Scan(s).value)) == Scan(s)
  {
    ReparseExact(s);
    NoneWakes(Pieces(s));
  }

  // ---------- Lines that are woken ----------

  lemma {:induction false} OneLink(p: Piece)
    requires !p.Lit? && PieceOk(p)
    ensures Pieces(Source(p)) == [p]
  {
    assert Source(p) + [] == Source(p);
    FrontIs(p, []);
    PiecesByFront(Source(p), p, []);
    assert Pieces([]) == [];
  }

  lemma {:induction false} OneLiteral(c: int, a: Text)
    requires Front([c] + a).0.Lit?
    ensures Pieces([c] + a) == [Lit(c)] + Pieces(a)
  {
    FrontByFirst(c, a);
    PiecesByFront([c] + a, Lit(c), a);
  }

  function Lits(s: Text): seq<Piece> {
    if s == [] then [] else [Lit(s[0])] + Lits(s[1..])
  }

  predicate IsPlain(c: int) { c != STAR && c != OPEN && c != TICK }

  lemma {:induction false} PlainPieces(s: Text, rest: Text)
    requires forall c :: c in s ==> IsPlain(c)
    ensures Pieces(s + rest) == Lits(s) + Pieces(rest)
  {
    if s == [] {
      assert s + rest == rest;
    } else {
      assert s[0] in s && forall c :: c in s[1..] ==> c in s;
      FrontByFirst(s[0], s[1..] + rest);
      OneLiteral(s[0], s[1..] + rest);
      Uncons(s, rest);
      PlainPieces(s[1..], rest);
      Regroup([Lit(s[0])], Lits(s[1..]), Pieces(rest));
    }
  }

  lemma {:induction false} PlainTokens(s: Text, ps: seq<Piece>, buffer: Text)
    ensures Tokens(Lits(s) + ps, buffer) == Tokens(ps, buffer + s)
  {
    if s == [] {
      assert Lits(s) + ps == ps && buffer + s == buffer;
    } else {
      PlainTokens(s[1..], ps, buffer + [s[0]]);
      assert Lits(s) + ps == [Lit(s[0])] + (Lits(s[1..]) + ps);
      assert ([Lit(s[0])] + (Lits(s[1..]) + ps))[1..] == Lits(s[1..]) + ps;
      assert buffer + [s[0]] + s[1..] == buffer + s;
    }
  }

  lemma {:induction false} PlainWakes(c: int, text: Text, s: Text, ps: seq<Piece>)
    requires Wakes(c, text + s, ps)
    ensures Wakes(c, text, Lits(s) + ps)
    decreases |s|
  {
    if s == [] {
      assert Lits(s) + ps == ps && text + s == text;
    } else {
      assert text + [s[0]] + s[1..] == text + s;
      PlainWakes(c, text + [s[0]], s[1..], ps);
      assert Lits(s) + ps == [Lit(s[0])] + (Lits(s[1..]) + ps);
      assert ([Lit(s[0])] + (Lits(s[1..]) + ps))[1..] == Lits(s[1..]) + ps;
    }
  }

  lemma {:induction false} TokensOfLink(buffer: Text, p: Piece)
    requires !p.Lit? && TokenOf(p).Ok?
    ensures Tokens([p], buffer) == Ok(Flushed(buffer) + [TokenOf(p).value])
  {
    var none: seq<Piece> := [];
    assert [p][1..] == none && Tokens(none, []) == Ok([]);
    assert Flushed(buffer) + [TokenOf(p).value] + [] == Flushed(buffer) + [TokenOf(p).value];
  }

  /** The pieces of a line of one literal, plain text and a link. */
  function OneLine(c: int, between: Text, p: Piece): seq<Piece> {
    [Lit(c)] + (Lits(between) + [p])
  }

  lemma {:induction false} OneLineSides(c: int, between: Text, p: Piece)
    ensures OneLine(c, between, p)[0] == Lit(c) && OneLine(c, between, p)[1..] == Lits(between) + [p]
  {
  }

  lemma {:induction false} OneLinePieces(c: int, between: Text, p: Piece)
    requires (forall x :: x in between ==> IsPlain(x)) && !p.Lit? && PieceOk(p)
    requires Front([c] + (between + Source(p))).0.Lit?
    ensures Pieces([c] + (between + Source(p))) == OneLine(c, between, p)
  {
    OneLiteral(c, between + Source(p));
    PlainPieces(between, Source(p));
    OneLink(p);
  }

  lemma {:induction false} OneLineTokens(c: int, between: Text, p: Piece)
    requires !p.Lit? && TokenOf(p).Ok?
    ensures Tokens(OneLine(c, between, p), []) == Ok([T([c] + between), TokenOf(p).value])
  {
    OneLineSides(c, between, p);
    NothingBefore([c]);
    PlainTokens(between, [p], [c]);
    TokensOfLink([c] + between, p);
    assert [T([c] + between)] + [TokenOf(p).value] == [T([c] + between), TokenOf(p).value];
  }

  lemma {:induction false} OneLineWakes(c: int, between: Text, p: Piece)
    requires WakesHere(c, between, p)
    ensures SomeWakes(OneLine(c, between, p))
  {
    OneLineSides(c, between, p);
    NothingBefore(between);
    assert Wakes(c, between, [p]);
    PlainWakes(c, [], between, [p]);
  }

  /** A line of one literal, plain text and a link, whose label wakes the literal. */
  lemma {:induction false} OneWoken(c: int, between: Text, p: Piece, s: Text)
    requires (forall x :: x in between ==> IsPlain(x)) && PieceOk(p) && TokenOf(p).Ok? && WakesHere(c, between, p)
    requires s == [c] + (between + Source(p)) && Front(s).0.Lit?
    ensures Scan(s) == Ok([T([c] + between), TokenOf(p).value])
    ensures Scan(Print(Scan(s).value)) != Scan(s)
  {
    OneLinePieces(c, between, p);
    OneLineTokens(c, between, p);
    OneLineWakes(c, between, p);
    ReparseExact(s);
  }

  lemma {:induction false} SpaceBefore(name: Text, url: Text)
    requires name != [] && Unpadded(name)
    ensures Strip([0x20] + name) == name && LinkToken([0x20] + name, url) == LinkToken(name, url)
  {
    var s := [0x20] + name;
    assert s[|s| - 1] == name[|name| - 1];
    assert Rstrip(s) == s && s[1..] == name && Lstrip(name) == name;
    assert Rstrip(name) == name;
  }

  /** A star with `[ ` and a star behind it is just a star: the italics would be padded. */
  lemma {:induction false} PaddedStar(rest: Text)
    ensures Front([STAR] + ([OPEN, 0x20] + ([STAR] + rest))).0.Lit?
  {
    var content: Text := [OPEN, 0x20];
    var s := [STAR] + (content + ([STAR] + rest));
    FrontByFirst(STAR, content + ([STAR] + rest));
    SpanUnique(content, [STAR] + rest, NotStar);
    StripShape(content);
    assert s[1..] == content + ([STAR] + rest) && s[1] == OPEN && content[1] == 0x20;
  }

  lemma {:induction false} SpacedSource(name: Text, url: Text)
    ensures [OPEN, 0x20] + (name + [CLOSE] + Target(url)) == Source(Link([0x20] + name, url))
  {
    LinkParts([], [0x20] + name, [], url);
    Regroup([0x20], name, [CLOSE]);
    assert [OPEN, 0x20] == [OPEN] + [0x20];
    Regroup([OPEN], [0x20], name + [CLOSE]);
    Regroup([OPEN, 0x20], name + [CLOSE], Target(url));
  }

  lemma {:induction false} SpacedLink(name: Text, url: Text)
    requires PieceOk(Link(name, url)) && Unpadded(name)
    ensures PieceOk(Link([0x20] + name, url)) && LinkToken([0x20] + name, url) == LinkToken(name, url)
    ensures [OPEN, 0x20] + (name + [CLOSE] + Target(url)) == Source(Link([0x20] + name, url))
  {
    assert forall c :: c in [0x20] + name ==> c == 0x20 || c in name;
    SpaceBefore(name, url);
    SpacedSource(name, url);
  }

  lemma {:induction false} SpacedWakes(c: int, between: Text, name: Text, url: Text)
    requires name != [] && Unpadded(name) && Opens(c, between + [OPEN], name)
    ensures WakesHere(c, between, Link([0x20] + name, url))
  {
    SpaceBefore(name, url);
    assert ([0x20] + name)[0] == 0x20;
  }

  lemma {:induction false} PaddedFront(name: Text, url: Text)
    requires PieceOk(Link(name, url)) && Unpadded(name) && name[0] == STAR
    ensures Front([STAR] + Source(Link([0x20] + name, url))).0.Lit?
  {
    SpacedLink(name, url);
    PaddedStar(name[1..] + [CLOSE] + Target(url));
    Uncons(name, [CLOSE]);
    Regroup([STAR], name[1..] + [CLOSE], Target(url));
  }

  /** `*[ *..](..)` prints as `*[*..](..)`, which reads as italics: with a padded label the printed
      tokens can mean something else. */
  lemma {:induction false} PaddedReparses(name: Text, url: Text, s: Text)
    requires PieceOk(Link(name, url)) && LinkToken(name, url).Ok? && Unpadded(name) && name[0] == STAR
    requires s == [STAR] + Source(Link([0x20] + name, url))
    ensures Scan(s) == Ok([T([STAR]), LinkToken(name, url).value])
    ensures Scan(Print(Scan(s).value)) != Scan(s)
  {
    var nothing: Text := [];
    SpacedLink(name, url);
    PaddedFront(name, url);
    NothingBefore(Source(Link([0x20] + name, url)));
    NothingBefore([OPEN]);
    assert STAR !in [OPEN] && [STAR] + nothing == [STAR];
    SpacedWakes(STAR, nothing, name, url);
    OneWoken(STAR, nothing, Link([0x20] + name, url), s);
  }

  lemma {:induction false} BracketedFront(caption: Text, path: Text, rest: Text)
    requires Over(caption, IsLabelChar) && forall c :: c in path ==> IsUrlChar(c)
    ensures Front([OPEN] + (caption + [CLOSE, LEFT] + path + ([OPEN, 0x20] + rest))).0.Lit?
  {
    var url, more := path + [OPEN], [0x20] + rest;
    var after := [CLOSE, LEFT] + (url + more);
    var a := caption + [CLOSE, LEFT] + path + ([OPEN, 0x20] + rest);
    assert a == caption + after;
    SpanUnique(caption, after, IsLabelChar);
    SpanUnique(url, more, IsUrlChar);
    assert after[2..] == url + more;
    FrontByFirst(OPEN, a);
    assert ([OPEN] + a)[1..] == a;
  }

  lemma {:induction false} BracketedOpens(caption: Text, path: Text, name: Text, v: Text)
    requires Over(caption, IsLabelChar) && forall c :: c in caption ==> IsPlain(c)
    requires Over(path + v, IsUrlChar) && forall c :: c in path ==> IsPlain(c)
    requires v + [RIGHT] <= name
    ensures name != [] && Opens(OPEN, caption + [CLOSE, LEFT] + path + [OPEN], name)
    ensures forall c :: c in caption + [CLOSE, LEFT] + path ==> IsPlain(c)
  {
    Regroup(caption + [CLOSE, LEFT], path, [OPEN]);
    assert forall c :: c in path + [OPEN] + v ==> c == OPEN || c in path + v;
    LinkOpens(caption + [CLOSE, LEFT] + path, name, caption, path + [OPEN], v);
  }

  /** `[..](..[ ..)..](..)` prints as `[..](..[..)..](..)`, whose first bracket has become a link: no
      star is needed. */
  lemma {:induction false} BracketedReparses(caption: Text, path: Text, name: Text, v: Text, url: Text, s: Text)
    requires Over(caption, IsLabelChar) && forall c :: c in caption ==> IsPlain(c)
    requires Over(path + v, IsUrlChar) && forall c :: c in path ==> IsPlain(c)
    requires PieceOk(Link(name, url)) && LinkToken(name, url).Ok? && Unpadded(name) && v + [RIGHT] <= name
    requires s == [OPEN] + (caption + [CLOSE, LEFT] + path + Source(Link([0x20] + name, url)))
    ensures Scan(s).Ok? && Scan(Print(Scan(s).value)) != Scan(s)
  {
    SpacedLink(name, url);
    BracketedFront(caption, path, name + [CLOSE] + Target(url));
    BracketedOpens(caption, path, name, v);
    SpacedWakes(OPEN, caption + [CLOSE, LEFT] + path, name, url);
    OneWoken(OPEN, caption + [CLOSE, LEFT] + path, Link([0x20] + name, url), s);
  }
}
