/** Printed pieces (announcements/markdown.tsx, `inline`): what stripping the labels of links changes,
    and where a cut of the printed text falls in the source. */
module AnnouncePadding {
  import opened Prelude
  import opened AnnounceText
  import opened AnnounceInline

  // ---------- The printed pieces ----------

  /** A link prints with its label stripped, everything else as it stands. */
  function Trim(p: Piece): Piece {
    if p.Link? then Link(Strip(p.caption), p.url) else p
  }

  function Trims(ps: seq<Piece>): seq<Piece> {
    if ps == [] then [] else [Trim(ps[0])] + Trims(ps[1..])
  }

  /** Every piece is well-formed, and every link has a label. */
  ghost predicate Labelled(ps: seq<Piece>) {
    forall p :: p in ps ==> PieceOk(p) && (p.Link? ==> Strip(p.caption) != [])
  }

  // ---------- Stripping, in parts ----------

  predicate AllSpace(s: Text) {
    forall c :: c in s ==> IsSpace(c)
  }

  lemma {:induction false} LstripPart(s: Text) returns (left: Text)
    ensures s == left + Lstrip(s) && AllSpace(left)
  {
    left := [];
    if s != [] && IsSpace(s[0]) {
      left := LstripPart(s[1..]);
      assert s == [s[0]] + s[1..];
      left := [s[0]] + left;
    }
  }

  lemma {:induction false} RstripPart(s: Text) returns (right: Text)
    ensures s == Rstrip(s) + right && AllSpace(right)
  {
    right := [];
    if s != [] && IsSpace(s[|s| - 1]) {
      right := RstripPart(s[..|s| - 1]);
      assert s == s[..|s| - 1] + [s[|s| - 1]];
      right := right + [s[|s| - 1]];
    }
  }

  lemma {:induction false} StripParts(s: Text) returns (left: Text, right: Text)
    requires Strip(s) != []
    ensures s == left + Strip(s) + right && AllSpace(left) && AllSpace(right)
    ensures s != [] && (left != [] <==> IsSpace(s[0]))
    ensures Unpadded(Strip(s))
  {
    right := RstripPart(s);
    left := LstripPart(Rstrip(s));
    StripShape(s);
    if left != [] { assert left[0] in left && s[0] == left[0]; }
  }

  lemma {:induction false} TrimOk(p: Piece)
    requires PieceOk(p) && (p.Link? ==> Strip(p.caption) != [])
    ensures PieceOk(Trim(p))
    ensures p.Link? ==> Unpadded(Trim(p).caption) && Trim(p).caption != []
  {
    if p.Link? {
      var left, right := StripParts(p.caption);
      forall c | c in Strip(p.caption) ensures IsLabelChar(c) { assert c in p.caption; }
    }
  }

  // ---------- What stripping a label leaves alone ----------

  /** What the scan sees of a text besides white space: how it starts, where stars and ticks are. */
  datatype Profile =
    | Blank
    | Marks(first: int, oneStar: bool, startsPair: bool, star: bool, pair: bool, endsStar: bool, tick: bool)
  {
    /** The profile of the text followed by another. */
    function Then(b: Profile): Profile {
      if Blank? then b
      else if b.Blank? then this
      else Marks(first, false, startsPair || (oneStar && b.first == STAR), star || b.star,
                 pair || b.pair || (endsStar && b.first == STAR), b.endsStar, tick || b.tick)
    }
  }

  ghost predicate HasPair(s: Text) {
    exists i :: 0 < i < |s| && s[i - 1] == STAR && s[i] == STAR
  }

  ghost function ProfileOf(s: Text): Profile {
    if s == [] then Blank
    else Marks(s[0], s == [STAR], |s| > 1 && s[0] == STAR && s[1] == STAR, STAR in s,
               HasPair(s), s[|s| - 1] == STAR, TICK in s)
  }

  lemma {:induction false} PairOfJoin(a: Text, b: Text)
    requires a != [] && b != []
    ensures HasPair(a + b) <==> HasPair(a) || HasPair(b) || (a[|a| - 1] == STAR && b[0] == STAR)
  {
    var s := a + b;
    if HasPair(s) {
      var i :| 0 < i < |s| && s[i - 1] == STAR && s[i] == STAR;
      assert i > |a| ==> b[i - 1 - |a|] == STAR && b[i - |a|] == STAR;
    }
    if HasPair(a) {
      var i :| 0 < i < |a| && a[i - 1] == STAR && a[i] == STAR;
      assert s[i - 1] == STAR && s[i] == STAR;
    }
    if HasPair(b) {
      var i :| 0 < i < |b| && b[i - 1] == STAR && b[i] == STAR;
      assert s[|a| + i - 1] == STAR && s[|a| + i] == STAR;
    }
    if a[|a| - 1] == STAR && b[0] == STAR {
      assert s[|a| - 1] == STAR && s[|a|] == STAR;
    }
  }

  lemma {:induction false} ProfileJoins(a: Text, b: Text)
    ensures ProfileOf(a + b) == ProfileOf(a).Then(ProfileOf(b))
  {
    if a == [] {
      assert a + b == b;
    } else if b == [] {
      assert a + b == a;
    } else {
      PairOfJoin(a, b);
      assert a + b == [STAR] ==> |a + b| == 1;
    }
  }

  lemma {:induction false} SpaceProfile(s: Text)
    requires AllSpace(s)
    ensures ProfileOf(s) == if s == [] then Blank else Marks(s[0], false, false, false, false, false, false)
    ensures s != [] ==> IsSpace(s[0])
  {
    assert !IsSpace(STAR) && !IsSpace(TICK);
    if s != [] {
      assert s[0] in s && s[|s| - 1] in s && forall i :: 0 <= i < |s| ==> s[i] in s;
    }
  }

  lemma {:induction false} OneProfile(c: int)
    requires c != STAR && c != TICK
    ensures ProfileOf([c]) == Marks(c, false, false, false, false, false, false)
  {
  }

  /** White space after an opening bracket does not show. */
  lemma {:induction false} PadLeft(left: Text)
    requires AllSpace(left)
    ensures ProfileOf([OPEN] + left) == ProfileOf([OPEN])
  {
    SpaceProfile(left);
    OneProfile(OPEN);
    ProfileJoins([OPEN], left);
  }

  /** Nor does it before a closing one. */
  lemma {:induction false} PadRight(s: Text, right: Text)
    requires s != [] && AllSpace(right)
    ensures ProfileOf(s + right + [CLOSE]) == ProfileOf(s + [CLOSE])
  {
    SpaceProfile(right);
    OneProfile(CLOSE);
    ProfileJoins(s + right, [CLOSE]);
    ProfileJoins(s, right);
    ProfileJoins(s, [CLOSE]);
  }

  predicate SameEnd(a: Text, b: Text) {
    (a == [] <==> b == []) && (a != [] ==> a[|a| - 1] == b[|b| - 1])
  }

  lemma {:induction false} ProfileOfSum(a: Text, a': Text, b: Text, b': Text)
    requires ProfileOf(a) == ProfileOf(a') && ProfileOf(b) == ProfileOf(b')
    ensures ProfileOf(a + b) == ProfileOf(a' + b')
  {
    ProfileJoins(a, b);
    ProfileJoins(a', b');
  }

  lemma {:induction false} EndOfSum(a: Text, a': Text, b: Text, b': Text)
    requires SameEnd(a, a') && SameEnd(b, b')
    ensures SameEnd(a + b, a' + b')
  {
  }

  // ---------- Links, in parts ----------

  /** The source of a link from its closing bracket on, and after it. */
  function Target(url: Text): Text { [LEFT] + url + [RIGHT] }

  lemma {:induction false} LinkTarget(caption: Text, url: Text)
    ensures Source(Link(caption, url)) == [OPEN] + caption + [CLOSE] + Target(url)
  {
    var front := [OPEN] + caption;
    assert [CLOSE, LEFT] == [CLOSE] + [LEFT];
    Regroup(front, [CLOSE], [LEFT]);
    Regroup(front + [CLOSE], [LEFT], url);
    Regroup(front + [CLOSE], [LEFT] + url, [RIGHT]);
  }

  lemma {:induction false} LinkParts(left: Text, name: Text, right: Text, url: Text)
    ensures Source(Link(left + name + right, url)) == [OPEN] + left + (name + right + [CLOSE]) + Target(url)
    ensures Source(Link(name, url)) == [OPEN] + (name + [CLOSE]) + Target(url)
  {
    LinkTarget(left + name + right, url);
    LinkTarget(name, url);
    Regroup(left, name, right);
    Regroup([OPEN], left, name + right);
    Regroup([OPEN] + left, name + right, [CLOSE]);
    Regroup([OPEN], name, [CLOSE]);
  }

  lemma {:induction false} LinkProfile(left: Text, name: Text, right: Text, url: Text)
    requires name != [] && AllSpace(left) && AllSpace(right)
    ensures ProfileOf(Source(Link(left + name + right, url))) == ProfileOf(Source(Link(name, url)))
  {
    LinkParts(left, name, right, url);
    PadLeft(left);
    PadRight(name, right);
    ProfileOfSum([OPEN] + left, [OPEN], name + right + [CLOSE], name + [CLOSE]);
    ProfileOfSum([OPEN] + left + (name + right + [CLOSE]), [OPEN] + (name + [CLOSE]), Target(url), Target(url));
  }

  lemma {:induction false} TrimProfile(p: Piece)
    requires p.Link? ==> Strip(p.caption) != []
    ensures ProfileOf(Source(p)) == ProfileOf(Source(Trim(p)))
    ensures SameEnd(Source(p), Source(Trim(p))) && Source(p) != []
  {
    if p.Link? {
      var left, right := StripParts(p.caption);
      LinkProfile(left, Strip(p.caption), right, p.url);
    }
  }

  lemma {:induction false} TrimsProfile(ps: seq<Piece>)
    requires Labelled(ps)
    ensures ProfileOf(SourceOf(ps)) == ProfileOf(SourceOf(Trims(ps)))
  {
    if ps != [] {
      assert ps[0] in ps && forall p :: p in ps[1..] ==> p in ps;
      TrimsProfile(ps[1..]);
      TrimProfile(ps[0]);
      assert Trims(ps)[1..] == Trims(ps[1..]);
      ProfileOfSum(Source(ps[0]), Source(Trim(ps[0])), SourceOf(ps[1..]), SourceOf(Trims(ps[1..])));
    }
  }

  // ---------- Cutting at a star ----------

  /** `a` falls into two parts that look like `front` and `back`. */
  ghost predicate CutsLike(a: Text, a1: Text, a2: Text, front: Text, back: Text) {
    a == a1 + a2 && ProfileOf(a1) == ProfileOf(front) && ProfileOf(a2) == ProfileOf(back)
  }

  lemma {:induction false} CutInLabel(left: Text, x: Text, y: Text, right: Text, url: Text)
    requires y != [] && AllSpace(left) && AllSpace(right)
    ensures CutsLike(Source(Link(left + (x + y) + right, url)), [OPEN] + left + x, y + right + [CLOSE] + Target(url),
                     [OPEN] + x, y + [CLOSE] + Target(url))
  {
    LinkParts(left, x + y, right, url);
    PadLeft(left);
    PadRight(y, right);
    ProfileOfSum([OPEN] + left, [OPEN], x, x);
    ProfileOfSum(y + right + [CLOSE], y + [CLOSE], Target(url), Target(url));
  }

  lemma {:induction false} CutInTarget(left: Text, name: Text, right: Text, url: Text, x: Text, y: Text)
    requires name != [] && AllSpace(left) && AllSpace(right) && Target(url) == x + y
    ensures CutsLike(Source(Link(left + name + right, url)), [OPEN] + left + (name + right + [CLOSE]) + x, y,
                     [OPEN] + (name + [CLOSE]) + x, y)
  {
    LinkParts(left, name, right, url);
    Regroup([OPEN] + left + (name + right + [CLOSE]), x, y);
    PadLeft(left);
    PadRight(name, right);
    ProfileOfSum([OPEN] + left, [OPEN], name + right + [CLOSE], name + [CLOSE]);
    ProfileOfSum([OPEN] + left + (name + right + [CLOSE]), [OPEN] + (name + [CLOSE]), x, x);
  }

  lemma {:induction false} StarInLink(name: Text, url: Text, k: nat)
    requires k < |Source(Link(name, url))| && Source(Link(name, url))[k] == STAR
    ensures 0 < k && k != 1 + |name|
  {
  }

  lemma {:induction false} LabelSides(name: Text, url: Text, front: Text, back: Text) returns (x: Text, y: Text)
    requires Source(Link(name, url)) == front + back && 0 < |front| <= |name|
    ensures name == x + y && y != [] && front == [OPEN] + x && back == y + [CLOSE] + Target(url)
    ensures x == [] ==> name + [CLOSE] <= back
  {
    var s := front + back;
    x, y := name[..|front| - 1], name[|front| - 1..];
    assert s == [OPEN] + x + (y + [CLOSE] + Target(url));
    assert front == s[..|front|] == [OPEN] + x;
    assert back == s[|front|..] == y + [CLOSE] + Target(url);
  }

  lemma {:induction false} LabelEnd(left: Text, x: Text)
    ensures SameEnd([OPEN] + left + x, [OPEN] + x) || (left != [] && x == [] && [OPEN] + x == [OPEN])
  {
  }

  lemma {:induction false} InLabel(left: Text, name: Text, right: Text, url: Text, front: Text, back: Text)
    returns (a1: Text, a2: Text)
    requires AllSpace(left) && AllSpace(right) && Source(Link(name, url)) == front + back && 0 < |front| <= |name|
    ensures CutsLike(Source(Link(left + name + right, url)), a1, a2, front, back)
    ensures SameEnd(a1, front) || (left != [] && front == [OPEN] && name + [CLOSE] <= back)
  {
    var x, y := LabelSides(name, url, front, back);
    CutInLabel(left, x, y, right, url);
    a1, a2 := [OPEN] + left + x, y + right + [CLOSE] + Target(url);
    LabelEnd(left, x);
  }

  lemma {:induction false} TargetSides(name: Text, url: Text, front: Text, back: Text) returns (x: Text, y: Text)
    requires Source(Link(name, url)) == front + back && 2 + |name| <= |front|
    ensures Target(url) == x + y && front == [OPEN] + (name + [CLOSE]) + x && back == y
  {
    var s := front + back;
    var head := [OPEN] + (name + [CLOSE]);
    assert s == head + Target(url);
    x, y := Target(url)[..|front| - |head|], back;
    assert front == s[..|front|] == head + x;
    assert Target(url) == s[|head|..] == x + y;
  }

  lemma {:induction false} InTarget(left: Text, name: Text, right: Text, url: Text, front: Text, back: Text)
    returns (a1: Text, a2: Text)
    requires name != [] && AllSpace(left) && AllSpace(right)
    requires Source(Link(name, url)) == front + back && 2 + |name| <= |front|
    ensures CutsLike(Source(Link(left + name + right, url)), a1, a2, front, back) && SameEnd(a1, front)
  {
    var x, y := TargetSides(name, url, front, back);
    CutInTarget(left, name, right, url, x, y);
    a1, a2 := [OPEN] + left + (name + right + [CLOSE]) + x, y;
    EndOfSum([OPEN] + left + (name + right + [CLOSE]), [OPEN] + (name + [CLOSE]), x, x);
  }

  lemma {:induction false} CutLink(caption: Text, url: Text, front: Text, back: Text) returns (a1: Text, a2: Text)
    requires Strip(caption) != [] && Source(Link(Strip(caption), url)) == front + back && back != [] && back[0] == STAR
    ensures CutsLike(Source(Link(caption, url)), a1, a2, front, back)
    ensures SameEnd(a1, front) ||
      (caption != [] && IsSpace(caption[0]) && front == [OPEN] && Strip(caption) + [CLOSE] <= back)
  {
    var left, right := StripParts(caption);
    var name := Strip(caption);
    assert (front + back)[|front|] == back[0];
    StarInLink(name, url, |front|);
    if |front| <= |name| {
      a1, a2 := InLabel(left, name, right, url, front, back);
    } else {
      a1, a2 := InTarget(left, name, right, url, front, back);
    }
  }

  /** A cut of the printed piece before a star is a cut of the piece itself. White space is lost at
      the cut only when the star starts the label. */
  lemma {:induction false} CutPiece(p: Piece, front: Text, back: Text) returns (a1: Text, a2: Text)
    requires PieceOk(p) && (p.Link? ==> Strip(p.caption) != [])
    requires Source(Trim(p)) == front + back && back != [] && back[0] == STAR
    ensures CutsLike(Source(p), a1, a2, front, back)
    ensures SameEnd(a1, front) ||
      (p.Link? && IsSpace(p.caption[0]) && front == [OPEN] && Strip(p.caption) + [CLOSE] <= back)
  {
    a1, a2 := front, back;
    if p.Link? {
      a1, a2 := CutLink(p.caption, p.url, front, back);
    }
  }

  ghost predicate AtLabelHere(text: Text, p: Piece, front: Text, back: Text) {
    && p.Link? && p.caption != [] && IsSpace(p.caption[0]) && Strip(p.caption) != []
    && front == text + [OPEN] && Strip(p.caption) + [CLOSE] <= back
  }

  /** `front` ends at the bracket of a link padded on the left, and `back` starts with its label. */
  ghost predicate AtLabel(text: Text, ps: seq<Piece>, front: Text, back: Text)
    decreases |ps|
  {
    && ps != []
    && (AtLabelHere(text, ps[0], front, back) || AtLabel(text + Source(Trim(ps[0])), ps[1..], front, back))
  }

  lemma {:induction false} LabelledTail(ps: seq<Piece>)
    requires Labelled(ps) && ps != []
    ensures Labelled(ps[1..]) && PieceOk(ps[0]) && (ps[0].Link? ==> Strip(ps[0].caption) != [])
  {
    assert ps[0] in ps && forall p :: p in ps[1..] ==> p in ps;
  }

  lemma {:induction false} TrimsCons(ps: seq<Piece>)
    requires ps != []
    ensures SourceOf(ps) == Source(ps[0]) + SourceOf(ps[1..])
    ensures SourceOf(Trims(ps)) == Source(Trim(ps[0])) + SourceOf(Trims(ps[1..]))
  {
    assert Trims(ps)[1..] == Trims(ps[1..]);
  }

  lemma {:induction false} PrefixOf(front: Text, back: Text, a: Text, b: Text)
    requires front + back == a + b && |a| <= |front|
    ensures a <= front && b == front[|a|..] + back
  {
    assert (front + back)[..|a|] == a && (front + back)[|a|..] == b;
  }

  lemma {:induction false} Sides(text: Text, b: Text, rest: Text, front: Text, back: Text) returns (x: Text, y: Text)
    requires text + (b + rest) == front + back && |text| <= |front| < |text| + |b|
    ensures b == x + y && front == text + x && back == y + rest && y != []
  {
    var s := front + back;
    var k := |front| - |text|;
    x, y := b[..k], b[k..];
    assert s == text + x + (y + rest);
    assert front == s[..|front|] == text + x;
    assert back == s[|front|..] == y + rest;
  }

  lemma {:induction false} CutsInside(source: Text, text: Text, a: Text, p1: Text, p2: Text, x: Text, y: Text,
      rest: Text, rest': Text)
    requires CutsLike(a, p1, p2, x, y) && ProfileOf(source) == ProfileOf(text) && ProfileOf(rest) == ProfileOf(rest')
    ensures CutsLike(source + (a + rest), source + p1, p2 + rest, text + x, y + rest')
  {
    ProfileOfSum(source, text, p1, x);
    ProfileOfSum(p2, y, rest, rest');
    Regroup(p1, p2, rest);
    Regroup(source, p1, p2 + rest);
  }

  lemma {:induction false} PrefixGrows(a: Text, b: Text, c: Text)
    requires a <= b
    ensures a <= b + c
  {
  }

  lemma {:induction false} CutHere(source: Text, text: Text, ps: seq<Piece>, front: Text, back: Text)
    returns (a1: Text, a2: Text)
    requires Labelled(ps) && ps != [] && ProfileOf(source) == ProfileOf(text) && SameEnd(source, text)
    requires text + SourceOf(Trims(ps)) == front + back && back != [] && back[0] == STAR
    requires |text| <= |front| < |text| + |Source(Trim(ps[0]))|
    ensures CutsLike(source + SourceOf(ps), a1, a2, front, back)
    ensures SameEnd(a1, front) || AtLabel(text, ps, front, back)
  {
    var rest, rest' := SourceOf(ps[1..]), SourceOf(Trims(ps[1..]));
    TrimsCons(ps);
    LabelledTail(ps);
    var x, y := Sides(text, Source(Trim(ps[0])), rest', front, back);
    var p1, p2 := CutPiece(ps[0], x, y);
    a1, a2 := source + p1, p2 + rest;
    TrimsProfile(ps[1..]);
    CutsInside(source, text, Source(ps[0]), p1, p2, x, y, rest, rest');
    if SameEnd(p1, x) {
      EndOfSum(source, text, p1, x);
    } else {
      PrefixGrows(Strip(ps[0].caption) + [CLOSE], y, rest');
      assert AtLabelHere(text, ps[0], front, back);
    }
  }

  /** A cut of printed text before a star, `text` being read, is a cut of the source. */
  lemma {:induction false} CutPast(source: Text, text: Text, ps: seq<Piece>, front: Text, back: Text)
    returns (a1: Text, a2: Text)
    requires Labelled(ps) && ProfileOf(source) == ProfileOf(text) && SameEnd(source, text)
    requires text + SourceOf(Trims(ps)) == front + back && |text| <= |front| && back != [] && back[0] == STAR
    ensures CutsLike(source + SourceOf(ps), a1, a2, front, back)
    ensures SameEnd(a1, front) || AtLabel(text, ps, front, back)
    decreases |ps|
  {
    PrefixOf(front, back, text, SourceOf(Trims(ps)));
    LabelledTail(ps);
    TrimsCons(ps);
    TrimProfile(ps[0]);
    var a, b := Source(ps[0]), Source(Trim(ps[0]));
    var rest, rest' := SourceOf(ps[1..]), SourceOf(Trims(ps[1..]));
    Regroup(source, a, rest);
    Regroup(text, b, rest');
    if |text| + |b| <= |front| {
      ProfileOfSum(source, text, a, b);
      EndOfSum(source, text, a, b);
      a1, a2 := CutPast(source + a, text + b, ps[1..], front, back);
    } else {
      a1, a2 := CutHere(source, text, ps, front, back);
    }
  }

  /** A cut of `text` and printed pieces before a star is a cut of `text` and their source. */
  lemma {:induction false} CutAtStar(text: Text, ps: seq<Piece>, front: Text, back: Text) returns (a1: Text, a2: Text)
    requires Labelled(ps) && text + SourceOf(Trims(ps)) == front + back && back != [] && back[0] == STAR
    ensures CutsLike(text + SourceOf(ps), a1, a2, front, back)
    ensures SameEnd(a1, front) || AtLabel(text, ps, front, back)
  {
    if |text| <= |front| {
      a1, a2 := CutPast(text, text, ps, front, back);
    } else {
      PrefixOf(text, SourceOf(Trims(ps)), front, back);
      var y := text[|front|..];
      a1, a2 := front, y + SourceOf(ps);
      TrimsProfile(ps);
      ProfileOfSum(y, y, SourceOf(ps), SourceOf(Trims(ps)));
      assert text == front + y;
      Regroup(front, y, SourceOf(ps));
    }
  }
}
