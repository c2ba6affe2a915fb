/** What the announcement grammar refuses, by the characters at the positions of the body
    (announcements/markdown.tsx, `rejectBody` and `rejectLines`). */
module AnnounceLetters {
  import opened Prelude
  import opened AnnounceText
  import opened AnnounceInline
  import opened AnnounceRules
  import opened AnnouncePatterns
  import Utf16

  // ---------- Characters at positions ----------

  predicate At(s: Text, i: int, c: char) {
    0 <= i < |s| && s[i] == c as int
  }

  /** The white space of Python, one by one. */
  predicate White(c: int) {
    c in {
      0x09, 0x0A, 0x0B, 0x0C, 0x0D, 0x1C, 0x1D, 0x1E, 0x1F, 0x20, 0x85, 0xA0, 0x1680,
      0x2000, 0x2001, 0x2002, 0x2003, 0x2004, 0x2005, 0x2006, 0x2007, 0x2008, 0x2009, 0x200A,
      0x2028, 0x2029, 0x202F, 0x205F, 0x3000}
  }

  predicate Letter(c: int) {
    'a' as int <= c <= 'z' as int || 'A' as int <= c <= 'Z' as int
  }

  predicate Digit(c: int) {
    '0' as int <= c <= '9' as int
  }

  lemma {:induction false} WhiteIs()
    ensures forall c :: White(c) <==> IsSpace(c)
  {
  }

  lemma {:induction false} AlnumIs()
    ensures forall c :: IsAlnum(c) <==> Letter(c) || Digit(c)
    ensures forall c :: IsLetter(c) <==> Letter(c)
  {
  }

  predicate WhiteRun(s: Text, i: nat, j: nat)
    requires j <= |s|
  {
    forall k :: i <= k < j ==> White(s[k])
  }

  predicate NameRun(s: Text, i: nat, j: nat)
    requires j <= |s|
  {
    forall k :: i <= k < j ==> Letter(s[k]) || Digit(s[k])
  }

  predicate RunOf(s: Text, i: nat, j: nat, c: char)
    requires j <= |s|
  {
    forall k :: i <= k < j ==> s[k] == c as int
  }

  lemma {:induction false} RunsAre(s: Text, i: nat, j: nat)
    requires i <= j <= |s|
    ensures All(s[i..j], IsSpace) <==> WhiteRun(s, i, j)
    ensures All(s[i..j], IsAlnum) <==> NameRun(s, i, j)
    ensures All(s[i..j], IsDash) <==> RunOf(s, i, j, '-')
    ensures All(s[i..j], IsHash) <==> RunOf(s, i, j, '#')
  {
    WhiteIs();
    AlnumIs();
    forall k | i <= k < j ensures s[k] in s[i..j] {
      assert s[i..j][k - i] == s[k];
    }
    forall c | c in s[i..j] ensures exists k :: i <= k < j && s[k] == c {
      var k :| 0 <= k < j - i && s[i..j][k] == c;
      assert s[i + k] == c;
    }
  }

  // ---------- Lines ----------

  /** A line of the body stands from `a` up to `b`. */
  predicate LineAt(md: Text, a: int, b: int) {
    && 0 <= a <= b <= |md|
    && (a == 0 || At(md, a - 1, '\n'))
    && (b == |md| || At(md, b, '\n'))
    && forall k :: a <= k < b ==> md[k] != '\n' as int
  }

  function Newlines(md: Text): nat {
    multiset(md)['\n' as int]
  }

  lemma {:induction false} SplitShape(md: Text)
    requires md != []
    ensures var rest := Split(md[1..], LINE_BREAK);
      Split(md, LINE_BREAK) == if md[0] == '\n' as int then [[]] + rest else [[md[0]] + rest[0]] + rest[1..]
  {
    assert LINE_BREAK <= md <==> md[0] == NEWLINE;
  }

  lemma {:induction false} NewlinesOn(md: Text, c: int, rest: Text)
    requires md == [c] + rest
    ensures Newlines(md) == Newlines(rest) + if c == '\n' as int then 1 else 0
  {
  }

  lemma {:induction false} LineCountOn(md: Text, rest: Text)
    requires md != [] && rest == md[1..] && |Split(rest, LINE_BREAK)| == Newlines(rest) + 1
    ensures |Split(md, LINE_BREAK)| == Newlines(md) + 1
  {
    SplitShape(md);
    FirstAndRest(md);
    NewlinesOn(md, md[0], rest);
  }

  /** There is one line more than there are line breaks. */
  lemma {:induction false} LineCount(md: Text)
    ensures |Split(md, LINE_BREAK)| == Newlines(md) + 1
    decreases |md|
  {
    if md != [] {
      LineCount(md[1..]);
      LineCountOn(md, md[1..]);
    }
  }

  lemma {:induction false} LineLater(md: Text, a: int, b: int)
    requires md != [] && 0 <= a
    ensures a > 0 ==> (LineAt(md[1..], a, b) <==> LineAt(md, a + 1, b + 1))
    ensures md[0] == '\n' as int ==> (LineAt(md[1..], 0, b) <==> LineAt(md, 1, b + 1))
    ensures md[0] != '\n' as int ==> (LineAt(md[1..], 0, b) <==> LineAt(md, 0, b + 1) && b >= 0)
  {
    var rest := md[1..];
    assert forall k :: 0 <= k < |rest| ==> rest[k] == md[k + 1];
    assert forall k :: 1 <= k < |md| ==> md[k] == rest[k - 1];
  }

  lemma {:induction false} FirstLineOn(md: Text, rest: Text, c: nat)
    requires md != [] && rest == md[1..] && md[0] != '\n' as int
    requires c <= |rest| && LineAt(rest, 0, c) && Split(rest, LINE_BREAK)[0] == rest[..c]
    ensures LineAt(md, 0, c + 1) && Split(md, LINE_BREAK)[0] == md[..c + 1]
  {
    SplitShape(md);
    LineLater(md, 0, c);
    assert [md[0]] + rest[..c] == md[..c + 1];
  }

  lemma {:induction false} NoFirstLine(md: Text)
    requires md == [] || md[0] == '\n' as int
    ensures LineAt(md, 0, 0) && Split(md, LINE_BREAK)[0] == md[..0]
  {
    if md != [] { SplitShape(md); }
  }

  lemma {:induction false} FirstLine(md: Text) returns (b: nat)
    ensures b <= |md| && LineAt(md, 0, b) && Split(md, LINE_BREAK)[0] == md[..b]
    decreases |md|
  {
    if md == [] || md[0] == '\n' as int {
      b := 0;
      NoFirstLine(md);
    } else {
      var c := FirstLine(md[1..]);
      FirstLineOn(md, md[1..], c);
      b := c + 1;
    }
  }

  predicate IsStretch(md: Text, line: Text, a: int, b: int) {
    LineAt(md, a, b) && md[a..b] == line
  }

  ghost predicate IsLine(md: Text, line: Text) {
    exists a, b :: IsStretch(md, line, a, b)
  }

  /** A later line: one that starts after a line break. */
  ghost predicate IsLater(md: Text, line: Text) {
    exists a, b :: a > 0 && IsStretch(md, line, a, b)
  }

  lemma {:induction false} StretchLater(md: Text, line: Text, a: int, b: int)
    requires md != [] && a >= 0 && (md[0] == '\n' as int || a > 0)
    ensures IsStretch(md[1..], line, a, b) <==> IsStretch(md, line, a + 1, b + 1)
  {
    LineLater(md, a, b);
    if LineAt(md[1..], a, b) { assert md[1..][a..b] == md[a + 1..b + 1]; }
  }

  lemma {:induction false} NoStretchAtOne(md: Text, line: Text, a: int, b: int)
    requires md != [] && a > 0 && IsStretch(md, line, a, b)
    ensures md[0] == '\n' as int || a > 1
  {
  }

  lemma {:induction false} LaterIs(md: Text, line: Text)
    requires md != []
    ensures IsLater(md, line) <==> if md[0] == '\n' as int then IsLine(md[1..], line) else IsLater(md[1..], line)
  {
    if a, b :| a > 0 && IsStretch(md, line, a, b) {
      NoStretchAtOne(md, line, a, b);
      StretchLater(md, line, a - 1, b - 1);
    }
    if a, b :| IsStretch(md[1..], line, a, b) && (md[0] == '\n' as int || a > 0) {
      StretchLater(md, line, a, b);
      assert a + 1 > 0 && IsStretch(md, line, a + 1, b + 1);
    }
  }

  lemma {:induction false} OneFirst(md: Text, b: int, c: int)
    requires LineAt(md, 0, b) && LineAt(md, 0, c)
    ensures b == c
  {
  }

  lemma {:induction false} LinesAreOn(md: Text, line: Text, lines: seq<Text>, b: nat)
    requires lines != [] && b <= |md| && lines[0] == md[..b] && LineAt(md, 0, b)
    requires line in lines[1..] <==> IsLater(md, line)
    ensures line in lines <==> IsLine(md, line)
  {
    assert lines == [lines[0]] + lines[1..];
    if line == lines[0] { assert IsStretch(md, line, 0, b); }
    if a, c :| IsStretch(md, line, a, c) {
      if a == 0 { OneFirst(md, b, c); } else { assert IsLater(md, line); }
    }
  }

  lemma {:induction false} LinesLater(md: Text, line: Text)
    ensures line in Split(md, LINE_BREAK)[1..] <==> IsLater(md, line)
  {
    if md != [] {
      SplitShape(md);
      LaterIs(md, line);
      var rest := Split(md[1..], LINE_BREAK);
      LinesLater(md[1..], line);
      var b := FirstLine(md[1..]);
      if md[0] == '\n' as int {
        LinesAreOn(md[1..], line, rest, b);
        assert ([[]] + rest)[1..] == rest;
      }
    }
  }

  /** Splitting at line breaks gives the stretches between them. */
  lemma {:induction false} LinesAre(md: Text, line: Text)
    ensures line in Split(md, LINE_BREAK) <==> IsLine(md, line)
  {
    LinesLater(md, line);
    var b := FirstLine(md);
    LinesAreOn(md, line, Split(md, LINE_BREAK), b);
  }

  // ---------- Anywhere in the body ----------

  ghost predicate Somewhere(md: Text, at: (Text, int) -> bool) {
    exists i :: 0 <= i < |md| && at(md, i)
  }

  lemma {:induction false} FoundSomewhere(md: Text, found: Text -> bool, at: (Text, int) -> bool)
    requires forall i :: 0 <= i < |md| ==> (found(md[i..]) <==> at(md, i))
    ensures Finds(md, found) <==> Somewhere(md, at)
  {
    FindsIs(md, found);
    if i: nat :| FoundAt(md, found, i) { assert at(md, i); }
    if i :| 0 <= i < |md| && at(md, i) { assert FoundAt(md, found, i); }
  }

  /** A control character other than the line break. */
  predicate ControlHere(md: Text, i: int) {
    0 <= i < |md| && (0 <= md[i] < 0x20 || md[i] == 0x7F) && md[i] != '\n' as int
  }

  /** A mark that turns the direction of the text. */
  predicate BidiHere(md: Text, i: int) {
    0 <= i < |md| && md[i] in {
      0x061C, 0x200E, 0x200F, 0x202A, 0x202B, 0x202C, 0x202D, 0x202E, 0x2066, 0x2067, 0x2068, 0x2069}
  }

  predicate ImageHere(md: Text, i: int) {
    At(md, i, '!') && At(md, i + 1, '[')
  }

  predicate HtmlHere(md: Text, i: int) {
    && At(md, i, '<')
    && (At(md, i + 1, '/') || At(md, i + 1, '!') || At(md, i + 1, '?') || (i + 1 < |md| && Letter(md[i + 1])))
  }

  predicate FootnoteHere(md: Text, i: int) {
    At(md, i, '[') && At(md, i + 1, '^')
  }

  lemma {:induction false} ControlIs(md: Text)
    ensures Finds(md, AtControl) <==> Somewhere(md, ControlHere)
  {
    FoundSomewhere(md, AtControl, ControlHere);
  }

  lemma {:induction false} BidiIs(md: Text)
    ensures Finds(md, AtBidi) <==> Somewhere(md, BidiHere)
  {
    FoundSomewhere(md, AtBidi, BidiHere);
  }

  lemma {:induction false} ImageIs(md: Text)
    ensures Finds(md, AtImage) <==> Somewhere(md, ImageHere)
  {
    FoundSomewhere(md, AtImage, ImageHere);
  }

  lemma {:induction false} HtmlIs(md: Text)
    ensures Finds(md, AtHtml) <==> Somewhere(md, HtmlHere)
  {
    FoundSomewhere(md, AtHtml, HtmlHere);
  }

  lemma {:induction false} FootnoteIs(md: Text)
    ensures Finds(md, AtFootnote) <==> Somewhere(md, FootnoteHere)
  {
    FoundSomewhere(md, AtFootnote, FootnoteHere);
  }

  /** `&`, `#` or not, a name of letters and digits, `;`. */
  predicate EntityFrom(md: Text, i: int, j: int) {
    && At(md, i, '&') && At(md, j, ';')
    && ((i + 1 < j && NameRun(md, i + 1, j)) || (At(md, i + 1, '#') && i + 2 < j && NameRun(md, i + 2, j)))
  }

  ghost predicate EntityHere(md: Text, i: int) {
    exists j :: EntityFrom(md, i, j)
  }

  /** `]`, white space or none, `[`. */
  predicate ReferenceFrom(md: Text, i: int, j: int) {
    i < j && At(md, i, ']') && At(md, j, '[') && WhiteRun(md, i + 1, j)
  }

  ghost predicate ReferenceHere(md: Text, i: int) {
    exists j :: ReferenceFrom(md, i, j)
  }

  lemma {:induction false} Opens(s: Text, i: nat)
    requires i < |s|
    ensures s[i..] == [s[i]] + s[i + 1..]
  {
  }

  lemma {:induction false} Unmarked(s: Text)
    ensures s == [] + s
  {
  }

  lemma {:induction false} Halves(s: Text, i: nat, j: nat)
    requires i <= j <= |s|
    ensures s[i..] == s[i..j] + s[j..]
  {
  }

  /** What stands between two positions, and what follows. */
  lemma {:induction false} Between(s: Text, i: nat, j: nat)
    requires i <= j < |s|
    ensures s[i..] == s[i..j] + ([s[j]] + s[j + 1..])
  {
  }

  lemma {:induction false} PartsAt(s: Text, i: nat, front: Text, c: int, rest: Text) returns (j: nat)
    requires i <= |s| && s[i..] == front + ([c] + rest)
    ensures i <= j == i + |front| < |s| && s[i..j] == front && s[j] == c && s[j + 1..] == rest
  {
    j := i + |front|;
    var t := s[i..];
    assert t[|front|] == c;
    assert t[..|front|] == front && t[|front| + 1..] == rest;
  }

  lemma {:induction false} ReferenceParted(md: Text, i: nat, gap: Text, rest: Text)
    requires i < |md| && ReferenceParts(md[i..], gap, rest)
    ensures ReferenceHere(md, i)
  {
    DropOne(CLOSE, gap + ([OPEN] + rest));
    assert md[i + 1..] == md[i..][1..] == gap + ([OPEN] + rest);
    var j := PartsAt(md, i + 1, gap, OPEN, rest);
    RunsAre(md, i + 1, j);
    assert ReferenceFrom(md, i, j);
  }

  lemma {:induction false} ReferenceTold(md: Text, i: nat, j: nat)
    requires ReferenceFrom(md, i, j)
    ensures ReferenceParts(md[i..], md[i + 1..j], md[j + 1..])
  {
    RunsAre(md, i + 1, j);
    Between(md, i + 1, j);
    Opens(md, i);
  }

  lemma {:induction false} ReferenceAt(md: Text, i: nat)
    requires i < |md|
    ensures AtReference(md[i..]) <==> ReferenceHere(md, i)
  {
    ReferenceIs(md[i..]);
    if gap, rest :| ReferenceParts(md[i..], gap, rest) { ReferenceParted(md, i, gap, rest); }
    if j :| ReferenceFrom(md, i, j) { ReferenceTold(md, i, j); }
  }

  lemma {:induction false} EntityTold(md: Text, i: nat, k: nat, j: nat, hash: Text)
    requires i < k < j && At(md, j, ';') && NameRun(md, k, j)
    requires md[i..] == [0x26] + (hash + md[k..]) && hash in {[], [HASH]}
    ensures EntityParts(md[i..], hash, md[k..j], md[j + 1..])
  {
    RunsAre(md, k, j);
    Between(md, k, j);
  }

  lemma {:induction false} EntityUnhashed(md: Text, i: nat, j: nat)
    requires At(md, i, '&') && At(md, j, ';') && i + 1 < j && NameRun(md, i + 1, j)
    ensures EntityParts(md[i..], [], md[i + 1..j], md[j + 1..])
  {
    Opens(md, i);
    Unmarked(md[i + 1..]);
    EntityTold(md, i, i + 1, j, []);
  }

  lemma {:induction false} EntityHashed(md: Text, i: nat, j: nat)
    requires At(md, i, '&') && At(md, i + 1, '#') && At(md, j, ';') && i + 2 < j && NameRun(md, i + 2, j)
    ensures EntityParts(md[i..], [HASH], md[i + 2..j], md[j + 1..])
  {
    Opens(md, i);
    Opens(md, i + 1);
    EntityTold(md, i, i + 2, j, [HASH]);
  }

  lemma {:induction false} EntityHas(md: Text, i: nat, j: nat)
    requires EntityFrom(md, i, j)
    ensures exists hash, name, rest :: EntityParts(md[i..], hash, name, rest)
  {
    if i + 1 < j && NameRun(md, i + 1, j) { EntityUnhashed(md, i, j); } else { EntityHashed(md, i, j); }
  }

  lemma {:induction false} EntityParted(md: Text, i: nat, hash: Text, name: Text, rest: Text)
    requires i < |md| && EntityParts(md[i..], hash, name, rest)
    ensures EntityHere(md, i)
  {
    var s := md[i..];
    DropOne(0x26, hash + (name + ([0x3B] + rest)));
    assert md[i + 1..] == s[1..];
    var k := i + 1 + |hash|;
    assert md[k..] == md[i + 1..][|hash|..] == name + ([0x3B] + rest);
    assert hash != [] ==> md[i + 1..][0] == HASH;
    var j := PartsAt(md, k, name, 0x3B, rest);
    RunsAre(md, k, j);
    assert EntityFrom(md, i, j);
  }

  lemma {:induction false} EntityAt(md: Text, i: nat)
    requires i < |md|
    ensures AtEntity(md[i..]) <==> EntityHere(md, i)
  {
    EntityIs(md[i..]);
    if hash, name, rest :| EntityParts(md[i..], hash, name, rest) { EntityParted(md, i, hash, name, rest); }
    if j :| EntityFrom(md, i, j) { EntityHas(md, i, j); }
  }

  lemma {:induction false} EntityAnywhere(md: Text)
    ensures Finds(md, AtEntity) <==> exists i, j :: EntityFrom(md, i, j)
  {
    FindsIs(md, AtEntity);
    if i: nat :| FoundAt(md, AtEntity, i) { EntityAt(md, i); }
    if i, j :| EntityFrom(md, i, j) {
      EntityAt(md, i);
      assert FoundAt(md, AtEntity, i);
    }
  }

  lemma {:induction false} ReferenceAnywhere(md: Text)
    ensures Finds(md, AtReference) <==> exists i, j :: ReferenceFrom(md, i, j)
  {
    FindsIs(md, AtReference);
    if i: nat :| FoundAt(md, AtReference, i) { ReferenceAt(md, i); }
    if i, j :| ReferenceFrom(md, i, j) {
      ReferenceAt(md, i);
      assert FoundAt(md, AtReference, i);
    }
  }

  // ---------- Lines of a table ----------

  /** White space from `i` up to `j`, after a colon or not. */
  predicate Follows(s: Text, i: nat, j: nat)
    requires j <= |s|
  {
    (i <= j && WhiteRun(s, i, j)) || (At(s, i, ':') && i < j && WhiteRun(s, i + 1, j))
  }

  /** White space from `i` up to `j`, before a colon or not. */
  predicate Precedes(s: Text, i: nat, j: nat)
    requires j <= |s|
  {
    (i <= j && WhiteRun(s, i, j)) || (i < j && At(s, j - 1, ':') && WhiteRun(s, i, j - 1))
  }

  /** Two dashes or more from `a` up to `b`, then a pipe at `j`. */
  predicate DashesFrom(s: Text, a: nat, b: nat, j: nat) {
    a + 2 <= b <= j && At(s, j, '|') && RunOf(s, a, b, '-') && Follows(s, b, j)
  }

  /** What comes first and what is left. */
  lemma {:induction false} Cut(s: Text, a: nat, first: Text, rest: Text)
    requires a <= |s| && s[a..] == first + rest
    ensures var b := a + |first|; b <= |s| && s[a..b] == first && s[b..] == rest
    ensures first != [] ==> s[a] == first[0]
  {
    var t := s[a..];
    assert t[..|first|] == first && t[|first|..] == rest;
  }

  /** A colon or none at `b`, white space, and a pipe. */
  lemma {:induction false} GapParted(s: Text, b: nat, colon: Text, gap: Text, rest: Text) returns (j: nat)
    requires b <= |s| && s[b..] == colon + (gap + ([PIPE] + rest)) && colon in {[], [COLON]} && All(gap, IsSpace)
    ensures b <= j && At(s, j, '|') && Follows(s, b, j)
  {
    Cut(s, b, colon, gap + ([PIPE] + rest));
    var k := b + |colon|;
    j := PartsAt(s, k, gap, PIPE, rest);
    RunsAre(s, k, j);
  }

  lemma {:induction false} DashesParted(s: Text, a: nat, dashes: Text, colon: Text, gap: Text, rest: Text)
    returns (b: nat, j: nat)
    requires a <= |s| && DashParts(s[a..], dashes, colon, gap, rest)
    ensures DashesFrom(s, a, b, j)
  {
    Cut(s, a, dashes, colon + (gap + ([PIPE] + rest)));
    b := a + |dashes|;
    RunsAre(s, a, b);
    j := GapParted(s, b, colon, gap, rest);
  }

  lemma {:induction false} DashesTold(s: Text, a: nat, b: nat, k: nat, j: nat, colon: Text)
    requires a + 2 <= b <= k <= j && At(s, j, '|') && RunOf(s, a, b, '-') && WhiteRun(s, k, j)
    requires s[b..] == colon + s[k..] && colon in {[], [COLON]}
    ensures DashParts(s[a..], s[a..b], colon, s[k..j], s[j + 1..])
  {
    RunsAre(s, a, b);
    RunsAre(s, k, j);
    Between(s, k, j);
    Halves(s, a, b);
  }

  lemma {:induction false} DashesHave(s: Text, a: nat, b: nat, j: nat)
    requires DashesFrom(s, a, b, j)
    ensures exists dashes, colon, gap, rest :: DashParts(s[a..], dashes, colon, gap, rest)
  {
    if WhiteRun(s, b, j) {
      Unmarked(s[b..]);
      DashesTold(s, a, b, b, j, []);
    } else {
      Opens(s, b);
      DashesTold(s, a, b, b + 1, j, [COLON]);
    }
  }

  lemma {:induction false} DashesAt(s: Text, a: nat)
    requires a <= |s|
    ensures AtDashes(s[a..]) <==> exists b, j :: DashesFrom(s, a, b, j)
  {
    DashesAre(s[a..]);
    if dashes, colon, gap, rest :| DashParts(s[a..], dashes, colon, gap, rest) {
      var b, j := DashesParted(s, a, dashes, colon, gap, rest);
    }
    if b, j :| DashesFrom(s, a, b, j) { DashesHave(s, a, b, j); }
  }

  /** A pipe at `i`, and from `a` on dashes and a pipe. */
  predicate RowFrom(s: Text, i: nat, a: nat, b: nat, j: nat) {
    At(s, i, '|') && i < a && DashesFrom(s, a, b, j) && Precedes(s, i + 1, a)
  }

  lemma {:induction false} GapEnds(s: Text, i: nat, gap: Text, tail: Text) returns (k: nat)
    requires i <= |s| && s[i..] == gap + tail && All(gap, IsSpace)
    ensures i <= k <= |s| && WhiteRun(s, i, k) && s[k..] == tail
  {
    k := i + |gap|;
    Cut(s, i, gap, tail);
    RunsAre(s, i, k);
  }

  lemma {:induction false} MarkThen(s: Text, i: nat, c: int, rest: Text)
    requires i <= |s| && s[i..] == [c] + rest
    ensures i < |s| && s[i] == c && s[i + 1..] == rest
  {
    assert s[i..][0] == c && s[i..][1..] == rest;
  }

  /** A mark that may be left out. */
  lemma {:induction false} MarkOrNone(mark: Text, c: int)
    ensures mark in {[], [c]} <==> mark == [] || mark == [c]
  {
  }

  lemma {:induction false} RowWithout(s: Text, i: nat, gap: Text, row: Text) returns (a: nat)
    requires i <= |s| && s[i..] == gap + row && All(gap, IsSpace)
    ensures i <= a <= |s| && Precedes(s, i, a) && s[a..] == row
  {
    a := GapEnds(s, i, gap, row);
  }

  lemma {:induction false} RowWith(s: Text, i: nat, gap: Text, row: Text) returns (a: nat)
    requires i <= |s| && s[i..] == gap + ([COLON] + row) && All(gap, IsSpace)
    ensures i <= a <= |s| && Precedes(s, i, a) && s[a..] == row
  {
    a := GapEnds(s, i, gap, [COLON] + row);
    MarkThen(s, a, COLON, row);
    a := a + 1;
  }

  lemma {:induction false} RowParted(s: Text, i: nat, gap: Text, colon: Text, row: Text) returns (a: nat)
    requires i < |s| && RowParts(s[i..], gap, colon, row)
    ensures At(s, i, '|') && i < a <= |s| && Precedes(s, i + 1, a) && AtDashes(s[a..])
  {
    MarkThen(s, i, PIPE, gap + (colon + row));
    MarkOrNone(colon, COLON);
    Unmarked(row);
    if colon == [] { a := RowWithout(s, i + 1, gap, row); } else { a := RowWith(s, i + 1, gap, row); }
  }

  lemma {:induction false} RowTold(s: Text, i: nat, k: nat, a: nat, colon: Text)
    requires i < k <= a <= |s| && At(s, i, '|') && WhiteRun(s, i + 1, k) && AtDashes(s[a..])
    requires s[k..] == colon + s[a..] && (colon == [] || colon == [COLON])
    ensures RowParts(s[i..], s[i + 1..k], colon, s[a..])
  {
    RunsAre(s, i + 1, k);
    Opens(s, i);
    Halves(s, i + 1, k);
    MarkOrNone(colon, COLON);
  }

  lemma {:induction false} RowUnmarked(s: Text, i: nat, a: nat)
    requires i < a <= |s| && At(s, i, '|') && WhiteRun(s, i + 1, a) && AtDashes(s[a..])
    ensures RowParts(s[i..], s[i + 1..a], [], s[a..])
  {
    Unmarked(s[a..]);
    RowTold(s, i, a, a, []);
  }

  lemma {:induction false} RowMarked(s: Text, i: nat, a: nat)
    requires i + 1 < a <= |s| && At(s, i, '|') && At(s, a - 1, ':') && WhiteRun(s, i + 1, a - 1) && AtDashes(s[a..])
    ensures RowParts(s[i..], s[i + 1..a - 1], [COLON], s[a..])
  {
    Opens(s, a - 1);
    RowTold(s, i, a - 1, a, [COLON]);
  }

  lemma {:induction false} RowHas(s: Text, i: nat, a: nat)
    requires At(s, i, '|') && i < a <= |s| && Precedes(s, i + 1, a) && AtDashes(s[a..])
    ensures exists gap, colon, row :: RowParts(s[i..], gap, colon, row)
  {
    if WhiteRun(s, i + 1, a) { RowUnmarked(s, i, a); } else { RowMarked(s, i, a); }
  }

  ghost predicate RowHere(s: Text, i: nat) {
    exists a, b, j :: RowFrom(s, i, a, b, j)
  }

  lemma {:induction false} RowAt(s: Text, i: nat)
    requires i < |s|
    ensures AtDelimiterRow(s[i..]) <==> RowHere(s, i)
  {
    DelimiterRowIs(s[i..]);
    if gap, colon, row :| RowParts(s[i..], gap, colon, row) {
      var a := RowParted(s, i, gap, colon, row);
      DashesAt(s, a);
      var b, j :| DashesFrom(s, a, b, j);
      assert RowFrom(s, i, a, b, j);
    }
    if a, b, j :| RowFrom(s, i, a, b, j) {
      DashesAt(s, a);
      RowHas(s, i, a);
    }
  }

  lemma {:induction false} RowAnywhere(line: Text)
    ensures Finds(line, AtDelimiterRow) <==> exists i :: RowHere(line, i)
  {
    FindsIs(line, AtDelimiterRow);
    if i: nat :| FoundAt(line, AtDelimiterRow, i) { RowAt(line, i); }
    if i: nat :| RowHere(line, i) {
      RowAt(line, i);
      assert FoundAt(line, AtDelimiterRow, i);
    }
  }

  // ---------- The other lines ----------

  predicate CodeLine(line: Text) {
    || (At(line, 0, '`') && At(line, 1, '`') && At(line, 2, '`'))
    || (At(line, 0, '~') && At(line, 1, '~') && At(line, 2, '~'))
  }

  predicate HeadingTo(line: Text, n: int) {
    1 <= n <= 6 && n <= |line| && RunOf(line, 0, n, '#') && (n == |line| || White(line[n]))
  }

  /** One to six hashes, then white space or the end. */
  ghost predicate HeadingLine(line: Text) {
    exists n :: HeadingTo(line, n)
  }

  predicate QuoteLine(line: Text) { At(line, 0, '>') }

  ghost predicate TableLine(line: Text) {
    At(line, 0, '|') || exists i :: RowHere(line, i)
  }

  /** One of the four marks, again at a later position, and otherwise only white space. */
  ghost predicate RuleLine(line: Text, c: char) {
    && c in {'-', '*', '_', '='} && At(line, 0, c)
    && (exists k :: k > 0 && At(line, k, c))
    && forall k :: 0 <= k < |line| ==> line[k] == c as int || White(line[k])
  }

  predicate OrderedTo(points: Text, nd: int -> bool, n: int) {
    && 1 <= n < |points| - 1 && (forall k :: 0 <= k < n ==> nd(points[k])) && !nd(points[n])
    && (At(points, n, '.') || At(points, n, ')')) && White(points[n + 1])
  }

  /** Digits, then a dot or a parenthesis, then white space: in code points. */
  ghost predicate OrderedLine(points: Text, nd: int -> bool) {
    exists n :: OrderedTo(points, nd, n)
  }

  predicate BulletLine(line: Text) {
    (At(line, 0, '*') || At(line, 0, '+')) && |line| > 1 && White(line[1])
  }

  predicate EmptyItemLine(line: Text) {
    At(line, 0, '-') && forall k :: 1 <= k < |line| ==> White(line[k])
  }

  predicate IndentedLine(line: Text) {
    At(line, 0, ' ') || At(line, 0, '\t')
  }

  predicate DefinitionTo(line: Text, n: int) {
    && At(line, 0, '[') && n >= 2 && At(line, n, ']') && At(line, n + 1, ':')
    && (forall k :: 1 <= k < n ==> line[k] != ']' as int)
    && n + 2 < |line| && White(line[n + 2])
  }

  /** A name in brackets, a colon and white space. */
  ghost predicate DefinitionLine(line: Text) {
    exists n :: DefinitionTo(line, n)
  }

  lemma {:induction false} HeadingParted(line: Text, hashes: Text, rest: Text)
    requires HeadingParts(line, hashes, rest)
    ensures HeadingTo(line, |hashes|)
  {
    WhiteIs();
    var n := |hashes|;
    assert line[0..n] == hashes && line[n..] == rest;
    RunsAre(line, 0, n);
  }

  lemma {:induction false} HeadingTold(line: Text, n: nat)
    requires HeadingTo(line, n)
    ensures HeadingParts(line, line[0..n], line[n..])
  {
    WhiteIs();
    RunsAre(line, 0, n);
    assert line == line[0..n] + line[n..];
  }

  lemma {:induction false} HeadingLineIs(line: Text)
    ensures IsHeading(line) <==> HeadingLine(line)
  {
    HeadingIs(line);
    if hashes, rest :| HeadingParts(line, hashes, rest) { HeadingParted(line, hashes, rest); }
    if n :| HeadingTo(line, n) { HeadingTold(line, n); }
  }

  lemma {:induction false} RuleAll(line: Text, c: int)
    ensures All(line, RuleClass(c)) <==> forall k :: 0 <= k < |line| ==> line[k] == c || White(line[k])
  {
    WhiteIs();
    assert forall k :: 0 <= k < |line| ==> line[k] in line;
  }

  lemma {:induction false} RuleLineOf(line: Text, c: char)
    requires c in {'-', '*', '_', '='} && At(line, 0, c)
    ensures IsRule(line) <==> RuleLine(line, c)
  {
    SpanAll(line, RuleClass(line[0]));
    RuleAll(line, line[0]);
    forall k | 0 < k < |line| ensures line[k] in line[1..] {
      assert line[1..][k - 1] == line[k];
    }
    if line[0] in line[1..] {
      var k :| 0 <= k < |line| - 1 && line[1..][k] == line[0];
      assert At(line, k + 1, c);
    }
  }

  lemma {:induction false} RuleLineIs(line: Text)
    ensures IsRule(line) <==> exists c :: RuleLine(line, c)
  {
    if At(line, 0, '-') { RuleLineOf(line, '-'); }
    if At(line, 0, '*') { RuleLineOf(line, '*'); }
    if At(line, 0, '_') { RuleLineOf(line, '_'); }
    if At(line, 0, '=') { RuleLineOf(line, '='); }
  }

  lemma {:induction false} OrderedTold(points: Text, nd: int -> bool, n: int)
    requires OrderedTo(points, nd, n)
    ensures Span(points, nd) == (points[..n], points[n..])
  {
    assert points == points[..n] + points[n..];
    SpanUnique(points[..n], points[n..], nd);
  }

  lemma {:induction false} OrderedPointsIs(points: Text, nd: int -> bool)
    ensures OrderedPoints(points, nd) <==> OrderedLine(points, nd)
  {
    WhiteIs();
    if OrderedPoints(points, nd) {
      var (number, rest) := Span(points, nd);
      SpanInClass(points, nd);
      var n := |number|;
      assert points[n] == rest[0] && points[n + 1] == rest[1];
      assert forall k :: 0 <= k < n ==> points[k] == number[k] && number[k] in number;
      assert OrderedTo(points, nd, n);
    }
    if n :| OrderedTo(points, nd, n) { OrderedTold(points, nd, n); }
  }

  lemma {:induction false} OrderedLineIs(line: Text, nd: int -> bool)
    ensures IsOrdered(line, nd) <==> OrderedLine(Utf16.Points(line), nd)
  {
    OrderedPointsIs(Utf16.Points(line), nd);
  }

  lemma {:induction false} BulletLineIs(line: Text)
    ensures IsBullet(line) <==> BulletLine(line)
  {
    WhiteIs();
  }

  lemma {:induction false} EmptyItemLineIs(line: Text)
    ensures IsEmptyItem(line) <==> EmptyItemLine(line)
  {
    WhiteIs();
    EmptyItemIs(line);
    if line != [] { assert forall k :: 0 < k < |line| ==> line[k] == line[1..][k - 1]; }
  }

  lemma {:induction false} DefinitionParted(line: Text, name: Text, rest: Text)
    requires DefinitionParts(line, name, rest)
    ensures DefinitionTo(line, |name| + 1)
  {
    WhiteIs();
    var n := |name| + 1;
    DropOne(OPEN, name + ([CLOSE] + ([COLON] + rest)));
    assert line[1..n] == name && line[n] == CLOSE && line[n + 1] == COLON && line[n + 2] == rest[0];
    assert forall k :: 1 <= k < n ==> line[k] == name[k - 1];
  }

  lemma {:induction false} DefinitionTold(line: Text, n: nat)
    requires DefinitionTo(line, n)
    ensures DefinitionParts(line, line[1..n], line[n + 2..])
  {
    WhiteIs();
    Opens(line, n + 1);
    Between(line, 1, n);
    FirstAndRest(line);
  }

  lemma {:induction false} DefinitionMade(line: Text)
    requires IsDefinition(line)
    ensures DefinitionLine(line)
  {
    DefinitionIs(line);
    var name, rest :| DefinitionParts(line, name, rest);
    DefinitionParted(line, name, rest);
  }

  lemma {:induction false} DefinitionMakes(line: Text, n: nat)
    requires DefinitionTo(line, n)
    ensures IsDefinition(line)
  {
    DefinitionIs(line);
    DefinitionTold(line, n);
  }

  lemma {:induction false} DefinitionLineIs(line: Text)
    ensures IsDefinition(line) <==> DefinitionLine(line)
  {
    if IsDefinition(line) { DefinitionMade(line); }
    if n :| DefinitionTo(line, n) { DefinitionMakes(line, n); }
  }
}
