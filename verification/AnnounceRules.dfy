/** What the announcement grammar refuses (announcements/markdown.tsx, `rejectBody` and `rejectLines`).
    Every pattern is a direct recogniser; `nd` is the Unicode class Nd, on code points. */
module AnnounceRules {
  import opened Prelude
  import opened AnnounceText
  import opened AnnounceInline
  import Utf16

  const MAX_BODY_CHARS := 600
  const MAX_LINES := 12

  const HASH := 0x23
  const PIPE := 0x7C
  const DASH := 0x2D
  const COLON := 0x3A

  // ---------- Patterns looked for anywhere ----------

  /** `pattern.test(s)` for a pattern that takes at least one character. */
  predicate Finds(s: Text, at: Text -> bool) {
    s != [] && (at(s) || Finds(s[1..], at))
  }

  predicate AtControl(s: Text) {
    s != [] && (0 <= s[0] <= 0x09 || 0x0B <= s[0] <= 0x1F || s[0] == 0x7F)
  }

  predicate AtBidi(s: Text) {
    s != [] && (s[0] == 0x061C || 0x200E <= s[0] <= 0x200F || 0x202A <= s[0] <= 0x202E || 0x2066 <= s[0] <= 0x2069)
  }

  predicate IsLetter(c: int) { 0x41 <= c <= 0x5A || 0x61 <= c <= 0x7A }

  predicate AtImage(s: Text) { |s| > 1 && s[0] == 0x21 && s[1] == OPEN }

  predicate AtHtml(s: Text) { |s| > 1 && s[0] == 0x3C && (IsLetter(s[1]) || s[1] in {SLASH, 0x21, 0x3F}) }

  predicate AtFootnote(s: Text) { |s| > 1 && s[0] == OPEN && s[1] == 0x5E }

  /** `s` without its first character if that is `c`. */
  function Without(s: Text, c: int): Text { if s != [] && s[0] == c then s[1..] else s }

  predicate AtEntity(s: Text) {
    && s != [] && s[0] == 0x26
    && var (name, rest) := Span(Without(s[1..], HASH), IsAlnum);
       name != [] && rest != [] && rest[0] == 0x3B
  }

  predicate AtReference(s: Text) {
    && s != [] && s[0] == CLOSE
    && var rest := Span(s[1..], IsSpace).1; rest != [] && rest[0] == OPEN
  }

  predicate IsDash(c: int) { c == DASH }

  /** `-{2,}:?S*\|` */
  predicate AtDashes(s: Text) {
    var (dashes, rest) := Span(s, IsDash);
    && |dashes| >= 2
    && var end := Span(Without(rest, COLON), IsSpace).1; end != [] && end[0] == PIPE
  }

  /** `\|S*:?-{2,}:?S*\|` */
  predicate AtDelimiterRow(s: Text) {
    s != [] && s[0] == PIPE && AtDashes(Without(Span(s[1..], IsSpace).1, COLON))
  }

  // ---------- Patterns for a line ----------

  predicate IsHash(c: int) { c == HASH }
  predicate NotClose(c: int) { c != CLOSE }

  predicate StartsWith3(s: Text, c: int) { |s| >= 3 && s[0] == c && s[1] == c && s[2] == c }

  predicate IsHeading(line: Text) {
    var (hashes, rest) := Span(line, IsHash);
    1 <= |hashes| <= 6 && (rest == [] || IsSpace(rest[0]))
  }

  function RuleClass(c: int): int -> bool { x => x == c || IsSpace(x) }

  /** Nothing but one of `-*_=`, twice or more, and white space, starting with the delimiter. */
  predicate IsRule(line: Text) {
    && line != [] && line[0] in {DASH, STAR, 0x5F, 0x3D}
    && Span(line, RuleClass(line[0])).1 == []
    && line[0] in line[1..]
  }

  /** `^\p{Nd}+[.)]S`, by code points. */
  predicate IsOrdered(line: Text, nd: int -> bool) {
    var (number, rest) := Span(Utf16.Points(line), nd);
    number != [] && |rest| > 1 && rest[0] in {0x2E, RIGHT} && IsSpace(rest[1])
  }

  predicate IsBullet(line: Text) { |line| > 1 && line[0] in {STAR, 0x2B} && IsSpace(line[1]) }

  predicate IsEmptyItem(line: Text) { line != [] && line[0] == DASH && Span(line[1..], IsSpace).1 == [] }

  predicate IsDefinition(line: Text) {
    && line != [] && line[0] == OPEN
    && var (name, rest) := Span(line[1..], NotClose);
       name != [] && |rest| > 2 && rest[1] == COLON && IsSpace(rest[2])
  }

  /** The line rules, in the order in which they are tried. */
  const LINE_RULES: seq<Code> :=
    [CodeBlock, Heading, Blockquote, Table, Rule, OrderedList, BulletMarker, ListItemEmpty, Indented]

  predicate Breaks(rule: Code, line: Text, nd: int -> bool) {
    match rule
    case CodeBlock => StartsWith3(line, TICK) || StartsWith3(line, 0x7E)
    case Heading => IsHeading(line)
    case Blockquote => line != [] && line[0] == 0x3E
    case Table => (line != [] && line[0] == PIPE) || Finds(line, AtDelimiterRow)
    case Rule => IsRule(line)
    case OrderedList => IsOrdered(line, nd)
    case BulletMarker => IsBullet(line)
    case ListItemEmpty => IsEmptyItem(line)
    case Indented => line != [] && line[0] in {0x20, 0x09}
    case _ => false
  }

  // ---------- The verdicts ----------

  function BodyVerdict(md: Text): Option<Code> {
    if md == [] then Some(Empty)
    else if |Utf16.Points(md)| > MAX_BODY_CHARS then Some(TooLong)
    else if |Split(md, LINE_BREAK)| > MAX_LINES then Some(TooManyLines)
    else if Finds(md, AtControl) then Some(ControlChar)
    else if Finds(md, AtBidi) then Some(BidiControl)
    else None
  }

  predicate AnyBreaks(lines: seq<Text>, rule: Code, nd: int -> bool) {
    exists i :: 0 <= i < |lines| && Breaks(rule, lines[i], nd)
  }

  predicate AnyDefines(lines: seq<Text>) {
    exists i :: 0 <= i < |lines| && IsDefinition(lines[i])
  }

  /** The first of the rules that any line breaks, whichever line that is. */
  function FirstBroken(lines: seq<Text>, rules: seq<Code>, nd: int -> bool): (r: Option<Code>)
    ensures r.None? <==> forall k :: 0 <= k < |rules| ==> !AnyBreaks(lines, rules[k], nd)
    ensures r.Some? ==> exists k ::
      && 0 <= k < |rules| && rules[k] == r.value && AnyBreaks(lines, rules[k], nd)
      && forall j :: 0 <= j < k ==> !AnyBreaks(lines, rules[j], nd)
  {
    if rules == [] then None
    else if AnyBreaks(lines, rules[0], nd) then Some(rules[0])
    else
      var r := FirstBroken(lines, rules[1..], nd);
      assert forall k :: 0 < k < |rules| ==> rules[k] == rules[1..][k - 1];
      r
  }

  function LinesVerdict(md: Text, nd: int -> bool): Option<Code> {
    var lines := Split(md, LINE_BREAK);
    var broken := FirstBroken(lines, LINE_RULES, nd);
    if broken.Some? then broken
    else if Finds(md, AtImage) then Some(Image)
    else if Finds(md, AtHtml) then Some(Html)
    else if Finds(md, AtEntity) then Some(Entity)
    else if Finds(md, AtFootnote) then Some(Footnote)
    else if Finds(md, AtReference) || AnyDefines(lines) then Some(ReferenceLink)
    else None
  }

  function Verdict(md: Text, nd: int -> bool): Option<Code> {
    if BodyVerdict(md).Some? then BodyVerdict(md) else LinesVerdict(md, nd)
  }

  method TryRule(lines: seq<Text>, rule: Code, nd: int -> bool) returns (b: bool)
    ensures b == AnyBreaks(lines, rule, nd)
  {
    for i := 0 to |lines|
      invariant forall j :: 0 <= j < i ==> !Breaks(rule, lines[j], nd)
    {
      if Breaks(rule, lines[i], nd) { return true; }
    }
    b := false;
  }

  method TryRules(lines: seq<Text>, rules: seq<Code>, nd: int -> bool) returns (r: Option<Code>)
    ensures r == FirstBroken(lines, rules, nd)
  {
    assert rules[0..] == rules;
    for k := 0 to |rules|
      invariant FirstBroken(lines, rules[k..], nd) == FirstBroken(lines, rules, nd)
    {
      assert rules[k..][0] == rules[k] && rules[k..][1..] == rules[k + 1..];
      var broken := TryRule(lines, rules[k], nd);
      if broken { return Some(rules[k]); }
    }
    r := None;
  }

  method TryDefinitions(lines: seq<Text>) returns (b: bool)
    ensures b == AnyDefines(lines)
  {
    for i := 0 to |lines|
      invariant forall j :: 0 <= j < i ==> !IsDefinition(lines[j])
    {
      if IsDefinition(lines[i]) { return true; }
    }
    b := false;
  }

  /** `rejectLines`: rule by rule, and for each rule line by line. */
  method RejectLines(md: Text, nd: int -> bool) returns (r: Option<Code>)
    ensures r == LinesVerdict(md, nd)
  {
    var lines := Split(md, LINE_BREAK);
    var broken := TryRules(lines, LINE_RULES, nd);
    if broken.Some? { return broken; }
    if Finds(md, AtImage) { return Some(Image); }
    if Finds(md, AtHtml) { return Some(Html); }
    if Finds(md, AtEntity) { return Some(Entity); }
    if Finds(md, AtFootnote) { return Some(Footnote); }
    var defines := TryDefinitions(lines);
    r := if Finds(md, AtReference) || defines then Some(ReferenceLink) else None;
  }
}
