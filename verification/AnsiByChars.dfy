/** Terminal colours by the characters of the text (replay/syntax.tsx, `renderAnsi`): what a sequence is,
    what its parameters say, and which chunks are shown. */
module AnsiByChars {
  import opened Prelude
  import opened Ansi
  import Decimal

  predicate At(s: Text, i: int, c: char) {
    0 <= i < |s| && s[i] == c as int
  }

  predicate Between(s: Text, i: int, lo: char, hi: char) {
    0 <= i < |s| && lo as int <= s[i] <= hi as int
  }

  predicate Introduces(s: Text, i: int) {
    0 <= i < |s| && s[i] == 27 && At(s, i + 1, '[')
  }

  predicate ParamAt(s: Text, k: int) {
    Between(s, k, '0', '9') || At(s, k, ';') || At(s, k, '?')
  }

  predicate Stretches(s: Text, i: nat, a: nat, b: nat) {
    && i <= a <= b < |s|
    && (forall k :: i <= k < a ==> ParamAt(s, k))
    && (forall k :: a <= k < b ==> Between(s, k, ' ', '/'))
    && Between(s, b, '@', '~')
  }

  /** A control sequence at the front that ends at `b`: its introducer, parameters up to `a`, intermediates, and
      its final character. */
  predicate SequenceTo(s: Text, a: nat, b: nat) {
    Introduces(s, 0) && Stretches(s, 2, a, b)
  }

  ghost predicate IsSequence(s: Text, b: nat) {
    exists a :: SequenceTo(s, a, b)
  }

  lemma {:induction false} ClassesAre()
    ensures forall c :: IsParam(c) <==> '0' as int <= c <= '9' as int || c == ';' as int || c == '?' as int
    ensures forall c :: IsIntermediate(c) <==> ' ' as int <= c <= '/' as int
    ensures forall c :: IsFinal(c) <==> '@' as int <= c <= '~' as int
    ensures forall c :: IsSgrParam(c) <==> '0' as int <= c <= '9' as int || c == ';' as int
  {
  }

  lemma {:induction false} StretchesRun(s: Text, i: nat, a: nat, b: nat)
    requires Stretches(s, i, a, b)
    ensures Run(s, i, IsParam) == a - i && Run(s, a, IsIntermediate) == b - a && IsFinal(s[b])
  {
    ClassesAre();
    forall k | i <= k < a ensures IsParam(s[k]) {
      assert ParamAt(s, k);
    }
    forall k | a <= k < b ensures IsIntermediate(s[k]) {
      assert Between(s, k, ' ', '/');
    }
    RunExact(s, i, IsParam, a - i);
    RunExact(s, a, IsIntermediate, b - a);
  }

  /** The recogniser takes exactly the control sequences. */
  lemma {:induction false} SequenceIs(s: Text, b: nat)
    ensures CsiLength(s) == b + 1 <==> IsSequence(s, b)
  {
    ClassesAre();
    if CsiLength(s) == b + 1 {
      var a := 2 + Run(s, 2, IsParam);
      RunStops(s, 2, IsParam);
      RunStops(s, a, IsIntermediate);
      assert SequenceTo(s, a, b);
    }
    if a :| SequenceTo(s, a, b) { StretchesRun(s, 2, a, b); }
  }

  /** A sequence sets the style exactly when it is digits and semicolons up to an `m`. */
  predicate StyleTo(s: Text, b: nat) {
    Introduces(s, 0) && b >= 2 && At(s, b, 'm') && forall k :: 2 <= k < b ==> Between(s, k, '0', '9') || At(s, k, ';')
  }

  lemma {:induction false} StyleSequenceIs(s: Text, b: nat, params: Text)
    ensures EscapeAt(s) == Sgr(b + 1, params) <==> StyleTo(s, b) && params == s[2..b]
  {
    ClassesAre();
    if StartsEscape(s) { RunStops(s, 2, IsSgrParam); }
    if StyleTo(s, b) {
      forall k | 2 <= k < b ensures IsSgrParam(s[k]) {
        assert Between(s, k, '0', '9') || At(s, k, ';');
      }
      RunExact(s, 2, IsSgrParam, b - 2);
    }
  }

  // ---------- Matches ----------

  /** The match covers one whole sequence, and has its parameters if it is one that sets the style. */
  ghost predicate MatchSays(text: Text, m: Match) {
    && m.index < m.end <= |text|
    && IsSequence(text[m.index..], m.end - 1 - m.index)
    && m.params == if StyleTo(text[m.index..], m.end - 1 - m.index) then Some(text[m.index + 2..m.end - 1]) else None
  }

  ghost predicate NoSequence(text: Text, i: nat)
    requires i <= |text|
  {
    forall b :: !IsSequence(text[i..], b)
  }

  lemma {:induction false} NoneIs(s: Text)
    ensures EscapeAt(s).NoEscape? <==> forall b :: !IsSequence(s, b)
  {
    PatternsAgree(s);
    if !EscapeAt(s).NoEscape? { SequenceIs(s, EscapeAt(s).length - 1); }
    if b :| IsSequence(s, b) { SequenceIs(s, b); }
  }

  lemma {:induction false} MatchIs(text: Text, at: nat, e: Escape)
    requires at < |text| && e == EscapeAt(text[at..]) && !e.NoEscape?
    ensures MatchSays(text, MatchOf(at, e))
  {
    var s, b := text[at..], e.length - 1;
    PatternsAgree(s);
    SequenceIs(s, b);
    StyleSequenceIs(s, b, s[2..b]);
    if e.Sgr? { StyleSequenceIs(s, b, e.params); }
    assert s[2..b] == text[at + 2..at + b];
  }

  ghost predicate MatchesSay(text: Text, at: nat, ms: seq<Match>) {
    && (forall k :: 0 <= k < |ms| ==> MatchSays(text, ms[k]))
    && forall i :: at <= i < |text| && !Covered(ms, i) ==> NoSequence(text, i)
  }

  lemma {:induction false} OneMoreMatch(text: Text, at: nat, m: Match, rest: seq<Match>)
    requires m.index == at && MatchSays(text, m) && MatchesSay(text, m.end, rest)
    ensures MatchesSay(text, at, [m] + rest)
  {
    var ms := [m] + rest;
    assert ms[1..] == rest;
    forall i | at <= i < |text| && !Covered(ms, i) ensures NoSequence(text, i) {
      CoveredFirst(ms, i);
    }
  }

  lemma {:induction false} NoMatchHere(text: Text, at: nat, ms: seq<Match>)
    requires at < |text| && NoSequence(text, at) && MatchesSay(text, at + 1, ms)
    ensures MatchesSay(text, at, ms)
  {
  }

  lemma {:induction false} MatchesFrom(text: Text, at: nat, e: Escape, rest: seq<Match>)
    requires at < |text| && e == EscapeAt(text[at..])
    requires MatchesSay(text, if e.NoEscape? then at + 1 else at + e.length, rest)
    ensures MatchesSay(text, at, if e.NoEscape? then rest else [MatchOf(at, e)] + rest)
  {
    if e.NoEscape? {
      NoneIs(text[at..]);
      NoMatchHere(text, at, rest);
    } else {
      MatchIs(text, at, e);
      OneMoreMatch(text, at, MatchOf(at, e), rest);
    }
  }

  /** The matches are the sequences found from left to right, and no other sequence starts outside them. */
  lemma {:induction false} MatchesAre(text: Text, at: nat)
    requires at <= |text|
    ensures MatchesSay(text, at, Matches(text, at))
    decreases |text| - at
  {
    if at < |text| {
      var e := EscapeAt(text[at..]);
      var next := if e.NoEscape? then at + 1 else at + e.length;
      MatchesAre(text, next);
      MatchesStep(text, at, e);
      MatchesFrom(text, at, e, Matches(text, next));
    }
  }

  lemma {:induction false} MatchesInOrder(text: Text, last: nat, ms: seq<Match>)
    requires WellPlaced(text, last, ms)
    ensures forall k :: 0 <= k < |ms| ==> last <= ms[k].index < ms[k].end <= |text|
    ensures forall j, k :: 0 <= j < k < |ms| ==> ms[j].end <= ms[k].index
    decreases |ms|
  {
    if ms != [] {
      MatchesInOrder(text, ms[0].end, ms[1..]);
      assert forall k :: 0 < k < |ms| ==> ms[k] == ms[1..][k - 1];
    }
  }

  // ---------- Parameters ----------

  function Units(s: string): (t: Text)
    ensures |t| == |s| && forall i :: 0 <= i < |s| ==> t[i] == s[i] as int
  {
    seq(|s|, i requires 0 <= i < |s| => s[i] as int)
  }

  /** A parameter as it is written: a number, or nothing. */
  function ParamText(p: Option<nat>): Text {
    match p case Some(n) => Units(Decimal.Print(n)) case None => []
  }

  function ParamsText(ps: seq<Option<nat>>): Text {
    if ps == [] then []
    else if |ps| == 1 then ParamText(ps[0])
    else ParamText(ps[0]) + Units(";") + ParamsText(ps[1..])
  }

  /** A number by its value; nothing has none, which no rule asks for. */
  function ParamValue(p: Option<nat>): int {
    match p case Some(n) => n case None => -1
  }

  lemma {:induction false} DigitsRead(n: nat)
    ensures ReadDigits(Units(Decimal.Print(n))) == n
    ensures Decimal.Print(n) != [] && forall c :: c in Units(Decimal.Print(n)) ==> c != SEMICOLON
  {
    Decimal.ReadPrint(n);
    var s := Decimal.Print(n);
    forall c | c in Units(s) ensures c != SEMICOLON {
      var i :| 0 <= i < |s| && Units(s)[i] == c;
      assert s[i] in s;
    }
    if n < 10 {
      assert Units(s)[..0] == [];
    } else {
      DigitsRead(n / 10);
      assert Units(s)[..|s| - 1] == Units(Decimal.Print(n / 10));
    }
  }

  lemma {:induction false} SplitOne(part: Text)
    requires SEMICOLON !in part
    ensures SplitParams(part) == [part]
  {
    if part != [] {
      assert part[0] in part && forall c :: c in part[1..] ==> c in part;
      SplitOne(part[1..]);
      assert [part[0]] + part[1..] == part;
    }
  }

  lemma {:induction false} SplitFirst(part: Text, rest: Text)
    requires SEMICOLON !in part
    ensures SplitParams(part + [SEMICOLON] + rest) == [part] + SplitParams(rest)
  {
    var s := part + [SEMICOLON] + rest;
    if part == [] {
      assert s[1..] == rest;
    } else {
      assert part[0] in part && forall c :: c in part[1..] ==> c in part;
      SplitFirst(part[1..], rest);
      assert s[1..] == part[1..] + [SEMICOLON] + rest;
      assert [part[0]] + part[1..] == part;
    }
  }

  lemma {:induction false} PartReads(p: Option<nat>)
    ensures SEMICOLON !in ParamText(p) && ParseParam(ParamText(p)) == ParamValue(p)
  {
    if p.Some? { DigitsRead(p.value); }
  }

  lemma {:induction false} SplitReads(ps: seq<Option<nat>>)
    requires ps != []
    ensures Map(SplitParams(ParamsText(ps)), ParseParam) == Map(ps, ParamValue)
  {
    PartReads(ps[0]);
    if |ps| == 1 {
      SplitOne(ParamText(ps[0]));
    } else {
      SplitReads(ps[1..]);
      assert Units(";") == [SEMICOLON];
      SplitFirst(ParamText(ps[0]), ParamsText(ps[1..]));
      MapCons(ParamText(ps[0]), SplitParams(ParamsText(ps[1..])), ParseParam);
      MapCons(ps[0], ps[1..], ParamValue);
      assert ps == [ps[0]] + ps[1..];
    }
  }

  /** Parameters are read as the numbers they write, and no text at all as a single zero. */
  lemma {:induction false} ParamsRead(ps: seq<Option<nat>>)
    ensures ParamsText(ps) != [] ==> ParamsOf(ParamsText(ps)) == Map(ps, ParamValue)
    ensures ParamsText(ps) == [] ==> ParamsOf(ParamsText(ps)) == [0]
  {
    if ps != [] { SplitReads(ps); }
  }

  // ---------- Styles and chunks ----------

  /** What one parameter does: 0 resets, 1 and 22 set the weight, 39 drops the colour, 30 to 37 and 90 to 97 set
      it, the dark half made bright by the weight; nothing else does anything. */
  lemma {:induction false} ParamSays(style: Style, p: int)
    ensures ApplyParam(style, p).bold == if p == 1 then true else if p == 0 || p == 22 then false else style.bold
    ensures ApplyParam(style, p).color ==
      if p == 0 || p == 39 then None
      else if 90 <= p <= 97 then Some(p)
      else if 30 <= p <= 37 then Some(if style.bold then p + 60 else p)
      else style.color
  {
  }

  lemma {:induction false} ParamsSay(style: Style, params: seq<int>, p: int)
    ensures ApplyParams(style, []) == style
    ensures ApplyParams(style, params + [p]) == ApplyParam(ApplyParams(style, params), p)
  {
    assert (params + [p])[..|params|] == params;
  }

  /** The colour of a chunk, that of bold text if it has none of its own, and the weight where there is a colour. */
  lemma {:induction false} ChunkSays(text: Text, color: Option<int>, bold: bool)
    ensures ChunkOf(text, Style(color, bold)) ==
      match color
      case Some(c) => Chunk(text, Palette(c), bold)
      case None => if bold then Chunk(text, BoldDefault, true) else Chunk(text, NoColor, false)
  {
  }

  /** The chunks start without a style, and the text is coloured exactly if it is short enough and holds an
      introducer; otherwise it is shown stripped. */
  lemma {:induction false} RenderSays(text: Text)
    ensures (exists i :: Introduces(text, i)) && |text| <= 60000 ==>
      Rendered(text) == Spans(Chunks(text, 0, Matches(text, 0), Style(None, false)))
    ensures (forall i :: !Introduces(text, i)) || |text| > 60000 ==> Rendered(text) == PlainText(StripAnsi(text))
  {
    KeptIsStripped(text, 0);
    assert text[0..] == text;
    if i :| Introduces(text, i) { assert text[i] == ESC && text[i + 1] == BRACKET; }
    if HasAnsi(text) {
      var i :| 0 <= i < |text| - 1 && text[i] == ESC && text[i + 1] == BRACKET;
      assert Introduces(text, i);
    }
  }
}
