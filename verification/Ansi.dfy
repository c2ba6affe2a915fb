/** Terminal colours (replay/syntax.tsx, `renderAnsi`) against the plain stripping of escape sequences
    (replay/event-card.tsx, `stripAnsi`). Sequences are those of section 5.4 of ECMA-48. */
module Ansi {
  import opened Prelude

  const ESC := 0x1B
  const BRACKET := 0x5B
  const SEMICOLON := 0x3B
  const FINAL_M := 0x6D

  predicate IsDigit(c: int) { 0x30 <= c <= 0x39 }
  predicate IsSgrParam(c: int) { IsDigit(c) || c == SEMICOLON }
  predicate IsParam(c: int) { IsSgrParam(c) || c == 0x3F }
  predicate IsIntermediate(c: int) { 0x20 <= c <= 0x2F }
  predicate IsFinal(c: int) { 0x40 <= c <= 0x7E }

  /** How many characters from `i` on satisfy `p`: what a greedy `[...]*` takes. */
  function Run(s: Text, i: nat, p: int -> bool): (n: nat)
    requires i <= |s|
    ensures i + n <= |s|
    decreases |s| - i
  {
    if i == |s| || !p(s[i]) then 0 else 1 + Run(s, i + 1, p)
  }

  predicate StartsEscape(s: Text) {
    |s| >= 2 && s[0] == ESC && s[1] == BRACKET
  }

  // ---------- The simple form ----------

  /** The length of the control sequence at the front of `s`, or zero: `ESC [`, parameters,
      intermediates and a final byte. The three classes share no character, so the greedy match is the
      only one. */
  function CsiLength(s: Text): (n: nat)
    ensures n <= |s|
    ensures n > 0 ==> StartsEscape(s)
  {
    if !StartsEscape(s) then 0
    else
      var params := Run(s, 2, IsParam);
      var inter := Run(s, 2 + params, IsIntermediate);
      var end := 2 + params + inter;
      if end < |s| && IsFinal(s[end]) then end + 1 else 0
  }

  /** `value.replace(ANSI_CSI, "")`: drop every control sequence, leftmost first. */
  function StripAnsi(s: Text): Text
    decreases |s|
  {
    if s == [] then []
    else if CsiLength(s) > 0 then StripAnsi(s[CsiLength(s)..])
    else [s[0]] + StripAnsi(s[1..])
  }

  // ---------- The styled form ----------

  /** A match of the two-branch pattern: a colour sequence with its parameter text, or any other
      control sequence. */
  datatype Escape = Sgr(length: nat, params: Text) | Other(length: nat) | NoEscape

  function EscapeAt(s: Text): (e: Escape)
    ensures !e.NoEscape? ==> 0 < e.length <= |s|
  {
    if !StartsEscape(s) then NoEscape
    else
      var n := Run(s, 2, IsSgrParam);
      if 2 + n < |s| && s[2 + n] == FINAL_M then Sgr(n + 3, s[2..2 + n])
      else if CsiLength(s) > 0 then Other(CsiLength(s))
      else NoEscape
  }

  /** Colour: a palette entry, by its SGR code. */
  datatype Style = Style(color: Option<int>, bold: bool)

  const PLAIN := Style(None, false)

  predicate HasColor(p: int) {
    30 <= p <= 37 || 90 <= p <= 97
  }

  function ApplyParam(style: Style, p: int): Style {
    if p == 0 then PLAIN
    else if p == 1 then style.(bold := true)
    else if p == 22 then style.(bold := false)
    else if p == 39 then style.(color := None)
    else if HasColor(p) then style.(color := Some(if style.bold && 30 <= p <= 37 then p + 60 else p))
    else style
  }

  /** `s.split(";")` */
  function SplitParams(s: Text): (r: seq<Text>)
    ensures r != []
  {
    if s == [] then [[]]
    else
      var rest := SplitParams(s[1..]);
      if s[0] == SEMICOLON then [[]] + rest else [[s[0]] + rest[0]] + rest[1..]
  }

  function ReadDigits(s: Text): int {
    if s == [] then 0 else 10 * ReadDigits(s[..|s| - 1]) + (s[|s| - 1] - 0x30)
  }

  /** `parseInt(n, 10)`; the empty text gives NaN, which matches no case, here -1. */
  function ParseParam(s: Text): int {
    if s == [] then -1 else ReadDigits(s)
  }

  function ParamsOf(text: Text): seq<int> {
    if text == [] then [0] else Map(SplitParams(text), ParseParam)
  }

  function ApplyParams(style: Style, params: seq<int>): Style {
    if params == [] then style else ApplyParam(ApplyParams(style, params[..|params| - 1]), params[|params| - 1])
  }

  /** A chunk of output. `None` for the colour of a plain span; bold without a colour has its own. */
  datatype Paint = NoColor | BoldDefault | Palette(code: int)
  datatype Chunk = Chunk(text: Text, paint: Paint, bold: bool)

  function PaintOf(style: Style): Paint {
    if style.color.Some? then Palette(style.color.value) else if style.bold then BoldDefault else NoColor
  }

  function ChunkOf(text: Text, style: Style): Chunk {
    Chunk(text, PaintOf(style), PaintOf(style) != NoColor && style.bold)
  }

  const MAX_HIGHLIGHT := 60000

  predicate HasAnsi(s: Text) {
    exists i :: 0 <= i < |s| - 1 && s[i] == ESC && s[i + 1] == BRACKET
  }

  // ---------- The two patterns agree ----------

  lemma {:induction false} RunStops(s: Text, i: nat, p: int -> bool)
    requires i <= |s|
    ensures forall k :: i <= k < i + Run(s, i, p) ==> p(s[k])
    ensures i + Run(s, i, p) < |s| ==> !p(s[i + Run(s, i, p)])
    decreases |s| - i
  {
    if i < |s| && p(s[i]) { RunStops(s, i + 1, p); }
  }

  lemma {:induction false} RunExact(s: Text, i: nat, p: int -> bool, n: nat)
    requires i + n <= |s|
    requires forall k :: i <= k < i + n ==> p(s[k])
    requires i + n < |s| ==> !p(s[i + n])
    ensures Run(s, i, p) == n
    decreases n
  {
    if n > 0 { RunExact(s, i + 1, p, n - 1); }
  }

  /** A colour sequence is a control sequence of the same length. */
  lemma {:induction false} SgrIsCsi(s: Text)
    requires EscapeAt(s).Sgr?
    ensures CsiLength(s) == EscapeAt(s).length
  {
    var n := Run(s, 2, IsSgrParam);
    RunStops(s, 2, IsSgrParam);
    RunExact(s, 2, IsParam, n);
    RunExact(s, 2 + n, IsIntermediate, 0);
  }

  /** Both patterns find the same sequences. */
  lemma {:induction false} PatternsAgree(s: Text)
    ensures CsiLength(s) == if EscapeAt(s).NoEscape? then 0 else EscapeAt(s).length
  {
    if EscapeAt(s).Sgr? { SgrIsCsi(s); }
  }

  // ---------- Matching ----------

  /** One match of the two-branch pattern, with the parameter text of a colour sequence. */
  datatype Match = Match(index: nat, end: nat, params: Option<Text>)

  function MatchOf(at: nat, e: Escape): Match
    requires !e.NoEscape?
  {
    Match(at, at + e.length, if e.Sgr? then Some(e.params) else None)
  }

  /** Matches that do not overlap, from left to right, none before `last`. */
  ghost predicate WellPlaced(text: Text, last: nat, ms: seq<Match>)
    decreases |ms|
  {
    && last <= |text|
    && (ms == [] || (last <= ms[0].index < ms[0].end <= |text| && WellPlaced(text, ms[0].end, ms[1..])))
  }

  /** `text.matchAll(ANSI_RE)`, from `at` on. */
  function Matches(text: Text, at: nat): (ms: seq<Match>)
    requires at <= |text|
    ensures WellPlaced(text, at, ms)
    decreases |text| - at
  {
    if at == |text| then []
    else
      var e := EscapeAt(text[at..]);
      if e.NoEscape? then Matches(text, at + 1) else [MatchOf(at, e)] + Matches(text, at + e.length)
  }

  /** The text outside the matches. */
  function Kept(text: Text, last: nat, ms: seq<Match>): Text
    requires WellPlaced(text, last, ms)
    decreases |ms|
  {
    if ms == [] then text[last..]
    else text[last..ms[0].index] + Kept(text, ms[0].end, ms[1..])
  }

  lemma {:induction false} KeptSkip(text: Text, at: nat, ms: seq<Match>)
    requires at < |text| && WellPlaced(text, at + 1, ms)
    ensures WellPlaced(text, at, ms)
    ensures Kept(text, at, ms) == [text[at]] + Kept(text, at + 1, ms)
  {
    if ms == [] {
      assert text[at..] == [text[at]] + text[at + 1..];
    } else {
      var m := ms[0];
      assert text[at..m.index] == [text[at]] + text[at + 1..m.index];
      Regroup([text[at]], text[at + 1..m.index], Kept(text, m.end, ms[1..]));
    }
  }

  lemma {:induction false} StripStep(text: Text, at: nat, e: Escape)
    requires at < |text| && e == EscapeAt(text[at..])
    ensures StripAnsi(text[at..]) ==
      if e.NoEscape? then [text[at]] + StripAnsi(text[at + 1..]) else StripAnsi(text[at + e.length..])
  {
    PatternsAgree(text[at..]);
    if e.NoEscape? {
      assert text[at..][1..] == text[at + 1..];
    } else {
      assert text[at..][e.length..] == text[at + e.length..];
    }
  }

  lemma {:induction false} MatchesStep(text: Text, at: nat, e: Escape)
    requires at < |text| && e == EscapeAt(text[at..])
    ensures Matches(text, at) ==
      if e.NoEscape? then Matches(text, at + 1) else [MatchOf(at, e)] + Matches(text, at + e.length)
  {
  }

  lemma {:induction false} KeptPast(text: Text, m: Match, rest: seq<Match>)
    requires WellPlaced(text, m.index, [m] + rest)
    ensures WellPlaced(text, m.end, rest)
    ensures Kept(text, m.index, [m] + rest) == Kept(text, m.end, rest)
  {
    assert ([m] + rest)[1..] == rest;
    assert text[m.index..m.index] == [];
  }

  /** One step of the text outside the matches, whatever the matches after it are. */
  lemma {:induction false} KeptStep(text: Text, at: nat, e: Escape, next: nat, rest: seq<Match>, ms: seq<Match>,
      tail: Text)
    requires at < next <= |text| && WellPlaced(text, next, rest) && WellPlaced(text, at, ms)
    requires if e.NoEscape? then next == at + 1 && ms == rest
      else next == at + e.length && ms == [MatchOf(at, e)] + rest
    requires Kept(text, next, rest) == tail
    ensures Kept(text, at, ms) == if e.NoEscape? then [text[at]] + tail else tail
  {
    if e.NoEscape? { KeptSkip(text, at, rest); } else { KeptPast(text, MatchOf(at, e), rest); }
  }

  /** `text.replace(ANSI_RE, "")` is the simple stripping. */
  lemma {:induction false} KeptIsStripped(text: Text, at: nat)
    requires at <= |text|
    ensures Kept(text, at, Matches(text, at)) == StripAnsi(text[at..])
    decreases |text| - at
  {
    if at < |text| {
      var e := EscapeAt(text[at..]);
      var next := if e.NoEscape? then at + 1 else at + e.length;
      KeptIsStripped(text, next);
      MatchesStep(text, at, e);
      StripStep(text, at, e);
      KeptStep(text, at, e, next, Matches(text, next), Matches(text, at), StripAnsi(text[next..]));
    }
  }

  // ---------- Rendering ----------

  function Flushed(run: Text, style: Style): seq<Chunk> {
    if run == [] then [] else [ChunkOf(run, style)]
  }

  function ApplyMatch(style: Style, m: Match): Style {
    if m.params.Some? then ApplyParams(style, ParamsOf(m.params.value)) else style
  }

  /** The chunks of the text from `last` on, when `style` is current there. */
  function Chunks(text: Text, last: nat, ms: seq<Match>, style: Style): seq<Chunk>
    requires WellPlaced(text, last, ms)
    decreases |ms|
  {
    if ms == [] then Flushed(text[last..], style)
    else Flushed(text[last..ms[0].index], style) + Chunks(text, ms[0].end, ms[1..], ApplyMatch(style, ms[0]))
  }

  datatype Output = PlainText(text: Text) | Spans(chunks: seq<Chunk>)

  function ChunkText(chunks: seq<Chunk>): Text {
    if chunks == [] then [] else chunks[0].text + ChunkText(chunks[1..])
  }

  function ShownText(out: Output): Text {
    match out
    case PlainText(text) => text
    case Spans(chunks) => ChunkText(chunks)
  }

  /** What is shown for a text. */
  function Rendered(text: Text): Output {
    if text == [] then PlainText(text)
    else if |text| > MAX_HIGHLIGHT || !HasAnsi(text) then PlainText(Kept(text, 0, Matches(text, 0)))
    else Spans(Chunks(text, 0, Matches(text, 0), PLAIN))
  }

  /** Emit the text since the last escape with the current style. */
  method FlushRun(chunks0: seq<Chunk>, text: Text, last: nat, upto: nat, color: Option<int>, bold: bool)
    returns (chunks: seq<Chunk>)
    requires last <= upto <= |text|
    ensures chunks == chunks0 + Flushed(text[last..upto], Style(color, bold))
  {
    if upto <= last { return chunks0; }
    var paint := if color.Some? then Palette(color.value) else if bold then BoldDefault else NoColor;
    chunks := chunks0 + [Chunk(text[last..upto], paint, paint != NoColor && bold)];
  }

  method UpdateStyle(color0: Option<int>, bold0: bool, params: seq<int>) returns (color: Option<int>, bold: bool)
    ensures Style(color, bold) == ApplyParams(Style(color0, bold0), params)
  {
    color, bold := color0, bold0;
    for i := 0 to |params|
      invariant Style(color, bold) == ApplyParams(Style(color0, bold0), params[..i])
    {
      assert params[..i + 1][..i] == params[..i];
      var p := params[i];
      if p == 0 {
        color, bold := None, false;
      } else if p == 1 {
        bold := true;
      } else if p == 22 {
        bold := false;
      } else if p == 39 {
        color := None;
      } else if HasColor(p) {
        color := Some(if bold && p >= 30 && p <= 37 then p + 60 else p);
      }
    }
    assert params[..|params|] == params;
  }

  /** The loop over the matches, with the colour and weight of the moment. */
  method SpansOf(text: Text, matches: seq<Match>) returns (chunks: seq<Chunk>)
    requires WellPlaced(text, 0, matches)
    ensures chunks == Chunks(text, 0, matches, PLAIN)
  {
    chunks := [];
    var color: Option<int> := None;
    var bold := false;
    var last: nat := 0;
    assert matches[0..] == matches;
    for k := 0 to |matches|
      invariant WellPlaced(text, last, matches[k..])
      invariant chunks + Chunks(text, last, matches[k..], Style(color, bold)) == Chunks(text, 0, matches, PLAIN)
    {
      var m := matches[k];
      ghost var rest := matches[k + 1..];
      assert matches[k..][0] == m && matches[k..][1..] == rest;
      Regroup(chunks, Flushed(text[last..m.index], Style(color, bold)),
              Chunks(text, m.end, rest, ApplyMatch(Style(color, bold), m)));
      chunks := FlushRun(chunks, text, last, m.index, color, bold);
      last := m.end;
      if m.params.Some? { color, bold := UpdateStyle(color, bold, ParamsOf(m.params.value)); }
    }
    assert text[last..] == text[last..|text|];
    chunks := FlushRun(chunks, text, last, |text|, color, bold);
  }

  method RenderAnsi(text: Text) returns (out: Output)
    ensures out == Rendered(text)
  {
    if text == [] { return PlainText(text); }
    var matches := Matches(text, 0);
    if |text| > MAX_HIGHLIGHT || !HasAnsi(text) { return PlainText(Kept(text, 0, matches)); }
    var chunks := SpansOf(text, matches);
    out := Spans(chunks);
  }

  // ---------- Properties ----------

  lemma {:induction false} ChunkTextAppend(a: seq<Chunk>, b: seq<Chunk>)
    ensures ChunkText(a + b) == ChunkText(a) + ChunkText(b)
  {
    if a == [] {
      assert a + b == b;
    } else {
      assert (a + b)[0] == a[0] && (a + b)[1..] == a[1..] + b;
      ChunkTextAppend(a[1..], b);
    }
  }

  lemma {:induction false} FlushedText(run: Text, style: Style)
    ensures ChunkText(Flushed(run, style)) == run
  {
    if run != [] {
      assert [ChunkOf(run, style)][1..] == [];
    }
  }

  lemma {:induction false} ChunksHoldText(text: Text, last: nat, ms: seq<Match>, style: Style)
    requires WellPlaced(text, last, ms)
    ensures ChunkText(Chunks(text, last, ms, style)) == Kept(text, last, ms)
    decreases |ms|
  {
    if ms == [] {
      FlushedText(text[last..], style);
    } else {
      FlushedText(text[last..ms[0].index], style);
      ChunksHoldText(text, ms[0].end, ms[1..], ApplyMatch(style, ms[0]));
      ChunkTextAppend(Flushed(text[last..ms[0].index], style),
        Chunks(text, ms[0].end, ms[1..], ApplyMatch(style, ms[0])));
    }
  }

  /** Whatever path is taken, the text shown is the text with its control sequences stripped. */
  lemma {:induction false} RenderingStrips(text: Text)
    ensures ShownText(Rendered(text)) == StripAnsi(text)
  {
    KeptIsStripped(text, 0);
    assert text[0..] == text;
    ChunksHoldText(text, 0, Matches(text, 0), PLAIN);
  }

  /** The style after all of `ms`: the fold of every parameter in them, in order. */
  function StyleAfter(style: Style, ms: seq<Match>): Style {
    if ms == [] then style else ApplyMatch(StyleAfter(style, ms[..|ms| - 1]), ms[|ms| - 1])
  }

  /** The chunk is the text between match `k - 1` and match `k`, in the style of the first `k` matches. */
  ghost predicate IsSegment(text: Text, last: nat, ms: seq<Match>, style: Style, c: Chunk, k: nat) {
    && k <= |ms|
    && var from := if k == 0 then last else ms[k - 1].end;
       var upto := if k == |ms| then |text| else ms[k].index;
       from < upto <= |text| && c == ChunkOf(text[from..upto], StyleAfter(style, ms[..k]))
  }

  lemma {:induction false} StyleAfterFirst(style: Style, ms: seq<Match>)
    requires ms != []
    ensures StyleAfter(style, ms) == StyleAfter(ApplyMatch(style, ms[0]), ms[1..])
  {
    var init := ms[..|ms| - 1];
    if init == [] {
      assert ms[1..] == [];
    } else {
      StyleAfterFirst(style, init);
      assert init[1..] == ms[1..][..|ms[1..]| - 1] && init[0] == ms[0];
      assert ms[1..][|ms[1..]| - 1] == ms[|ms| - 1];
    }
  }

  lemma {:induction false} SegmentShift(text: Text, last: nat, ms: seq<Match>, style: Style, c: Chunk, k: nat)
    requires ms != [] && IsSegment(text, ms[0].end, ms[1..], ApplyMatch(style, ms[0]), c, k)
    ensures IsSegment(text, last, ms, style, c, k + 1)
  {
    StyleAfterFirst(style, ms[..k + 1]);
    assert ms[..k + 1][1..] == ms[1..][..k];
  }

  /** Every chunk is one whole stretch between matches, in the style of exactly the matches before it. */
  lemma {:induction false} ChunksAreSegments(text: Text, last: nat, ms: seq<Match>, style: Style, c: Chunk)
    requires WellPlaced(text, last, ms) && c in Chunks(text, last, ms, style)
    ensures exists k :: IsSegment(text, last, ms, style, c, k)
    decreases |ms|
  {
    assert ms[..0] == [];
    if ms == [] {
      assert text[last..] == text[last..|text|];
      assert IsSegment(text, last, ms, style, c, 0);
    } else if c in Flushed(text[last..ms[0].index], style) {
      assert IsSegment(text, last, ms, style, c, 0);
    } else {
      ChunksAreSegments(text, ms[0].end, ms[1..], ApplyMatch(style, ms[0]), c);
      var k: nat :| IsSegment(text, ms[0].end, ms[1..], ApplyMatch(style, ms[0]), c, k);
      SegmentShift(text, last, ms, style, c, k);
    }
  }

  // ---------- The style, parameter by parameter ----------

  /** All the parameters of the matches, in order. */
  function AllParams(ms: seq<Match>): seq<int> {
    if ms == [] then []
    else
      var m := ms[|ms| - 1];
      AllParams(ms[..|ms| - 1]) + if m.params.Some? then ParamsOf(m.params.value) else []
  }

  lemma {:induction false} ApplyParamsAppend(style: Style, a: seq<int>, b: seq<int>)
    ensures ApplyParams(style, a + b) == ApplyParams(ApplyParams(style, a), b)
    decreases |b|
  {
    if b == [] {
      assert a + b == a;
    } else {
      var init := b[..|b| - 1];
      ApplyParamsAppend(style, a, init);
      assert (a + b)[..|a + b| - 1] == a + init;
    }
  }

  /** The style is the fold of all the parameters before. */
  lemma {:induction false} StyleIsParams(style: Style, ms: seq<Match>)
    ensures StyleAfter(style, ms) == ApplyParams(style, AllParams(ms))
  {
    if ms != [] {
      var init, m := ms[..|ms| - 1], ms[|ms| - 1];
      StyleIsParams(style, init);
      if m.params.Some? {
        ApplyParamsAppend(style, AllParams(init), ParamsOf(m.params.value));
      } else {
        assert AllParams(init) + [] == AllParams(init);
      }
    }
  }

  predicate SetsBold(p: int) { p == 0 || p == 1 || p == 22 }
  predicate SetsColor(p: int) { p == 0 || p == 39 || HasColor(p) }

  /** `params[k]` is the last parameter in the class. */
  ghost predicate IsLast(params: seq<int>, k: nat, p: int -> bool) {
    k < |params| && p(params[k]) && forall i :: k < i < |params| ==> !p(params[i])
  }

  /** The weight is what the last parameter for it says, and a reset is one of those. */
  lemma {:induction false} BoldIsLast(style: Style, params: seq<int>, k: nat)
    ensures IsLast(params, k, SetsBold) ==> ApplyParams(style, params).bold == (params[k] == 1)
    ensures (forall i :: 0 <= i < |params| ==> !SetsBold(params[i])) ==> ApplyParams(style, params).bold == style.bold
  {
    if params != [] {
      var init := params[..|params| - 1];
      BoldIsLast(style, init, k);
      assert forall i :: 0 <= i < |init| ==> init[i] == params[i];
    }
  }

  /** So is the colour; the bright half of the palette is chosen by the weight at that parameter. */
  lemma {:induction false} ColorIsLast(style: Style, params: seq<int>, k: nat)
    ensures IsLast(params, k, SetsColor) ==>
      ApplyParams(style, params).color ==
        if !HasColor(params[k]) then None
        else if ApplyParams(style, params[..k]).bold && params[k] <= 37 then Some(params[k] + 60)
        else Some(params[k])
    ensures (forall i :: 0 <= i < |params| ==> !SetsColor(params[i])) ==>
      ApplyParams(style, params).color == style.color
  {
    if params != [] {
      var init := params[..|params| - 1];
      ColorIsLast(style, init, k);
      assert forall i :: 0 <= i < |init| ==> init[i] == params[i];
      if k < |init| { assert init[..k] == params[..k]; }
    }
  }

  // ---------- Stripping twice ----------

  /** There is a control sequence in the text. */
  ghost predicate HasSequence(s: Text) {
    exists i :: 0 <= i < |s| && CsiLength(s[i..]) > 0
  }

  lemma {:induction false} SequenceFirst(s: Text)
    requires s != []
    ensures HasSequence(s) <==> CsiLength(s) > 0 || HasSequence(s[1..])
  {
    var t := s[1..];
    assert s[0..] == s;
    forall i | 0 <= i < |t| ensures t[i..] == s[i + 1..] {
    }
    if HasSequence(t) {
      var i :| 0 <= i < |t| && CsiLength(t[i..]) > 0;
      assert CsiLength(s[i + 1..]) > 0;
    }
    if HasSequence(s) && CsiLength(s) == 0 {
      var i :| 0 <= i < |s| && CsiLength(s[i..]) > 0;
      assert t[i - 1..] == s[i..];
    }
  }

  /** Stripping leaves a text alone exactly when there is nothing to strip, and shortens it otherwise. */
  lemma {:induction false} StripFixes(s: Text)
    ensures StripAnsi(s) == s <==> !HasSequence(s)
    ensures |StripAnsi(s)| == |s| <==> !HasSequence(s)
    ensures |StripAnsi(s)| <= |s|
    decreases |s|
  {
    if s != [] {
      SequenceFirst(s);
      if CsiLength(s) > 0 {
        StripFixes(s[CsiLength(s)..]);
      } else {
        StripFixes(s[1..]);
        assert [s[0]] + s[1..] == s;
      }
    }
  }

  /** The character at `i` lies inside a match. */
  ghost predicate Covered(ms: seq<Match>, i: int) {
    exists k :: 0 <= k < |ms| && ms[k].index <= i < ms[k].end
  }

  /** Some escape character from `last` on lies outside the matches. */
  ghost predicate StrayEscape(text: Text, last: nat, ms: seq<Match>) {
    exists i :: last <= i < |text| && text[i] == ESC && !Covered(ms, i)
  }

  lemma {:induction false} CoveredFirst(ms: seq<Match>, i: int)
    requires ms != []
    ensures Covered(ms, i) <==> ms[0].index <= i < ms[0].end || Covered(ms[1..], i)
  {
    if Covered(ms[1..], i) {
      var k :| 0 <= k < |ms[1..]| && ms[1..][k].index <= i < ms[1..][k].end;
      assert ms[k + 1] == ms[1..][k];
    }
    if Covered(ms, i) && !(ms[0].index <= i < ms[0].end) {
      var k :| 0 <= k < |ms| && ms[k].index <= i < ms[k].end;
      assert ms[1..][k - 1] == ms[k];
    }
  }

  lemma {:induction false} CoveredLater(text: Text, last: nat, ms: seq<Match>, i: int)
    requires WellPlaced(text, last, ms) && Covered(ms, i)
    ensures last <= i
    decreases |ms|
  {
    CoveredFirst(ms, i);
    if !(ms[0].index <= i < ms[0].end) { CoveredLater(text, ms[0].end, ms[1..], i); }
  }

  lemma {:induction false} StrayFirst(text: Text, last: nat, ms: seq<Match>)
    requires WellPlaced(text, last, ms) && ms != []
    ensures StrayEscape(text, last, ms) <==>
      ESC in text[last..ms[0].index] || StrayEscape(text, ms[0].end, ms[1..])
  {
    var m, rest := ms[0], ms[1..];
    if ESC in text[last..m.index] {
      var k :| 0 <= k < m.index - last && text[last..m.index][k] == ESC;
      CoveredFirst(ms, last + k);
      if Covered(rest, last + k) { CoveredLater(text, m.end, rest, last + k); }
      assert text[last + k] == ESC && !Covered(ms, last + k);
    }
    if StrayEscape(text, m.end, rest) {
      var i :| m.end <= i < |text| && text[i] == ESC && !Covered(rest, i);
      CoveredFirst(ms, i);
      assert !Covered(ms, i);
    }
    if StrayEscape(text, last, ms) {
      var i :| last <= i < |text| && text[i] == ESC && !Covered(ms, i);
      CoveredFirst(ms, i);
      if i < m.index { assert text[last..m.index][i - last] == ESC; }
    }
  }

  lemma {:induction false} KeptEscape(text: Text, last: nat, ms: seq<Match>)
    requires WellPlaced(text, last, ms)
    ensures ESC in Kept(text, last, ms) <==> StrayEscape(text, last, ms)
    decreases |ms|
  {
    if ms == [] {
      if ESC in text[last..] {
        var k :| 0 <= k < |text| - last && text[last..][k] == ESC;
        assert text[last + k] == ESC && !Covered(ms, last + k);
      }
      if StrayEscape(text, last, ms) {
        var i :| last <= i < |text| && text[i] == ESC && !Covered(ms, i);
        assert text[last..][i - last] == ESC;
      }
    } else {
      StrayFirst(text, last, ms);
      KeptEscape(text, ms[0].end, ms[1..]);
    }
  }

  lemma {:induction false} NoEscapeNoSequence(s: Text)
    ensures HasSequence(s) ==> ESC in s
  {
    if HasSequence(s) {
      var i :| 0 <= i < |s| && CsiLength(s[i..]) > 0;
      assert s[i..][0] == s[i] && s[i] in s;
    }
  }

  // ---------- Sequences that stripping puts together ----------

  /** How far a control sequence has come: its escape character, its bracket and parameters, its
      intermediates. */
  datatype Phase = Escaped | Params | Inter

  /** The text goes on with the rest of a sequence. */
  predicate Completes(s: Text, phase: Phase) {
    s != [] &&
    match phase
    case Escaped => s[0] == BRACKET && Completes(s[1..], Params)
    case Params =>
      || IsFinal(s[0])
      || (IsParam(s[0]) && Completes(s[1..], Params))
      || (IsIntermediate(s[0]) && Completes(s[1..], Inter))
    case Inter => IsFinal(s[0]) || (IsIntermediate(s[0]) && Completes(s[1..], Inter))
  }

  /** The same, stepping over whole sequences. */
  predicate Rejoins(s: Text, phase: Phase)
    decreases |s|
  {
    s != [] &&
    if CsiLength(s) > 0 then Rejoins(s[CsiLength(s)..], phase)
    else
      match phase
      case Escaped => s[0] == BRACKET && Rejoins(s[1..], Params)
      case Params =>
        || IsFinal(s[0])
        || (IsParam(s[0]) && Rejoins(s[1..], Params))
        || (IsIntermediate(s[0]) && Rejoins(s[1..], Inter))
      case Inter => IsFinal(s[0]) || (IsIntermediate(s[0]) && Rejoins(s[1..], Inter))
  }

  /** An escape character that starts no sequence is followed by the rest of one, whole sequences in
      between not counted. */
  predicate Rejoined(s: Text)
    decreases |s|
  {
    s != [] &&
    if CsiLength(s) > 0 then Rejoined(s[CsiLength(s)..])
    else (s[0] == ESC && Rejoins(s[1..], Escaped)) || Rejoined(s[1..])
  }

  /** From `i` on there are intermediates and a final byte. */
  predicate EndsAt(s: Text, i: nat)
    requires i <= |s|
  {
    var end := i + Run(s, i, IsIntermediate);
    end < |s| && IsFinal(s[end])
  }

  lemma {:induction false} CompletesInter(s: Text, i: nat)
    requires i <= |s|
    ensures Completes(s[i..], Inter) <==> EndsAt(s, i)
    decreases |s| - i
  {
    if i < |s| {
      assert s[i..][1..] == s[i + 1..];
      CompletesInter(s, i + 1);
    }
  }

  lemma {:induction false} CompletesParams(s: Text, i: nat)
    requires i <= |s|
    ensures Completes(s[i..], Params) <==> EndsAt(s, i + Run(s, i, IsParam))
    decreases |s| - i
  {
    if i < |s| {
      assert s[i..][1..] == s[i + 1..];
      if IsParam(s[i]) { CompletesParams(s, i + 1); } else { CompletesInter(s, i); }
    }
  }

  lemma {:induction false} CsiCompletes(s: Text)
    ensures CsiLength(s) > 0 <==> s != [] && s[0] == ESC && Completes(s[1..], Escaped)
  {
    if StartsEscape(s) {
      assert s[1..][1..] == s[2..];
      CompletesParams(s, 2);
    }
  }

  lemma {:induction false} CompletesCons(c: int, t: Text, phase: Phase)
    ensures Completes([c] + t, phase) <==>
      match phase
      case Escaped => c == BRACKET && Completes(t, Params)
      case Params => IsFinal(c) || (IsParam(c) && Completes(t, Params)) || (IsIntermediate(c) && Completes(t, Inter))
      case Inter => IsFinal(c) || (IsIntermediate(c) && Completes(t, Inter))
  {
    assert ([c] + t)[1..] == t;
  }

  lemma {:induction false} RejoinsIs(s: Text, phase: Phase)
    ensures Rejoins(s, phase) <==> Completes(StripAnsi(s), phase)
    decreases |s|
  {
    if s != [] {
      if CsiLength(s) > 0 {
        RejoinsIs(s[CsiLength(s)..], phase);
      } else {
        RejoinsIs(s[1..], Params);
        RejoinsIs(s[1..], Inter);
        CompletesCons(s[0], StripAnsi(s[1..]), phase);
      }
    }
  }

  lemma {:induction false} SequenceCons(c: int, t: Text)
    ensures HasSequence([c] + t) <==> (c == ESC && Completes(t, Escaped)) || HasSequence(t)
  {
    assert ([c] + t)[1..] == t;
    SequenceFirst([c] + t);
    CsiCompletes([c] + t);
  }

  /** What is left holds a sequence exactly when stripping has put one together. */
  lemma {:induction false} RejoinedIs(s: Text)
    ensures Rejoined(s) <==> HasSequence(StripAnsi(s))
    decreases |s|
  {
    if s != [] {
      if CsiLength(s) > 0 {
        RejoinedIs(s[CsiLength(s)..]);
      } else {
        RejoinedIs(s[1..]);
        RejoinsIs(s[1..], Escaped);
        SequenceCons(s[0], StripAnsi(s[1..]));
      }
    }
  }

  /** Stripping twice is stripping once exactly when no escape character of the text is completed across
      a sequence that goes away. An escape character is left exactly when one lies outside every match;
      if none does, once is enough. */
  lemma {:induction false} StripTwice(s: Text)
    ensures StripAnsi(StripAnsi(s)) == StripAnsi(s) <==> !Rejoined(s)
    ensures Rejoined(s) <==> HasSequence(StripAnsi(s))
    ensures ESC in StripAnsi(s) <==> StrayEscape(s, 0, Matches(s, 0))
    ensures !StrayEscape(s, 0, Matches(s, 0)) ==> !Rejoined(s)
  {
    var t := StripAnsi(s);
    StripFixes(t);
    RejoinedIs(s);
    NoEscapeNoSequence(t);
    KeptIsStripped(s, 0);
    assert s[0..] == s;
    KeptEscape(s, 0, Matches(s, 0));
  }

  lemma {:induction false} WholeCsi(s: Text)
    requires |s| >= 3 && s[0] == ESC && s[1] == BRACKET && s[2] == FINAL_M
    ensures CsiLength(s) == 3
  {
    RunExact(s, 2, IsParam, 0);
    RunExact(s, 2, IsIntermediate, 0);
  }

  /** Stripping can put two halves of a sequence together, so stripping twice can remove more. */
  lemma {:induction false} StrippingIsNotIdempotent()
    ensures StripAnsi([ESC, ESC, BRACKET, FINAL_M, BRACKET, FINAL_M]) == [ESC, BRACKET, FINAL_M]
    ensures StripAnsi([ESC, BRACKET, FINAL_M]) == []
  {
    var t := [ESC, BRACKET, FINAL_M];
    WholeCsi(t);
    var s := [ESC, ESC, BRACKET, FINAL_M, BRACKET, FINAL_M];
    assert CsiLength(s) == 0;
    var u := s[1..];
    assert u == t + [BRACKET, FINAL_M];
    WholeCsi(u);
    assert u[3..] == [BRACKET, FINAL_M];
    assert [BRACKET, FINAL_M][1..] == [FINAL_M] && [FINAL_M][1..] == [];
    assert StripAnsi([FINAL_M]) == [FINAL_M];
    assert StripAnsi([BRACKET, FINAL_M]) == [BRACKET, FINAL_M];
    assert t[3..] == [];
  }
}
