/** Quoting a value for a command line (agents/register-agent-page.tsx, `shellQuote`), read back by the
    quoting rules of sections 2.2.1 to 2.2.3 of the POSIX Shell Command Language. */
module ShellQuote {
  import opened Prelude

  const QUOTE := 0x27
  const DOUBLE := 0x22
  const BACKSLASH := 0x5C
  const DOLLAR := 0x24
  const BACKTICK := 0x60
  const NEWLINE := 0x0A

  /** `[A-Za-z0-9_./:@%+=,-]` */
  predicate IsSafe(c: int) {
    || 0x41 <= c <= 0x5A || 0x61 <= c <= 0x7A || 0x30 <= c <= 0x39
    || c in {0x5F, 0x2E, 0x2F, 0x3A, 0x40, 0x25, 0x2B, 0x3D, 0x2C, 0x2D}
  }

  predicate AllSafe(s: Text) {
    forall i :: 0 <= i < |s| ==> IsSafe(s[i])
  }

  function EscapedOne(c: int): Text {
    if c == QUOTE then [QUOTE, DOUBLE, QUOTE, DOUBLE, QUOTE] else [c]
  }

  /** `value.replaceAll("'", "'\"'\"'")` */
  function Escaped(value: Text): Text {
    if value == [] then []
    else EscapedOne(value[0]) + Escaped(value[1..])
  }

  function Quoted(value: Text): Text {
    if value != [] && AllSafe(value) then value else [QUOTE] + Escaped(value) + [QUOTE]
  }

  // ---------- The shell's side ----------

  /** The characters that section 2.2 asks to be quoted wherever they stand: `|`, `&`, `;`, `<`, `>`, `(`,
      `)`, `$`, the backtick, the backslash, both quotes, space, tab and newline. */
  predicate AlwaysSpecial(c: int) {
    c in {0x7C, 0x26, 0x3B, 0x3C, 0x3E, 0x28, 0x29, DOLLAR, BACKTICK, BACKSLASH, DOUBLE, QUOTE, 0x20, 0x09, NEWLINE}
  }

  /** `*`, `?` and `[`, which make a word a pattern for file names. */
  predicate IsGlob(c: int) { c in {0x2A, 0x3F, 0x5B} }

  /** `#` and `~`, which are special where a word starts: a comment, a home directory. */
  predicate StartSpecial(c: int) { c in {0x23, 0x7E} }

  /** The character stands for itself outside quotes, at the start of a word or further on. */
  predicate Literal(c: int, start: bool) {
    !AlwaysSpecial(c) && !IsGlob(c) && !(start && StartSpecial(c))
  }

  /** Every character of the text stands for itself. */
  predicate LiteralText(s: Text, start: bool) {
    s == [] || (Literal(s[0], start) && LiteralText(s[1..], false))
  }

  /** Where the shell is: between words, or in a word of which `word` has been read. */
  datatype Place = Between | Bare(word: Text) | InSingle(word: Text) | InDouble(word: Text)

  predicate IsQuoting(place: Place) { place.InSingle? || place.InDouble? }

  predicate IsBlank(c: int) { c == 0x20 || c == 0x09 }

  /** The word so far, at a place where one may be. */
  function WordOf(place: Place): Text {
    if place.Between? then [] else place.word
  }

  function Finish(place: Place, words: seq<Text>): Option<seq<Text>> {
    match place
    case Between => Some(words)
    case Bare(word) => Some(words + [word])
    case InSingle(_) => None
    case InDouble(_) => None
  }

  /** The words of a simple command. `None` for an open quote, and for a character that is special
      where it stands, quotes and blanks apart: an operator, an expansion, a pattern, a comment. */
  function Words(s: Text, place: Place, words: seq<Text>): Option<seq<Text>>
    decreases |s|
  {
    if s == [] then Finish(place, words)
    else
      match place
      case InSingle(word) =>
        Words(s[1..], if s[0] == QUOTE then Bare(word) else InSingle(word + [s[0]]), words)
      case InDouble(word) =>
        if s[0] == DOUBLE then Words(s[1..], Bare(word), words)
        else if s[0] == DOLLAR || s[0] == BACKTICK then None
        else if s[0] == BACKSLASH && |s| > 1 && s[1] in {DOLLAR, BACKTICK, DOUBLE, BACKSLASH} then
          Words(s[2..], InDouble(word + [s[1]]), words)
        else if s[0] == BACKSLASH && |s| > 1 && s[1] == NEWLINE then Words(s[2..], place, words)
        else Words(s[1..], InDouble(word + [s[0]]), words)
      case _ =>
        if IsBlank(s[0]) then Words(s[1..], Between, if place.Bare? then words + [place.word] else words)
        else if s[0] == QUOTE then Words(s[1..], InSingle(WordOf(place)), words)
        else if s[0] == DOUBLE then Words(s[1..], InDouble(WordOf(place)), words)
        else if s[0] == BACKSLASH then
          if |s| == 1 then None
          else if s[1] == NEWLINE then Words(s[2..], place, words)
          else Words(s[2..], Bare(WordOf(place) + [s[1]]), words)
        else if Literal(s[0], place.Between?) then Words(s[1..], Bare(WordOf(place) + [s[0]]), words)
        else None
  }

  function CommandWords(s: Text): Option<seq<Text>> {
    Words(s, Between, [])
  }

  // ---------- Reading back ----------

  /** A character that needs no quotes by the program's test has no special meaning by the standard's. */
  lemma {:induction false} SafeIsLiteral(c: int, start: bool)
    requires IsSafe(c)
    ensures Literal(c, start)
  {
  }

  lemma {:induction false} SafeTextIsLiteral(value: Text, start: bool)
    requires AllSafe(value)
    ensures LiteralText(value, start)
  {
    if value != [] {
      SafeIsLiteral(value[0], start);
      SafeTextIsLiteral(value[1..], false);
    }
  }

  lemma {:induction false} LiteralRun(value: Text, rest: Text, place: Place, words: seq<Text>)
    requires value != [] && !IsQuoting(place) && LiteralText(value, place.Between?)
    ensures Words(value + rest, place, words) == Words(rest, Bare(WordOf(place) + value), words)
  {
    var s := value + rest;
    var next := Bare(WordOf(place) + [value[0]]);
    assert s[1..] == value[1..] + rest && s[0] == value[0];
    assert Words(s, place, words) == Words(s[1..], next, words);
    if |value| == 1 {
      assert s[1..] == rest && [value[0]] == value;
    } else {
      LiteralRun(value[1..], rest, next, words);
      assert WordOf(place) + [value[0]] + value[1..] == WordOf(place) + value;
    }
  }

  /** The five characters that stand for one quote: leave the quotes, a quoted quote, and back. */
  lemma {:induction false} QuoteInQuotes(word: Text, rest: Text, words: seq<Text>)
    ensures Words([QUOTE, DOUBLE, QUOTE, DOUBLE, QUOTE] + rest, InSingle(word), words) ==
      Words(rest, InSingle(word + [QUOTE]), words)
  {
    var s := [QUOTE, DOUBLE, QUOTE, DOUBLE, QUOTE] + rest;
    assert s[1..][0] == DOUBLE && s[2..][0] == QUOTE && s[3..][0] == DOUBLE && s[4..][0] == QUOTE;
    assert s[1..][1..] == s[2..] && s[2..][1..] == s[3..] && s[3..][1..] == s[4..] && s[4..][1..] == rest;
    assert Words(s, InSingle(word), words) == Words(s[1..], Bare(word), words);
    assert Words(s[1..], Bare(word), words) == Words(s[2..], InDouble(word), words);
    assert Words(s[2..], InDouble(word), words) == Words(s[3..], InDouble(word + [QUOTE]), words);
    assert Words(s[3..], InDouble(word + [QUOTE]), words) == Words(s[4..], Bare(word + [QUOTE]), words);
    assert Words(s[4..], Bare(word + [QUOTE]), words) == Words(rest, InSingle(word + [QUOTE]), words);
  }

  lemma {:induction false} OneInQuotes(c: int, word: Text, rest: Text, words: seq<Text>)
    requires c != QUOTE
    ensures Words([c] + rest, InSingle(word), words) == Words(rest, InSingle(word + [c]), words)
  {
    assert ([c] + rest)[1..] == rest;
  }

  lemma {:induction false} OneEscaped(c: int, word: Text, rest: Text, words: seq<Text>)
    ensures Words(EscapedOne(c) + rest, InSingle(word), words) == Words(rest, InSingle(word + [c]), words)
  {
    if c == QUOTE { QuoteInQuotes(word, rest, words); } else { OneInQuotes(c, word, rest, words); }
  }

  lemma {:induction false} EscapedStep(value: Text, rest: Text, word: Text, words: seq<Text>)
    requires value != []
    ensures Words(Escaped(value) + [QUOTE] + rest, InSingle(word), words) ==
            Words(Escaped(value[1..]) + [QUOTE] + rest, InSingle(word + [value[0]]), words)
  {
    var tail := Escaped(value[1..]) + [QUOTE] + rest;
    Regroup(EscapedOne(value[0]), Escaped(value[1..]), [QUOTE]);
    Regroup(EscapedOne(value[0]), Escaped(value[1..]) + [QUOTE], rest);
    assert Escaped(value) + [QUOTE] + rest == EscapedOne(value[0]) + tail;
    OneEscaped(value[0], word, tail, words);
  }

  lemma {:induction false} EscapedRun(value: Text, rest: Text, word: Text, words: seq<Text>)
    ensures Words(Escaped(value) + [QUOTE] + rest, InSingle(word), words) == Words(rest, Bare(word + value), words)
    decreases |value|
  {
    if value == [] {
      assert Escaped(value) + [QUOTE] + rest == [QUOTE] + rest;
      assert ([QUOTE] + rest)[1..] == rest;
      assert word + value == word;
    } else {
      EscapedRun(value[1..], rest, word + [value[0]], words);
      EscapedStep(value, rest, word, words);
      assert word + [value[0]] + value[1..] == word + value;
    }
  }

  /** A quoted value, wherever it starts a word, is read as that value and nothing more. */
  lemma {:induction false} QuotedIsOneWord(value: Text, rest: Text, words: seq<Text>)
    ensures Words(Quoted(value) + rest, Between, words) == Words(rest, Bare(value), words)
  {
    if value != [] && AllSafe(value) {
      SafeTextIsLiteral(value, true);
      LiteralRun(value, rest, Between, words);
      assert WordOf(Between) + value == value;
    } else {
      var s := [QUOTE] + (Escaped(value) + [QUOTE] + rest);
      assert Quoted(value) + rest == s;
      assert s[1..] == Escaped(value) + [QUOTE] + rest;
      EscapedRun(value, rest, [], words);
      assert [] + value == value;
    }
  }

  lemma {:induction false} LastWord(value: Text, words: seq<Text>)
    ensures Words(Quoted(value), Between, words) == Some(words + [value])
  {
    QuotedIsOneWord(value, [], words);
    assert Quoted(value) + [] == Quoted(value);
  }

  /** The round trip, for every value, the empty one included. */
  lemma {:induction false} QuoteRoundTrip(value: Text)
    ensures CommandWords(Quoted(value)) == Some([value])
  {
    LastWord(value, []);
    assert [] + [value] == [value];
  }

  /** `values.map(shellQuote).join(" ")` */
  function CommandLine(values: seq<Text>): Text {
    if values == [] then []
    else if |values| == 1 then Quoted(values[0])
    else Quoted(values[0]) + [0x20] + CommandLine(values[1..])
  }

  lemma {:induction false} BlankEnds(word: Text, rest: Text, words: seq<Text>)
    ensures Words([0x20] + rest, Bare(word), words) == Words(rest, Between, words + [word])
  {
    assert ([0x20] + rest)[1..] == rest;
  }

  lemma {:induction false} WordThenMore(value: Text, rest: Text, words: seq<Text>)
    ensures Words(Quoted(value) + [0x20] + rest, Between, words) == Words(rest, Between, words + [value])
  {
    QuotedIsOneWord(value, [0x20] + rest, words);
    assert Quoted(value) + [0x20] + rest == Quoted(value) + ([0x20] + rest);
    BlankEnds(value, rest, words);
  }

  lemma {:induction false} CommandLineWords(values: seq<Text>, words: seq<Text>)
    ensures Words(CommandLine(values), Between, words) == Some(words + values)
    decreases |values|
  {
    if values == [] {
      assert words + values == words;
    } else if |values| == 1 {
      LastWord(values[0], words);
      assert [values[0]] == values;
    } else {
      WordThenMore(values[0], CommandLine(values[1..]), words);
      CommandLineWords(values[1..], words + [values[0]]);
      assert words + [values[0]] + values[1..] == words + values;
    }
  }

  /** Quoting is safe in company: a line of quoted values is read as exactly those values. */
  lemma {:induction false} LineRoundTrip(values: seq<Text>)
    ensures CommandWords(CommandLine(values)) == Some(values)
  {
    CommandLineWords(values, []);
    assert [] + values == values;
  }

  /** How many characters a list of words has. */
  function Total(words: seq<Text>): nat {
    if words == [] then 0 else Total(words[..|words| - 1]) + |words[|words| - 1]|
  }

  /** Every character of `s`, read from this place on, stands for itself. */
  predicate Plain(s: Text, place: Place) {
    !IsQuoting(place) && LiteralText(s, place.Between?)
  }

  /** The next character stands for itself. */
  predicate PlainHead(s: Text, place: Place)
    requires s != []
  {
    !IsQuoting(place) && Literal(s[0], place.Between?)
  }

  /** The most characters that the words can have after reading `s`. */
  function Bound(s: Text, place: Place, words: seq<Text>): int {
    Total(words) + |WordOf(place)| + |s| - (if Plain(s, place) then 0 else 1)
  }

  lemma {:induction false} TotalPush(words: seq<Text>, word: Text)
    ensures Total(words + [word]) == Total(words) + |word|
  {
    assert (words + [word])[..|words|] == words;
  }

  /** One step of reading never raises the bound. */
  lemma {:induction false} BoundStep(s: Text, place: Place, words: seq<Text>, n: nat, next: Place, words1: seq<Text>)
    requires 0 < n <= |s|
    requires Total(words1) + |WordOf(next)| <= Total(words) + |WordOf(place)| + n
    requires !PlainHead(s, place) ==>
      IsQuoting(next) || Total(words1) + |WordOf(next)| < Total(words) + |WordOf(place)| + n
    requires PlainHead(s, place) ==> n == 1 && next.Bare?
    ensures Bound(s[n..], next, words1) <= Bound(s, place, words)
  {
    assert Plain(s, place) <==> PlainHead(s, place) && LiteralText(s[1..], false);
  }

  /** Words take at most the characters that were there; anything but literal text takes fewer. */
  lemma {:induction false} WordsShrink(s: Text, place: Place, words: seq<Text>)
    requires Words(s, place, words).Some?
    ensures Total(Words(s, place, words).value) <= Bound(s, place, words)
    decreases |s|
  {
    if s == [] {
      if place.Bare? { TotalPush(words, place.word); }
    } else if place.InSingle? {
      var next := if s[0] == QUOTE then Bare(place.word) else InSingle(place.word + [s[0]]);
      ShrinkStep(s, place, words, 1, next, words);
    } else if place.InDouble? {
      if s[0] == DOUBLE {
        ShrinkStep(s, place, words, 1, Bare(place.word), words);
      } else if s[0] == BACKSLASH && |s| > 1 && s[1] in {DOLLAR, BACKTICK, DOUBLE, BACKSLASH} {
        ShrinkStep(s, place, words, 2, InDouble(place.word + [s[1]]), words);
      } else if s[0] == BACKSLASH && |s| > 1 && s[1] == NEWLINE {
        ShrinkStep(s, place, words, 2, place, words);
      } else {
        ShrinkStep(s, place, words, 1, InDouble(place.word + [s[0]]), words);
      }
    } else if IsBlank(s[0]) {
      if place.Bare? { TotalPush(words, place.word); }
      ShrinkStep(s, place, words, 1, Between, if place.Bare? then words + [place.word] else words);
    } else if s[0] == QUOTE {
      ShrinkStep(s, place, words, 1, InSingle(WordOf(place)), words);
    } else if s[0] == DOUBLE {
      ShrinkStep(s, place, words, 1, InDouble(WordOf(place)), words);
    } else if s[0] == BACKSLASH && s[1] == NEWLINE {
      ShrinkStep(s, place, words, 2, place, words);
    } else if s[0] == BACKSLASH {
      ShrinkStep(s, place, words, 2, Bare(WordOf(place) + [s[1]]), words);
    } else {
      ShrinkStep(s, place, words, 1, Bare(WordOf(place) + [s[0]]), words);
    }
  }

  lemma {:induction false} ShrinkStep(s: Text, place: Place, words: seq<Text>, n: nat, next: Place, words1: seq<Text>)
    requires 0 < n <= |s|
    requires Words(s, place, words).Some? && Words(s, place, words) == Words(s[n..], next, words1)
    requires Total(words1) + |WordOf(next)| <= Total(words) + |WordOf(place)| + n
    requires !PlainHead(s, place) ==>
      IsQuoting(next) || Total(words1) + |WordOf(next)| < Total(words) + |WordOf(place)| + n
    requires PlainHead(s, place) ==> n == 1 && next.Bare?
    ensures Total(Words(s, place, words).value) <= Bound(s, place, words)
    decreases |s|, 0
  {
    BoundStep(s, place, words, n, next, words1);
    WordsShrink(s[n..], next, words1);
  }

  /** Bare text is read as itself just when it is not empty and no character of it is special. */
  lemma {:induction false} BareIsExact(value: Text)
    ensures CommandWords(value) == Some([value]) <==> value != [] && LiteralText(value, true)
  {
    assert CommandWords([]) == Some([]);
    assert [] + [value] == [value] && [] + value == value;
    if value != [] && LiteralText(value, true) {
      LiteralRun(value, [], Between, []);
      assert value + [] == value;
    } else if CommandWords(value) == Some([value]) {
      TotalPush([], value);
      WordsShrink(value, Between, []);
    }
  }

  lemma {:induction false} EscapedIsLonger(value: Text)
    ensures |Escaped(value)| >= |value|
  {
    if value != [] { EscapedIsLonger(value[1..]); }
  }

  /** The quotes are left off just for the safe texts, all of which may go bare; they are put on
      without need just round the other literal ones. */
  lemma {:induction false} QuotesLeftOff(value: Text)
    ensures Quoted(value) == value <==> value != [] && AllSafe(value)
    ensures Quoted(value) == value ==> CommandWords(value) == Some([value])
    ensures Quoted(value) != value && CommandWords(value) == Some([value]) <==>
      LiteralText(value, true) && !AllSafe(value)
  {
    EscapedIsLonger(value);
    BareIsExact(value);
    if AllSafe(value) { SafeTextIsLiteral(value, true); }
  }

  // ---------- The first word ----------

  predicate IsNameStart(c: int) {
    0x41 <= c <= 0x5A || 0x61 <= c <= 0x7A || c == 0x5F
  }

  predicate IsName(s: Text) {
    && s != []
    && IsNameStart(s[0])
    && forall i :: 0 <= i < |s| ==> IsNameStart(s[i]) || 0x30 <= s[i] <= 0x39
  }

  /** The word opens with `name=`, unquoted: as the first of its command it is an assignment
      (section 2.9.1), not a command name. */
  predicate IsAssignmentWord(s: Text) {
    exists n :: 0 < n < |s| && s[n] == 0x3D && IsName(s[..n])
  }

  lemma {:induction false} AssignmentStart(s: Text)
    ensures IsAssignmentWord(s) ==> s != [] && IsNameStart(s[0])
  {
    if n :| 0 < n < |s| && s[n] == 0x3D && IsName(s[..n]) {
      assert s[..n][0] == s[0];
    }
  }

  /** Quoting hides an assignment just when it uses quotes: a value like `A=b` keeps that meaning as the
      first word of a line. */
  lemma {:induction false} AssignmentShows(value: Text)
    ensures IsAssignmentWord(Quoted(value)) <==> AllSafe(value) && IsAssignmentWord(value)
  {
    AssignmentStart(value);
    AssignmentStart(Quoted(value));
  }
}
