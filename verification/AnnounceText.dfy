/** Text helpers of the announcement grammar (announcements/markdown.tsx): Python's white space, runs
    of a class, splitting and joining. Every function reads a string as a sequence of numbers, which
    may be UTF-16 units or code points: AnnounceUtf16 shows that the two readings agree. */
module AnnounceText {
  import opened Prelude

  const NEWLINE := 0x0A
  const RETURN := 0x0D
  const LINE_BREAK: Text := [NEWLINE]
  const BLOCK_BREAK: Text := [NEWLINE, NEWLINE]

  /** The class `WS`: what `str.isspace()` accepts in Python. */
  predicate IsSpace(c: int) {
    || 0x09 <= c <= 0x0D || 0x1C <= c <= 0x20 || c == 0x85 || c == 0xA0 || c == 0x1680
    || 0x2000 <= c <= 0x200A || c == 0x2028 || c == 0x2029 || c == 0x202F || c == 0x205F || c == 0x3000
  }

  // ---------- Runs ----------

  /** The longest front of `s` in the class, and the rest: what a greedy `[...]*` leaves behind. */
  function Span(s: Text, p: int -> bool): (r: (Text, Text))
    ensures r.0 + r.1 == s
    ensures r.1 != [] ==> !p(r.1[0])
  {
    if s == [] || !p(s[0]) then ([], s)
    else
      var (front, rest) := Span(s[1..], p);
      ([s[0]] + front, rest)
  }

  lemma {:induction false} SpanInClass(s: Text, p: int -> bool)
    ensures forall c :: c in Span(s, p).0 ==> p(c)
  {
    if s != [] && p(s[0]) { SpanInClass(s[1..], p); }
  }

  /** Those two facts determine the run. */
  lemma {:induction false} SpanUnique(front: Text, rest: Text, p: int -> bool)
    requires forall c :: c in front ==> p(c)
    requires rest != [] ==> !p(rest[0])
    ensures Span(front + rest, p) == (front, rest)
  {
    if front == [] {
      assert front + rest == rest;
    } else {
      SpanUnique(front[1..], rest, p);
      var s := front + rest;
      assert front[0] in front && s[0] == front[0] && p(s[0]);
      assert s[1..] == front[1..] + rest;
      assert Span(s, p).0 == [s[0]] + front[1..];
      assert [front[0]] + front[1..] == front;
    }
  }

  // ---------- Stripping ----------

  function Lstrip(s: Text): Text {
    if s != [] && IsSpace(s[0]) then Lstrip(s[1..]) else s
  }

  function Rstrip(s: Text): (r: Text)
    ensures r <= s
    ensures r != [] ==> !IsSpace(r[|r| - 1])
  {
    if s != [] && IsSpace(s[|s| - 1]) then Rstrip(s[..|s| - 1]) else s
  }

  /** `pyRstrip`, with its loop. */
  method PyRstrip(s: Text) returns (r: Text)
    ensures r == Rstrip(s)
  {
    var end := |s|;
    assert s[..|s|] == s;
    while end > 0 && IsSpace(s[end - 1])
      invariant 0 <= end <= |s|
      invariant Rstrip(s[..end]) == Rstrip(s)
    {
      assert s[..end][..end - 1] == s[..end - 1];
      end := end - 1;
    }
    r := if end == |s| then s else s[..end];
  }

  /** `pyStrip` */
  function Strip(s: Text): Text { Lstrip(Rstrip(s)) }

  /** No white space at either end. */
  predicate Unpadded(s: Text) {
    s == [] || (!IsSpace(s[0]) && !IsSpace(s[|s| - 1]))
  }

  lemma {:induction false} LstripShape(s: Text)
    ensures |Lstrip(s)| <= |s|
    ensures Lstrip(s) != [] ==> !IsSpace(Lstrip(s)[0]) && Lstrip(s)[|Lstrip(s)| - 1] == s[|s| - 1]
    ensures Lstrip(s) == s <==> s == [] || !IsSpace(s[0])
  {
    if s != [] && IsSpace(s[0]) { LstripShape(s[1..]); }
  }

  lemma {:induction false} LstripIsShorter(s: Text)
    requires s != []
    ensures IsSpace(s[0]) ==> |Lstrip(s)| < |s|
  {
    LstripShape(s[1..]);
  }

  /** Stripping leaves the text alone exactly when it is not padded, and is shorter otherwise. */
  lemma {:induction false} StripShape(s: Text)
    ensures Unpadded(Strip(s))
    ensures Strip(s) == s <==> Unpadded(s)
    ensures |Strip(s)| <= |s|
    ensures |Strip(s)| == |s| <==> Unpadded(s)
  {
    LstripShape(Rstrip(s));
    if Unpadded(s) {
      assert Rstrip(s) == s;
    } else if |Strip(s)| == |s| {
      assert Rstrip(s) == s;
      LstripIsShorter(s);
    }
  }

  // ---------- Splitting ----------

  /** `s.split(sep)` */
  function Split(s: Text, sep: Text): (parts: seq<Text>)
    requires sep != []
    ensures parts != []
    decreases |s|
  {
    if s == [] then [[]]
    else if sep <= s then [[]] + Split(s[|sep|..], sep)
    else
      var rest := Split(s[1..], sep);
      [[s[0]] + rest[0]] + rest[1..]
  }

  /** `parts.join(sep)` */
  function Join(parts: seq<Text>, sep: Text): Text {
    if parts == [] then []
    else if |parts| == 1 then parts[0]
    else parts[0] + sep + Join(parts[1..], sep)
  }

  lemma {:induction false} JoinCons(c: int, parts: seq<Text>, sep: Text)
    requires parts != []
    ensures Join([[c] + parts[0]] + parts[1..], sep) == [c] + Join(parts, sep)
  {
    var more := [[c] + parts[0]] + parts[1..];
    assert more[1..] == parts[1..];
    if |parts| > 1 {
      assert [c] + parts[0] + sep + Join(parts[1..], sep) == [c] + (parts[0] + sep + Join(parts[1..], sep));
    }
  }

  /** Joining undoes splitting. */
  lemma {:induction false} JoinSplit(s: Text, sep: Text)
    requires sep != []
    ensures Join(Split(s, sep), sep) == s
    decreases |s|
  {
    if s == [] {
    } else if sep <= s {
      var rest := Split(s[|sep|..], sep);
      JoinSplit(s[|sep|..], sep);
      assert ([[]] + rest)[1..] == rest;
      assert [] + sep + s[|sep|..] == s;
    } else {
      JoinSplit(s[1..], sep);
      JoinCons(s[0], Split(s[1..], sep), sep);
      assert [s[0]] + s[1..] == s;
    }
  }

  lemma {:induction false} SplitOne(line: Text, c: int)
    requires c !in line
    ensures Split(line, [c]) == [line]
  {
    if line != [] {
      assert line[0] in line && [c][0] == c;
      SplitOne(line[1..], c);
      assert [line[0]] + line[1..] == line;
    }
  }

  lemma {:induction false} SplitFirst(line: Text, rest: Text, c: int)
    requires c !in line
    ensures Split(line + [c] + rest, [c]) == [line] + Split(rest, [c])
  {
    var s := line + [c] + rest;
    if line == [] {
      assert s[1..] == rest && [c] <= s;
    } else {
      assert s[0] == line[0] && s[1..] == line[1..] + [c] + rest;
      assert !([c] <= s);
      SplitFirst(line[1..], rest, c);
      assert [line[0]] + line[1..] == line;
      assert ([line[1..]] + Split(rest, [c]))[1..] == Split(rest, [c]);
    }
  }

  /** Splitting at a character undoes joining with it. */
  lemma {:induction false} SplitJoin(lines: seq<Text>, c: int)
    requires lines != [] && forall i :: 0 <= i < |lines| ==> c !in lines[i]
    ensures Split(Join(lines, [c]), [c]) == lines
  {
    if |lines| == 1 {
      SplitOne(lines[0], c);
      assert lines == [lines[0]];
    } else {
      SplitJoin(lines[1..], c);
      SplitFirst(lines[0], Join(lines[1..], [c]), c);
      assert lines == [lines[0]] + lines[1..];
    }
  }

  lemma {:induction false} SplitParts(s: Text, c: int)
    ensures forall i :: 0 <= i < |Split(s, [c])| ==> c !in Split(s, [c])[i]
    decreases |s|
  {
    if s != [] {
      SplitParts(s[1..], c);
      if [c] <= s {
        var rest := Split(s[1..], [c]);
        assert Split(s, [c]) == [[]] + rest;
      }
    }
  }
}
