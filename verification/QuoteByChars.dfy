/** What a quoted value looks like (agents/register-agent-page.tsx, `shellQuote`). */
module QuoteByChars {
  import opened Prelude
  import opened ShellQuote

  function Chars(s: string): (t: Text)
    ensures |t| == |s| && forall i :: 0 <= i < |s| ==> t[i] == s[i] as int
  {
    seq(|s|, i requires 0 <= i < |s| => s[i] as int)
  }

  /** A letter, a digit, or one of ten marks. */
  predicate Harmless(c: int) {
    || 'a' as int <= c <= 'z' as int || 'A' as int <= c <= 'Z' as int || '0' as int <= c <= '9' as int
    || c in {
      '_' as int, '.' as int, '/' as int, ':' as int, '@' as int, '%' as int, '+' as int, '=' as int, ',' as int,
      '-' as int}
  }

  predicate AllHarmless(s: Text) { forall i :: 0 <= i < |s| ==> Harmless(s[i]) }

  /** Parts that hold no single quote, with one between any two. */
  function Apostrophed(parts: seq<Text>): Text {
    if parts == [] then [] else if |parts| == 1 then parts[0] else parts[0] + Chars("'") + Apostrophed(parts[1..])
  }

  /** The same parts, each quote written as a closing quote, a quote in double quotes and an opening quote. */
  function Reopened(parts: seq<Text>): Text {
    if parts == [] then [] else if |parts| == 1 then parts[0] else parts[0] + Chars("'\"'\"'") + Reopened(parts[1..])
  }

  lemma {:induction false} HarmlessIs(s: Text)
    ensures AllSafe(s) <==> AllHarmless(s)
  {
  }

  lemma {:induction false} EscapedAppend(a: Text, b: Text)
    ensures Escaped(a + b) == Escaped(a) + Escaped(b)
  {
    if a == [] {
      assert a + b == b;
    } else {
      EscapedAppend(a[1..], b);
      assert (a + b)[0] == a[0] && (a + b)[1..] == a[1..] + b;
      Regroup(EscapedOne(a[0]), Escaped(a[1..]), Escaped(b));
    }
  }

  lemma {:induction false} EscapedPlain(part: Text)
    requires '\'' as int !in part
    ensures Escaped(part) == part
  {
    if part != [] {
      assert part[0] in part && forall c :: c in part[1..] ==> c in part;
      EscapedPlain(part[1..]);
      assert [part[0]] + part[1..] == part;
    }
  }

  lemma {:induction false} MarksAre()
    ensures Chars("'") == [QUOTE] && Chars("'\"'\"'") == [QUOTE, DOUBLE, QUOTE, DOUBLE, QUOTE]
    ensures Escaped(Chars("'")) == Chars("'\"'\"'")
  {
    assert Chars("'")[1..] == [];
  }

  lemma {:induction false} EscapedParts(parts: seq<Text>)
    requires forall i :: 0 <= i < |parts| ==> '\'' as int !in parts[i]
    ensures Escaped(Apostrophed(parts)) == Reopened(parts)
  {
    if parts != [] {
      EscapedPlain(parts[0]);
      if |parts| > 1 {
        assert forall i :: 0 < i < |parts| ==> parts[i] == parts[1..][i - 1];
        EscapedParts(parts[1..]);
        MarksAre();
        EscapedAppend(parts[0] + Chars("'"), Apostrophed(parts[1..]));
        EscapedAppend(parts[0], Chars("'"));
      }
    }
  }

  /** A value of harmless characters stays as it is; any other, the empty one included, is put in single quotes. */
  lemma {:induction false} QuotedSays(parts: seq<Text>)
    requires forall i :: 0 <= i < |parts| ==> '\'' as int !in parts[i]
    ensures var value := Apostrophed(parts);
      Quoted(value) == if value != [] && AllHarmless(value) then value else Chars("'") + Reopened(parts) + Chars("'")
  {
    HarmlessIs(Apostrophed(parts));
    EscapedParts(parts);
    MarksAre();
  }

  /** Every value is made of such parts. */
  lemma {:induction false} EveryValue(value: Text) returns (parts: seq<Text>)
    ensures parts != [] && Apostrophed(parts) == value
    ensures forall i :: 0 <= i < |parts| ==> '\'' as int !in parts[i]
  {
    if value == [] {
      parts := [[]];
    } else {
      var rest := EveryValue(value[1..]);
      MarksAre();
      assert [value[0]] + value[1..] == value;
      if value[0] == '\'' as int {
        parts := [[]] + rest;
        assert parts[1..] == rest;
      } else {
        parts := [[value[0]] + rest[0]] + rest[1..];
        assert parts[1..] == rest[1..];
        if |rest| > 1 {
          assert [value[0]] + rest[0] + Chars("'") + Apostrophed(rest[1..]) ==
            [value[0]] + (rest[0] + Chars("'") + Apostrophed(rest[1..]));
        }
      }
    }
  }
}
