/** What a text weighs once it is written inside a JSON string. */
module EscapedText {
  import opened Json
  import opened TokenEstimation

  /** Weight of a text once it is written inside a JSON string. */
  function EscapedWeight(s: string): nat {
    Weight(Escape(s))
  }

  lemma {:induction false} EscapeConcat(a: string, b: string)
    ensures Escape(a + b) == Escape(a) + Escape(b)
  {
    hide EscapeChar;
    if a == "" {
      assert a + b == b;
    } else {
      EscapeConcat(a[1..], b);
      assert (a + b)[1..] == a[1..] + b;
      JoinThree(EscapeChar(a[0]), Escape(a[1..]), Escape(b));
    }
  }

  lemma JoinThree(a: string, b: string, c: string)
    ensures a + (b + c) == (a + b) + c
  {
  }

  lemma EscapedConcat(a: string, b: string)
    ensures EscapedWeight(a + b) == EscapedWeight(a) + EscapedWeight(b)
  {
    EscapeConcat(a, b);
    WeightConcat(Escape(a), Escape(b));
    hide Weight, Escape;
  }

  lemma {:induction false} EscapedAtLeast(s: string)
    ensures EscapedWeight(s) >= Weight(s) >= |s|
  {
    if s == "" {
      AsciiTextWeight("");
    } else {
      var c, rest := [s[0]], s[1..];
      EscapedAtLeast(rest);
      assert s == c + rest;
      WeightConcat(c, rest);
      CharEscaped(s[0]);
      WeightConcat(EscapeChar(s[0]), Escape(rest));
      hide Weight, EscapeChar;
    }
  }

  lemma {:induction false} EscapedAtMost(s: string)
    ensures EscapedWeight(s) <= 6 * |s|
  {
    hide Weight, EscapeChar;
    if s == "" {
      AsciiTextWeight("");
    } else {
      EscapedAtMost(s[1..]);
      CharEscaped(s[0]);
      WeightConcat(EscapeChar(s[0]), Escape(s[1..]));
    }
  }

  lemma CharEscaped(c: char)
    ensures Weight([c]) <= Weight(EscapeChar(c)) <= 6
    ensures 1 <= Weight([c]) <= 4
  {
    if EscapeChar(c) != [c] {
      AsciiTextWeight(EscapeChar(c));
      AsciiTextWeight([c]);
    }
  }

  /** Printable ASCII that JSON writes as it is. */
  predicate Plain(s: string) {
    forall i :: 0 <= i < |s| ==> 32 <= s[i] as int < 127 && s[i] != '\"' && s[i] != '\\'
  }

  lemma {:induction false} PlainIsItself(s: string)
    requires Plain(s)
    ensures Escape(s) == s
  {
    if s != "" {
      PlainIsItself(s[1..]);
      assert s == [s[0]] + s[1..];
    }
  }

  lemma PlainEscape(s: string)
    requires Plain(s)
    ensures Escape(s) == s && EscapedWeight(s) == |s|
  {
    PlainIsItself(s);
    AsciiTextWeight(s);
    hide Escape, Weight;
  }

  lemma QuotedWeight(s: string)
    ensures EscapedWeight(Quote(s)) == 4 + EscapedWeight(Escape(s))
  {
    EscapedConcat("\"" + Escape(s), "\"");
    EscapedConcat("\"", Escape(s));
    QuoteMark();
    hide EscapedWeight, Escape;
  }

  lemma QuoteMark()
    ensures EscapedWeight("\"") == 2
  {
    assert Escape("\"") == "\\\"" + Escape("\""[1..]);
    AsciiTextWeight("\\\"");
  }

  lemma Quoted(s: string)
    ensures EscapedWeight(Quote(s)) >= 4 + |s|
    ensures Plain(s) ==> EscapedWeight(Quote(s)) == 4 + |s|
  {
    QuotedWeight(s);
    EscapedAtLeast(s);
    EscapedAtLeast(Escape(s));
    if Plain(s) {
      PlainEscape(s);
    }
    hide Plain;
  }
}
