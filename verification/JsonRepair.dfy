/** Closing a JSON object that a model's output limit has cut off. */
module JsonRepair {
  import opened Options
  import opened PyText

  /** Where a scan of JSON text is: the closers still owed, the innermost last. */
  datatype Scan =
    | Broken
    | Scan(owed: string, inString: bool, escaped: bool)

  const START := Scan("", false, false)

  function Advance(s: Scan, c: char): Scan {
    if s.Broken? then Broken
    else if s.inString then
      if s.escaped then s.(escaped := false)
      else if c == '\\' then s.(escaped := true)
      else if c == '\"' then s.(inString := false)
      else s
    else if c == '\"' then s.(inString := true)
    else if c == '{' then s.(owed := s.owed + "}")
    else if c == '[' then s.(owed := s.owed + "]")
    else if c == '}' || c == ']' then
      if s.owed == "" || s.owed[|s.owed| - 1] != c then Broken else s.(owed := s.owed[..|s.owed| - 1])
    else s
  }

  function Read(s: Scan, text: string): Scan
    decreases |text|
  {
    if text == "" then s else Advance(Read(s, text[..|text| - 1]), text[|text| - 1])
  }

  function Reversed(text: string): string {
    if text == "" then "" else [text[|text| - 1]] + Reversed(text[..|text| - 1])
  }

  /** The text without a trailing comma and the blanks before it. */
  function DropComma(text: string): string {
    if text != "" && text[|text| - 1] == ',' then StripRight(text[..|text| - 1]) else text
  }

  /** The kind and place of the parse error say that the text just stops. */
  predicate JustStops(stripped: string, unterminated: bool, position: nat) {
    var last := if |stripped| == 0 then 0 else |stripped| - 1;
    "{" <= stripped && (unterminated || position >= last)
  }

  /** The text with what it owes put after it. */
  function Complete(stripped: string, inString: bool, owed: string): string {
    (if inString then stripped + "\"" else DropComma(stripped)) + Reversed(owed)
  }

  /** The object completed, if it can be. */
  function Candidate(text: string, unterminated: bool, position: nat): Option<string> {
    var stripped := Strip(text);
    var scan := Read(START, stripped);
    if !JustStops(stripped, unterminated, position) || scan.Broken? || scan.escaped || scan.owed == "" then None
    else Some(Complete(stripped, scan.inString, scan.owed))
  }

  /** `parses` says whether text is the JSON text of an object. */
  method RepairTruncatedObject(text: string, unterminated: bool, position: nat, parses: string -> bool)
    returns (repaired: Option<string>)
    ensures
      var candidate := Candidate(text, unterminated, position);
      repaired == if candidate.Some? && parses(candidate.value) then candidate else None
  {
    hide Strip, StripRight;
    var stripped := Strip(text);
    if !JustStops(stripped, unterminated, position) {
      return None;
    }
    var owed: string := "";
    var inString, escaped := false, false;
    for i := 0 to |stripped|
      invariant Read(START, stripped[..i]) == Scan(owed, inString, escaped)
    {
      var c := stripped[i];
      assert stripped[..i + 1][..i] == stripped[..i];
      if inString {
        if escaped {
          escaped := false;
        } else if c == '\\' {
          escaped := true;
        } else if c == '\"' {
          inString := false;
        }
        continue;
      }
      if c == '\"' {
        inString := true;
      } else if c == '{' {
        owed := owed + "}";
      } else if c == '[' {
        owed := owed + "]";
      } else if c == '}' || c == ']' {
        if owed == "" || owed[|owed| - 1] != c {
          BrokenStays(START, stripped, i + 1);
          return None;
        }
        owed := owed[..|owed| - 1];
      }
    }
    assert stripped[..|stripped|] == stripped;
    if escaped || owed == "" {
      return None;
    }
    var candidate := stripped;
    if inString {
      candidate := candidate + "\"";
    } else if candidate != "" && candidate[|candidate| - 1] == ',' {
      candidate := StripRight(candidate[..|candidate| - 1]);
    }
    candidate := candidate + Reversed(owed);
    repaired := if parses(candidate) then Some(candidate) else None;
  }

  lemma {:induction false} BrokenStays(s: Scan, text: string, n: nat)
    requires n <= |text| && Read(s, text[..n]).Broken?
    ensures Read(s, text).Broken?
  {
    if n == |text| {
      assert text[..n] == text;
    } else {
      var front := text[..|text| - 1];
      assert front[..n] == text[..n];
      BrokenStays(s, front, n);
    }
  }

  // ---------------------------------------------------------------- reading on

  lemma {:induction false} ReadJoins(s: Scan, a: string, b: string)
    ensures Read(s, a + b) == Read(Read(s, a), b)
  {
    if b == "" {
      assert a + b == a;
    } else {
      var front := b[..|b| - 1];
      assert (a + b)[..|a + b| - 1] == a + front;
      ReadJoins(s, a, front);
    }
  }

  /** Closers, as scanning owes them. */
  ghost predicate Closers(owed: string) {
    forall i :: 0 <= i < |owed| ==> owed[i] == '}' || owed[i] == ']'
  }

  lemma {:induction false} OwedAreClosers(text: string)
    ensures !Read(START, text).Broken? ==> Closers(Read(START, text).owed)
  {
    if text != "" {
      OwedAreClosers(text[..|text| - 1]);
    }
  }

  /** Reading the owed closers, innermost first, pays them all. */
  lemma {:induction false} PayingClosers(owed: string)
    requires Closers(owed)
    ensures Read(Scan(owed, false, false), Reversed(owed)) == START
  {
    if owed != "" {
      var front, last := owed[..|owed| - 1], owed[|owed| - 1];
      PayingClosers(front);
      ReadJoins(Scan(owed, false, false), [last], Reversed(front));
      assert [last][..0] == "";
      assert Read(Scan(owed, false, false), [last]) == Advance(Scan(owed, false, false), last);
    }
  }

  /** Blanks and commas outside a string do not count. */
  lemma PlainCharacter(text: string)
    requires text != "" && (IsSpace(text[|text| - 1]) || text[|text| - 1] == ',')
    requires !Read(START, text).Broken? && !Read(START, text).inString
    ensures Read(START, text[..|text| - 1]) == Read(START, text)
  {
    var before, c := Read(START, text[..|text| - 1]), text[|text| - 1];
    assert Read(START, text) == Advance(before, c);
    hide Read;
    PlainAdvance(before, c);
  }

  lemma PlainAdvance(s: Scan, c: char)
    requires (IsSpace(c) || c == ',') && !Advance(s, c).Broken? && !Advance(s, c).inString
    ensures Advance(s, c) == s
  {
  }

  lemma {:induction false} BlanksDoNotCount(text: string)
    requires !Read(START, text).Broken? && !Read(START, text).inString
    ensures Read(START, StripRight(text)) == Read(START, text)
  {
    if text != "" && IsSpace(text[|text| - 1]) {
      PlainCharacter(text);
      BlanksDoNotCount(text[..|text| - 1]);
    }
  }

  lemma CommaDoesNotCount(text: string)
    requires !Read(START, text).Broken? && !Read(START, text).inString
    ensures Read(START, DropComma(text)) == Read(START, text)
  {
    if text != "" && text[|text| - 1] == ',' {
      PlainCharacter(text);
      BlanksDoNotCount(text[..|text| - 1]);
    }
  }

  // ---------------------------------------------------------------- the theorems

  /** There is a candidate exactly for a text that begins with a brace, whose error says that
      it just stops, and whose reading closes nothing that is not open, does not end in the
      middle of an escape, and leaves a bracket open. */
  lemma CandidateExactly(text: string, unterminated: bool, position: nat)
    ensures
      var stripped := Strip(text);
      var scan := Read(START, stripped);
      Candidate(text, unterminated, position).Some? <==>
        && stripped != "" && stripped[0] == '{' && (unterminated || position + 1 >= |stripped|)
        && scan.Scan? && scan.owed != "" && !scan.escaped
  {
    hide Strip, Read, Complete;
  }

  /** A candidate is balanced: reading it ends outside any string with nothing owed. */
  lemma CandidateIsBalanced(text: string, unterminated: bool, position: nat)
    requires Candidate(text, unterminated, position).Some?
    ensures Read(START, Candidate(text, unterminated, position).value) == START
  {
    hide Strip, JustStops;
    var stripped := Strip(text);
    var scan := Read(START, stripped);
    OwedAreClosers(stripped);
    PayingClosers(scan.owed);
    if scan.inString {
      ReadJoins(START, stripped, "\"");
      assert "\""[..0] == "";
      assert Read(scan, "\"") == Scan(scan.owed, false, false);
      ReadJoins(START, stripped + "\"", Reversed(scan.owed));
    } else {
      NotEscaped(stripped);
      CommaDoesNotCount(stripped);
      ReadJoins(START, DropComma(stripped), Reversed(scan.owed));
    }
  }

  lemma {:induction false} NotEscaped(text: string)
    ensures
      var scan := Read(START, text);
      scan.Broken? || scan.inString || !scan.escaped
  {
    if text != "" {
      NotEscaped(text[..|text| - 1]);
    }
  }

  /** The blanks that stripping takes from the right. */
  lemma {:induction false} StrippedBlanks(text: string) returns (blanks: string)
    ensures text == StripRight(text) + blanks && Blank(blanks)
  {
    if text != "" && IsSpace(text[|text| - 1]) {
      var front := text[..|text| - 1];
      var fewer := StrippedBlanks(front);
      blanks := fewer + [text[|text| - 1]];
      assert text == front + [text[|text| - 1]];
    } else {
      blanks := "";
    }
  }

  lemma CommaDropped(text: string) returns (blanks: string, comma: string)
    ensures text == DropComma(text) + blanks + comma
    ensures Blank(blanks) && (comma == "," || (comma == "" && blanks == ""))
    ensures comma == "," <==> text != "" && text[|text| - 1] == ','
    ensures comma == "," && DropComma(text) != "" ==> !IsSpace(DropComma(text)[|DropComma(text)| - 1])
  {
    if text != "" && text[|text| - 1] == ',' {
      var front := text[..|text| - 1];
      blanks := StrippedBlanks(front);
      StripRightEnds(front);
      comma := ",";
      assert text == front + ",";
    } else {
      blanks, comma := "", "";
      assert text == text + "" + "";
    }
  }

  /** A completion is the text, less a trailing comma and the blanks before it if it stops
      outside a string after one, with a quote if it stops inside, and then the owed closers. */
  lemma CompletionChangesOnlyTheEnd(stripped: string, inString: bool, owed: string)
    returns (body: string, blanks: string, comma: string, quote: string)
    ensures stripped == body + blanks + comma
    ensures Blank(blanks) && (comma == "," || (comma == "" && blanks == ""))
    ensures quote == (if inString then "\"" else "")
    ensures comma == "," <==> !inString && stripped != "" && stripped[|stripped| - 1] == ','
    ensures comma == "," && body != "" ==> !IsSpace(body[|body| - 1])
    ensures Complete(stripped, inString, owed) == body + quote + Reversed(owed)
  {
    hide Reversed;
    if inString {
      body, blanks, comma, quote := stripped, "", "", "\"";
      assert stripped == stripped + "" + "";
    } else {
      body, quote := DropComma(stripped), "";
      assert body + quote == body;
      blanks, comma := CommaDropped(stripped);
    }
  }

  /** A candidate is the scanned text, less a trailing comma and all blanks before it exactly
      if the scan stops outside a string after one, followed by a quote exactly if it stops
      inside, and then by the closers of the brackets it leaves open, innermost first. */
  lemma CandidateChangesOnlyTheEnd(text: string, unterminated: bool, position: nat)
    returns (body: string, blanks: string, comma: string, quote: string)
    requires Candidate(text, unterminated, position).Some?
    ensures
      var scan := Read(START, Strip(text));
      && !scan.Broken? && scan.owed != "" && Closers(scan.owed)
      && Strip(text) == body + blanks + comma
      && Blank(blanks) && (comma == "," || (comma == "" && blanks == ""))
      && quote == (if scan.inString then "\"" else "")
      && (comma == "," <==> !scan.inString && Strip(text)[|Strip(text)| - 1] == ',')
      && (comma == "," ==> body != "" && !IsSpace(body[|body| - 1]))
      && Candidate(text, unterminated, position).value == body + quote + Reversed(scan.owed)
  {
    hide Strip, Complete, Closers, Read;
    var scan := Read(START, Strip(text));
    OwedAreClosers(Strip(text));
    assert "{" <= Strip(text);
    hide JustStops;
    body, blanks, comma, quote := CompletionChangesOnlyTheEnd(Strip(text), scan.inString, scan.owed);
    StartsWithBrace(Strip(text), body, blanks, comma);
  }

  lemma StripsToItself(text: string)
    requires text != "" && !IsSpace(text[0]) && !IsSpace(text[|text| - 1])
    ensures Strip(text) == text
  {
  }

  lemma {:induction false} LastPaid(owed: string)
    requires owed != ""
    ensures Reversed(owed) != "" && Reversed(owed)[|Reversed(owed)| - 1] == owed[0]
  {
    if |owed| > 1 {
      LastPaid(owed[..|owed| - 1]);
    } else {
      assert owed[..0] == "";
    }
  }

  /** Repairing is done once: a candidate owes nothing, so it is left alone. */
  lemma CandidateIsLeftAlone(text: string, unterminated: bool, position: nat, again: bool, at: nat)
    requires Candidate(text, unterminated, position).Some?
    ensures Candidate(Candidate(text, unterminated, position).value, again, at).None?
  {
    var candidate := Candidate(text, unterminated, position).value;
    CandidateIsBalanced(text, unterminated, position);
    var body, blanks, comma, quote := CandidateChangesOnlyTheEnd(text, unterminated, position);
    var owed := Read(START, Strip(text)).owed;
    LastPaid(owed);
    assert "{" <= Strip(text);
    hide Strip, StripRight, Read, Reversed, Candidate;
    StartsWithBrace(Strip(text), body, blanks, comma);
    assert candidate[|candidate| - 1] == owed[0];
    StripsToItself(candidate);
    NothingOwed(candidate, again, at);
  }

  /** A text that begins with a brace still does without a trailing comma and blanks. */
  lemma StartsWithBrace(stripped: string, body: string, blanks: string, comma: string)
    requires "{" <= stripped && stripped == body + blanks + comma && Blank(blanks) && (comma == "," || comma == "")
    ensures body != "" && body[0] == '{'
  {
    var rest := blanks + comma;
    assert rest != "" ==> rest[0] != '{';
    assert stripped == body + rest && stripped[0] == '{';
  }

  lemma NothingOwed(candidate: string, again: bool, at: nat)
    requires Strip(candidate) == candidate && Read(START, candidate) == START
    ensures Candidate(candidate, again, at).None?
  {
    hide Strip, Read;
  }
}
