/** What repairing makes of the JSON text of an object that has been cut off: the JSON text
    of the object with all that was complete before the cut. */
module TruncatedJson {
  import opened Options
  import opened PyText
  import opened Json
  import opened JsonRepair

  // ---------------------------------------------------------------- reading whole values

  /** Not a quote, a bracket, a comma or a blank. */
  predicate Plain(c: char) {
    c !in {'\"', '{', '}', '[', ']', ',', '\\'} && !IsSpace(c)
  }

  /** All numbers of a value are written without such characters, as JSON writes them. */
  predicate PlainNumbers(v: Value) {
    match v
    case Num(literal) => literal != "" && forall i :: 0 <= i < |literal| ==> Plain(literal[i])
    case Arr(items) => forall i :: 0 <= i < |items| ==> PlainNumbers(items[i])
    case Obj(fields) => forall i :: 0 <= i < |fields| ==> PlainNumbers(fields[i].value)
    case _ => true
  }

  /** Outside any text. */
  function Outside(owed: string): Scan {
    Scan(owed, false, false)
  }

  lemma ReadOne(s: Scan, c: char)
    ensures Read(s, [c]) == Advance(s, c)
  {
    assert [c][..0] == "";
  }

  lemma {:induction false} ReadPlain(owed: string, text: string)
    requires forall i :: 0 <= i < |text| ==> Plain(text[i])
    ensures Read(Outside(owed), text) == Outside(owed)
  {
    if text != "" {
      ReadPlain(owed, text[..|text| - 1]);
    }
  }

  /** An escaped character leaves the reader inside the text. */
  lemma ReadEscapedChar(owed: string, c: char)
    ensures Read(Scan(owed, true, false), EscapeChar(c)) == Scan(owed, true, false)
  {
    var s := Scan(owed, true, false);
    var e := EscapeChar(c);
    if |e| == 1 {
      ReadOne(s, c);
    } else if |e| == 2 {
      assert e == [e[0]] + [e[1]];
      ReadJoins(s, [e[0]], [e[1]]);
      ReadOne(s, e[0]);
      ReadOne(Read(s, [e[0]]), e[1]);
    } else {
      var digits := [HexDigit(c as int / 16), HexDigit(c as int % 16)];
      assert e == "\\u00" + digits;
      ReadJoins(s, "\\u00", digits);
      ReadCodePoint(s);
      assert digits == [digits[0]] + [digits[1]];
      ReadJoins(s, [digits[0]], [digits[1]]);
      ReadOne(s, digits[0]);
      ReadOne(s, digits[1]);
    }
  }

  lemma ReadCodePoint(s: Scan)
    requires s.Scan? && s.inString && !s.escaped
    ensures Read(s, "\\u00") == s
  {
    assert "\\u00"[..3] == "\\u0" && "\\u0"[..2] == "\\u" && "\\u"[..1] == "\\" && "\\"[..0] == "";
    assert Read(s, "\\") == s.(escaped := true);
    assert Read(s, "\\u") == s;
    assert Read(s, "\\u0") == s;
  }

  lemma {:induction false} ReadEscaped(owed: string, text: string)
    ensures Read(Scan(owed, true, false), Escape(text)) == Scan(owed, true, false)
  {
    if text != "" {
      ReadEscapedChar(owed, text[0]);
      ReadEscaped(owed, text[1..]);
      ReadJoins(Scan(owed, true, false), EscapeChar(text[0]), Escape(text[1..]));
      hide EscapeChar;
    }
  }

  /** The opening quote and what follows. */
  lemma ReadOpenText(owed: string, text: string)
    ensures Read(Outside(owed), "\"" + Escape(text)) == Scan(owed, true, false)
  {
    ReadOne(Outside(owed), '\"');
    ReadJoins(Outside(owed), "\"", Escape(text));
    ReadEscaped(owed, text);
  }

  lemma ReadQuoted(owed: string, text: string)
    ensures Read(Outside(owed), Quote(text)) == Outside(owed)
  {
    ReadOpenText(owed, text);
    ReadOne(Scan(owed, true, false), '\"');
    ReadJoins(Outside(owed), "\"" + Escape(text), "\"");
  }

  lemma ReadComma(owed: string)
    ensures Read(Outside(owed), ",") == Outside(owed)
  {
    ReadOne(Outside(owed), ',');
  }

  lemma ReadColon(owed: string)
    ensures Read(Outside(owed), ":") == Outside(owed)
  {
    ReadOne(Outside(owed), ':');
  }

  /** The JSON text of a value leaves the reader where it was. */
  lemma {:induction false} ReadValue(owed: string, v: Value)
    requires PlainNumbers(v)
    ensures Read(Outside(owed), Dump(v)) == Outside(owed)
    decreases v, 2
  {
    match v
    case Null => ReadPlain(owed, "null");
    case Bool(b) => ReadPlain(owed, Dump(v));
    case Num(literal) => ReadPlain(owed, literal);
    case Str(s) => ReadQuoted(owed, s);
    case Arr(items) =>
      ReadItems(owed + "]", items);
      ReadBracketed(owed, '[', DumpItems(items), ']');
    case Obj(fields) =>
      ReadFields(owed + "}", fields);
      ReadBracketed(owed, '{', DumpFields(fields), '}');
  }

  lemma ReadBracketed(owed: string, opening: char, inner: string, closer: char)
    requires (opening == '[' && closer == ']') || (opening == '{' && closer == '}')
    requires Read(Outside(owed + [closer]), inner) == Outside(owed + [closer])
    ensures Read(Outside(owed), [opening] + inner) == Outside(owed + [closer])
    ensures Read(Outside(owed), [opening] + inner + [closer]) == Outside(owed)
  {
    ReadOne(Outside(owed), opening);
    ReadJoins(Outside(owed), [opening], inner);
    ReadJoins(Outside(owed), [opening] + inner, [closer]);
    ReadOne(Outside(owed + [closer]), closer);
    assert (owed + [closer])[..|owed|] == owed;
  }

  lemma {:induction false} ReadItems(owed: string, items: seq<Value>)
    requires forall i :: 0 <= i < |items| ==> PlainNumbers(items[i])
    ensures Read(Outside(owed), DumpItems(items)) == Outside(owed)
    decreases items, 0
  {
    if items != [] {
      ReadValue(owed, items[0]);
      if |items| > 1 {
        ReadItems(owed, items[1..]);
        ReadComma(owed);
        ReadJoins(Outside(owed), Dump(items[0]), ",");
        ReadJoins(Outside(owed), Dump(items[0]) + ",", DumpItems(items[1..]));
      }
    }
  }

  lemma {:induction false} ReadFields(owed: string, fields: seq<Field>)
    requires forall i :: 0 <= i < |fields| ==> PlainNumbers(fields[i].value)
    ensures Read(Outside(owed), DumpFields(fields)) == Outside(owed)
    decreases fields, 0
  {
    if fields != [] {
      ReadField(owed, fields[0]);
      if |fields| > 1 {
        ReadFields(owed, fields[1..]);
        ReadComma(owed);
        ReadJoins(Outside(owed), DumpField(fields[0]), ",");
        ReadJoins(Outside(owed), DumpField(fields[0]) + ",", DumpFields(fields[1..]));
      }
    }
  }

  lemma ReadField(owed: string, field: Field)
    requires PlainNumbers(field.value)
    ensures Read(Outside(owed), DumpField(field)) == Outside(owed)
    decreases field, 3
  {
    ReadKey(owed, field.key);
    ReadValue(owed, field.value);
    ReadJoins(Outside(owed), Quote(field.key) + ":", Dump(field.value));
  }

  lemma ReadKey(owed: string, key: string)
    ensures Read(Outside(owed), Quote(key) + ":") == Outside(owed)
  {
    ReadQuoted(owed, key);
    ReadColon(owed);
    ReadJoins(Outside(owed), Quote(key), ":");
  }

  // ---------------------------------------------------------------- values cut off

  /** Where the JSON text of a value is cut off: inside a text, between two of its characters;
      after some items of a list or entries of a dictionary, perhaps after the comma that
      follows them; or inside the value of the next of these. */
  datatype Cut =
    | InText(text: string)
    | AfterItems(items: seq<Value>, comma: bool)
    | InItem(items: seq<Value>, cut: Cut)
    | AfterFields(fields: seq<Field>, comma: bool)
    | InField(fields: seq<Field>, key: string, cut: Cut)

  /** A comma follows something, and numbers are plain. */
  predicate Possible(c: Cut) {
    match c
    case InText(_) => true
    case AfterItems(items, comma) => (comma ==> items != []) && PlainNumbers(Arr(items))
    case InItem(items, cut) => PlainNumbers(Arr(items)) && Possible(cut)
    case AfterFields(fields, comma) => (comma ==> fields != []) && PlainNumbers(Obj(fields))
    case InField(fields, _, cut) => PlainNumbers(Obj(fields)) && Possible(cut)
  }

  function CommaIf(some: bool): string {
    if some then "," else ""
  }

  /** The text up to the cut. */
  function CutText(c: Cut): string {
    match c
    case InText(text) => "\"" + Escape(text)
    case AfterItems(items, comma) => "[" + DumpItems(items) + CommaIf(comma)
    case InItem(items, cut) => "[" + (DumpItems(items) + CommaIf(items != [])) + CutText(cut)
    case AfterFields(fields, comma) => "{" + DumpFields(fields) + CommaIf(comma)
    case InField(fields, key, cut) => "{" + (DumpFields(fields) + CommaIf(fields != []) + (Quote(key) + ":")) + CutText(cut)
  }

  /** The value with all that was complete before the cut. */
  function WhatIsLeft(c: Cut): Value {
    match c
    case InText(text) => Str(text)
    case AfterItems(items, _) => Arr(items)
    case InItem(items, cut) => Arr(items + [WhatIsLeft(cut)])
    case AfterFields(fields, _) => Obj(fields)
    case InField(fields, key, cut) => Obj(fields + [Field(key, WhatIsLeft(cut))])
  }

  /** The closers of the brackets open at the cut, the innermost last. */
  function Owed(c: Cut): string {
    match c
    case InText(_) => ""
    case AfterItems(_, _) => "]"
    case InItem(_, cut) => "]" + Owed(cut)
    case AfterFields(_, _) => "}"
    case InField(_, _, cut) => "}" + Owed(cut)
  }

  /** The cut is inside a text. */
  predicate Inside(c: Cut) {
    match c
    case InText(_) => true
    case InItem(_, cut) => Inside(cut)
    case InField(_, _, cut) => Inside(cut)
    case _ => false
  }

  /** The cut comes right after a comma. */
  predicate Trailing(c: Cut) {
    match c
    case InText(_) => false
    case AfterItems(_, comma) => comma
    case AfterFields(_, comma) => comma
    case InItem(_, cut) => Trailing(cut)
    case InField(_, _, cut) => Trailing(cut)
  }

  lemma ReadAfter(owed: string, opening: char, closer: char, inner: string, comma: bool)
    requires (opening == '[' && closer == ']') || (opening == '{' && closer == '}')
    requires Read(Outside(owed + [closer]), inner) == Outside(owed + [closer])
    ensures Read(Outside(owed + [closer]), inner + CommaIf(comma)) == Outside(owed + [closer])
    ensures Read(Outside(owed), [opening] + inner + CommaIf(comma)) == Outside(owed + [closer])
    ensures Read(Outside(owed), [opening] + (inner + CommaIf(comma))) == Outside(owed + [closer])
  {
    ReadBracketed(owed, opening, inner, closer);
    if comma {
      ReadComma(owed + [closer]);
      ReadJoins(Outside(owed + [closer]), inner, ",");
    } else {
      assert inner + "" == inner;
    }
    assert [opening] + inner + CommaIf(comma) == [opening] + (inner + CommaIf(comma));
    ReadBracketed(owed, opening, inner + CommaIf(comma), closer);
  }

  /** The reader of a cut text knows what is open: the brackets, and whether a text is. */
  lemma {:induction false} ReadCut(owed: string, c: Cut)
    requires Possible(c)
    ensures Read(Outside(owed), CutText(c)) == Scan(owed + Owed(c), Inside(c), false)
    decreases c
  {
    match c
    case InText(text) =>
      ReadOpenText(owed, text);
    case AfterItems(items, comma) =>
      ReadItems(owed + "]", items);
      ReadAfter(owed, '[', ']', DumpItems(items), comma);
    case AfterFields(fields, comma) =>
      ReadFields(owed + "}", fields);
      ReadAfter(owed, '{', '}', DumpFields(fields), comma);
    case InItem(items, cut) =>
      ReadCut(owed + "]", cut);
      hide Read, PlainNumbers;
      ReadItems(owed + "]", items);
      ReadAfter(owed, '[', ']', DumpItems(items), items != []);
      ReadInner(owed, ']', "[" + (DumpItems(items) + CommaIf(items != [])), CutText(cut), Owed(cut), Inside(cut));
    case InField(fields, key, cut) =>
      ReadCut(owed + "}", cut);
      hide Read, PlainNumbers;
      ReadFields(owed + "}", fields);
      ReadFront(owed, fields, key);
      ReadInner(owed, '}', "{" + (DumpFields(fields) + CommaIf(fields != []) + (Quote(key) + ":")),
                CutText(cut), Owed(cut), Inside(cut));
  }

  lemma ReadInner(owed: string, closer: char, front: string, inner: string, more: string, inside: bool)
    requires Read(Outside(owed), front) == Outside(owed + [closer])
    requires Read(Outside(owed + [closer]), inner) == Scan(owed + [closer] + more, inside, false)
    ensures Read(Outside(owed), front + inner) == Scan(owed + ([closer] + more), inside, false)
  {
    ReadJoins(Outside(owed), front, inner);
    assert owed + [closer] + more == owed + ([closer] + more);
    hide Read;
  }

  lemma ReadFront(owed: string, fields: seq<Field>, key: string)
    requires Read(Outside(owed + "}"), DumpFields(fields)) == Outside(owed + "}")
    ensures Read(Outside(owed), "{" + (DumpFields(fields) + CommaIf(fields != []) + (Quote(key) + ":"))) == Outside(owed + "}")
  {
    hide Read;
    ReadAfter(owed, '{', '}', DumpFields(fields), fields != []);
    ReadKey(owed + "}", key);
    var front := DumpFields(fields) + CommaIf(fields != []);
    ReadJoins(Outside(owed + "}"), front, Quote(key) + ":");
    ReadBracketed(owed, '{', front + (Quote(key) + ":"), '}');
  }

  // ---------------------------------------------------------------- what closing it yields

  lemma {:induction false} DumpItemsSnoc(items: seq<Value>, v: Value)
    ensures DumpItems(items + [v]) == DumpItems(items) + CommaIf(items != []) + Dump(v)
  {
    if items == [] {
      assert [] + [v] == [v];
      assert "" + "" + Dump(v) == Dump(v);
    } else {
      DumpItemsSnoc(items[1..], v);
      assert (items + [v])[0] == items[0] && (items + [v])[1..] == items[1..] + [v];
    }
  }

  lemma {:induction false} DumpFieldsSnoc(fields: seq<Field>, f: Field)
    ensures DumpFields(fields + [f]) == DumpFields(fields) + CommaIf(fields != []) + DumpField(f)
  {
    hide DumpField;
    if fields == [] {
      assert [] + [f] == [f];
      assert "" + "" + DumpField(f) == DumpField(f);
    } else {
      DumpFieldsSnoc(fields[1..], f);
      assert (fields + [f])[0] == fields[0] && (fields + [f])[1..] == fields[1..] + [f];
    }
  }

  lemma {:induction false} ReversedCons(c: char, text: string)
    ensures Reversed([c] + text) == Reversed(text) + [c]
  {
    if text == "" {
      assert [c] + text == [c] && [c][..0] == "";
    } else {
      var front := text[..|text| - 1];
      assert ([c] + text)[..|text|] == [c] + front;
      ReversedCons(c, front);
    }
  }

  /** The text up to the cut, without a comma it ends in. */
  function Body(c: Cut): string {
    match c
    case InText(text) => "\"" + Escape(text)
    case AfterItems(items, _) => "[" + DumpItems(items)
    case InItem(items, cut) => "[" + (DumpItems(items) + CommaIf(items != [])) + Body(cut)
    case AfterFields(fields, _) => "{" + DumpFields(fields)
    case InField(fields, key, cut) => "{" + (DumpFields(fields) + CommaIf(fields != []) + (Quote(key) + ":")) + Body(cut)
  }

  lemma {:induction false} BodyIsCutText(c: Cut)
    ensures CutText(c) == Body(c) + CommaIf(Trailing(c))
  {
    match c
    case InText(text) =>
    case AfterItems(items, comma) =>
    case AfterFields(fields, comma) =>
    case InItem(items, cut) =>
      BodyIsCutText(cut);
    case InField(fields, key, cut) =>
      BodyIsCutText(cut);
  }

  /** Closing the text and the brackets that are open completes what is left. */
  lemma {:induction false} ClosingCompletes(c: Cut)
    ensures Closed(Body(c), Inside(c), Owed(c)) == Dump(WhatIsLeft(c))
    decreases c
  {
    hide DumpItems, DumpFields;
    match c
    case InText(text) =>
    case AfterItems(items, comma) =>
      ReversedOne(']');
    case AfterFields(fields, comma) =>
      ReversedOne('}');
    case InItem(items, cut) =>
      ClosingCompletes(cut);
      ItemCompletes(items, cut);
    case InField(fields, key, cut) =>
      ClosingCompletes(cut);
      FieldCompletes(fields, key, cut);
  }

  /** The text that closes a cut value. */
  function Closed(body: string, inside: bool, owed: string): string {
    body + (if inside then "\"" else "") + Reversed(owed)
  }

  lemma ItemCompletes(items: seq<Value>, cut: Cut)
    requires Closed(Body(cut), Inside(cut), Owed(cut)) == Dump(WhatIsLeft(cut))
    ensures
      Closed("[" + (DumpItems(items) + CommaIf(items != [])) + Body(cut), Inside(cut), "]" + Owed(cut))
        == Dump(Arr(items + [WhatIsLeft(cut)]))
  {
    ReversedCons(']', Owed(cut));
    DumpItemsSnoc(items, WhatIsLeft(cut));
    hide DumpItems, Reversed, Body, Inside, Owed, WhatIsLeft;
    Nested("[", DumpItems(items) + CommaIf(items != []), Body(cut), if Inside(cut) then "\"" else "", Reversed(Owed(cut)), "]");
  }

  lemma FieldCompletes(fields: seq<Field>, key: string, cut: Cut)
    requires Closed(Body(cut), Inside(cut), Owed(cut)) == Dump(WhatIsLeft(cut))
    ensures
      Closed("{" + (DumpFields(fields) + CommaIf(fields != []) + (Quote(key) + ":")) + Body(cut), Inside(cut), "}" + Owed(cut))
        == Dump(Obj(fields + [Field(key, WhatIsLeft(cut))]))
  {
    ReversedCons('}', Owed(cut));
    DumpFieldsSnoc(fields, Field(key, WhatIsLeft(cut)));
    hide DumpFields, Reversed, Body, Inside, Owed, WhatIsLeft, Quote;
    Nested("{", DumpFields(fields) + CommaIf(fields != []) + (Quote(key) + ":"), Body(cut), if Inside(cut) then "\"" else "",
           Reversed(Owed(cut)), "}");
    assert DumpFields(fields) + CommaIf(fields != []) + (Quote(key) + ":") + Dump(WhatIsLeft(cut))
        == DumpFields(fields) + CommaIf(fields != []) + (Quote(key) + ":" + Dump(WhatIsLeft(cut)));
  }

  lemma ReversedOne(c: char)
    ensures Reversed([c]) == [c]
  {
    assert [c][..0] == "";
  }

  lemma Nested(opening: string, front: string, body: string, quote: string, closers: string, closer: string)
    ensures opening + front + body + quote + (closers + closer) == opening + (front + (body + quote + closers)) + closer
  {
  }

  // ---------------------------------------------------------------- ends

  /** Neither a blank nor a comma. */
  predicate EndsValue(c: char) {
    !IsSpace(c) && c != ','
  }

  lemma EndOfValue(v: Value)
    requires PlainNumbers(v)
    ensures Dump(v) != "" && EndsValue(Dump(v)[|Dump(v)| - 1])
  {
  }

  lemma {:induction false} EndOfItems(items: seq<Value>)
    requires items != [] && forall i :: 0 <= i < |items| ==> PlainNumbers(items[i])
    ensures DumpItems(items) != "" && EndsValue(DumpItems(items)[|DumpItems(items)| - 1])
  {
    EndOfValue(items[0]);
    if |items| > 1 {
      EndOfItems(items[1..]);
    }
  }

  lemma {:induction false} EndOfFields(fields: seq<Field>)
    requires fields != [] && forall i :: 0 <= i < |fields| ==> PlainNumbers(fields[i].value)
    ensures DumpFields(fields) != "" && EndsValue(DumpFields(fields)[|DumpFields(fields)| - 1])
  {
    EndOfValue(fields[0].value);
    if |fields| > 1 {
      EndOfFields(fields[1..]);
    }
  }

  /** Outside a text the body ends in a value or an opening bracket. */
  lemma {:induction false} EndOfBody(c: Cut)
    requires Possible(c) && !Inside(c)
    ensures Body(c) != "" && EndsValue(Body(c)[|Body(c)| - 1])
  {
    match c
    case InText(text) =>
    case AfterItems(items, comma) =>
      EndAfter("[", DumpItems(items));
      if items != [] {
        EndOfItems(items);
      }
    case AfterFields(fields, comma) =>
      EndAfter("{", DumpFields(fields));
      if fields != [] {
        EndOfFields(fields);
      }
    case InItem(items, cut) =>
      EndOfBody(cut);
    case InField(fields, key, cut) =>
      EndOfBody(cut);
  }

  lemma EndAfter(opening: string, inner: string)
    requires opening == "[" || opening == "{"
    ensures inner == "" ==> EndsValue((opening + inner)[|opening + inner| - 1])
    ensures inner != "" ==> (opening + inner)[|opening + inner| - 1] == inner[|inner| - 1]
  {
  }

  lemma CommaComesOff(c: Cut)
    requires Possible(c) && !Inside(c)
    ensures DropComma(CutText(c)) == Body(c)
  {
    BodyIsCutText(c);
    EndOfBody(c);
    hide Body, CutText;
    if Trailing(c) {
      assert CutText(c)[..|CutText(c)| - 1] == Body(c);
      assert StripRight(Body(c)) == Body(c);
    } else {
      assert CutText(c) == Body(c);
    }
  }

  lemma InsideIsNotTrailing(c: Cut)
    ensures Inside(c) ==> !Trailing(c)
  {
  }

  /** The JSON text of an object that is cut off inside a text, or after an item or an entry,
      is repaired to the JSON text of the object with all that was complete, the text it was
      cut off in up to the cut, and nothing else; provided that the error says it just stops. */
  lemma RepairRestoresWhatIsLeft(text: string, c: Cut, unterminated: bool, position: nat)
    requires Possible(c) && (c.AfterFields? || c.InField?) && Strip(text) == CutText(c)
    requires unterminated || position + 1 >= |Strip(text)|
    ensures Candidate(text, unterminated, position) == Some(Dump(WhatIsLeft(c)))
  {
    assert JustStops(Strip(text), unterminated, position) by {
      assert CutText(c)[0] == '{';
    }
    ReadCut("", c);
    assert "" + Owed(c) == Owed(c) && Owed(c) != "";
    ClosingCompletes(c);
    InsideIsNotTrailing(c);
    BodyIsCutText(c);
    if Inside(c) {
      assert CutText(c) == Body(c) + "" == Body(c);
    } else {
      CommaComesOff(c);
      assert Body(c) + "" == Body(c);
    }
    hide Strip, JustStops, Read, DropComma, Body, CutText, WhatIsLeft, Owed, Inside, Trailing, Dump;
  }

  // ---------------------------------------------------------------- what is not repaired

  /** Text that closes another bracket than the innermost open one is not repaired, whatever
      follows. */
  lemma WrongCloserIsRefused(text: string, c: Cut, closer: char, rest: string, unterminated: bool, position: nat)
    requires Possible(c) && !Inside(c) && (closer == '}' || closer == ']')
    requires Owed(c) == "" || Owed(c)[|Owed(c)| - 1] != closer
    requires Strip(text) == CutText(c) + [closer] + rest
    ensures Candidate(text, unterminated, position).None?
  {
    ReadCut("", c);
    assert "" + Owed(c) == Owed(c);
    hide CutText, Strip, Owed, Possible, Inside;
    var front := CutText(c) + [closer];
    ReadJoins(START, CutText(c), [closer]);
    ReadOne(Outside(Owed(c)), closer);
    assert Strip(text)[..|front|] == front;
    BrokenStays(START, Strip(text), |front|);
    hide Read;
  }

  /** Nor is text cut off in the middle of an escape, or that of a complete object. */
  lemma CutInEscapeIsRefused(text: string, c: Cut, unterminated: bool, position: nat)
    requires Possible(c) && Inside(c) && Strip(text) == CutText(c) + "\\"
    ensures Candidate(text, unterminated, position).None?
  {
    ReadCut("", c);
    hide CutText, Strip, Owed, Possible;
    ReadJoins(START, CutText(c), "\\");
    ReadOne(Scan("" + Owed(c), true, false), '\\');
    hide Read;
  }

  lemma WholeObjectIsLeftAlone(text: string, v: Value, unterminated: bool, position: nat)
    requires PlainNumbers(v) && Strip(text) == Dump(v)
    ensures Candidate(text, unterminated, position).None?
  {
    ReadValue("", v);
    hide Strip, Read, Dump;
  }
}
