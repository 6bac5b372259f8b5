/** JSON values as the runtime passes them around, and the compact text that
    `json.dumps(value, ensure_ascii=False, separators=(",", ":"))` writes for them. */
module Json {

  datatype Value =
    | Null
    | Bool(b: bool)
    | Num(literal: string)
    | Str(s: string)
    | Arr(items: seq<Value>)
    | Obj(fields: seq<Field>)

  /** A dictionary entry; dictionaries keep their insertion order. */
  datatype Field = Field(key: string, value: Value)

  // ---------------------------------------------------------------- text

  function HexDigit(n: int): char
    requires 0 <= n < 16
  {
    "0123456789abcdef"[n]
  }

  function EscapeChar(c: char): string {
    if c == '\"' then "\\\""
    else if c == '\\' then "\\\\"
    else if c == '\n' then "\\n"
    else if c == '\r' then "\\r"
    else if c == '\t' then "\\t"
    else if c as int == 8 then "\\b"
    else if c as int == 12 then "\\f"
    else if c as int < 32 then "\\u00" + [HexDigit(c as int / 16), HexDigit(c as int % 16)]
    else [c]
  }

  function Escape(s: string): string {
    if s == "" then "" else EscapeChar(s[0]) + Escape(s[1..])
  }

  function Quote(s: string): string {
    "\"" + Escape(s) + "\""
  }

  function Dump(v: Value): string
    decreases v, 1
  {
    match v
    case Null => "null"
    case Bool(b) => if b then "true" else "false"
    case Num(literal) => literal
    case Str(s) => Quote(s)
    case Arr(items) => "[" + DumpItems(items) + "]"
    case Obj(fields) => "{" + DumpFields(fields) + "}"
  }

  function DumpItems(items: seq<Value>): string
    decreases items, 0
  {
    if items == [] then ""
    else if |items| == 1 then Dump(items[0])
    else Dump(items[0]) + "," + DumpItems(items[1..])
  }

  function DumpFields(fields: seq<Field>): string
    decreases fields, 0
  {
    if fields == [] then ""
    else if |fields| == 1 then DumpField(fields[0])
    else DumpField(fields[0]) + "," + DumpFields(fields[1..])
  }

  function DumpField(field: Field): string
    decreases field, 2
  {
    Quote(field.key) + ":" + Dump(field.value)
  }

  // ---------------------------------------------------------------- Python views

  /** Python's `bool(value)`. */
  predicate Truthy(v: Value) {
    match v
    case Null => false
    case Bool(b) => b
    case Num(literal) => !Zero(literal)
    case Str(s) => s != ""
    case Arr(items) => items != []
    case Obj(fields) => fields != []
  }

  /** A number is zero when no digit before its exponent is anything else. */
  predicate Zero(literal: string) {
    forall i :: 0 <= i < |literal| ==>
      literal[i] in {'0', '.', '-', '+', 'e', 'E'} || exists j :: 0 <= j < i && literal[j] in {'e', 'E'}
  }

  /** `value in (None, "", [], {})`. */
  predicate Empty(v: Value) {
    v == Null || v == Str("") || v == Arr([]) || v == Obj([])
  }

  /** `str(value or "")`, with the text of a list or an object written as JSON. */
  function TextOf(v: Value): string {
    if !Truthy(v) then "" else if v.Str? then v.s else if v.Bool? then "True" else Dump(v)
  }

  // ---------------------------------------------------------------- dictionaries

  /** The first entry under `key`, or `None` when there is none. */
  function Lookup(fields: seq<Field>, key: string): Value {
    if fields == [] then Null
    else if fields[0].key == key then fields[0].value
    else Lookup(fields[1..], key)
  }

  predicate HasKey(fields: seq<Field>, key: string) {
    exists i :: 0 <= i < |fields| && fields[i].key == key
  }

  /** `d[key] = value`: replaces the entry in place, or appends it. */
  function Put(fields: seq<Field>, key: string, value: Value): seq<Field> {
    if fields == [] then [Field(key, value)]
    else if fields[0].key == key then [Field(key, value)] + fields[1..]
    else [fields[0]] + Put(fields[1..], key, value)
  }

  lemma LookupPut(fields: seq<Field>, key: string, value: Value, other: string)
    ensures Lookup(Put(fields, key, value), other) ==
            if other == key then value else Lookup(fields, other)
    ensures HasKey(fields, other) ==> HasKey(Put(fields, key, value), other)
  {
    if fields != [] && fields[0].key != key {
      LookupPut(fields[1..], key, value, other);
      var rest := Put(fields[1..], key, value);
      if HasKey(fields, other) {
        var i :| 0 <= i < |fields| && fields[i].key == other;
        if i == 0 {
          assert Put(fields, key, value)[0].key == other;
        } else {
          assert fields[1..][i - 1].key == other;
          var j :| 0 <= j < |rest| && rest[j].key == other;
          assert Put(fields, key, value)[j + 1].key == other;
        }
      }
    } else if fields != [] {
      if HasKey(fields, other) {
        var i :| 0 <= i < |fields| && fields[i].key == other;
        assert Put(fields, key, value)[i].key == other;
      }
    }
  }

  lemma LookupFound(fields: seq<Field>, key: string)
    requires Lookup(fields, key) != Null
    ensures HasKey(fields, key)
  {
    if fields[0].key != key {
      LookupFound(fields[1..], key);
      var i :| 0 <= i < |fields| - 1 && fields[1..][i].key == key;
      assert fields[i + 1].key == key;
    }
  }
}
