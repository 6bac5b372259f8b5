/** The dependency-free token estimator. Its one arithmetic expression rounds a
    weight to quarters: an ASCII character weighs one, any other four. Every
    budget argument about message lists is made on weights, where lists add up
    exactly; rounding is done once, at the end. */
module TokenEstimation {
  import opened Json

  /** Any estimator a host may supply; a text is passed as a JSON string. */
  type Estimator = Value -> nat

  predicate IsAscii(c: char) {
    c as int < 128
  }

  /** ASCII characters among the first `n`. */
  function AsciiAmong(text: string, n: nat): (count: nat)
    requires n <= |text|
    ensures count <= n
  {
    if n == 0 then 0 else AsciiAmong(text, n - 1) + if IsAscii(text[n - 1]) then 1 else 0
  }

  function AsciiCount(text: string): (count: nat)
    ensures count <= |text|
  {
    AsciiAmong(text, |text|)
  }

  function EstimateText(text: string): nat {
    var ascii := AsciiCount(text);
    var tokens := (ascii + 3) / 4 + (|text| - ascii);
    if tokens > 1 then tokens else 1
  }

  /** A string is measured raw, any other value by its compact JSON text. */
  function Estimate(v: Value): nat {
    EstimateText(if v.Str? then v.s else Dump(v))
  }

  /** `estimate(items) if items else 0`. */
  function CostOrZero(est: Estimator, items: seq<Value>): nat {
    if items == [] then 0 else est(Arr(items))
  }

  /** The items' estimates one by one, added up. */
  function Total(est: Estimator, items: seq<Value>): nat {
    if items == [] then 0 else est(items[0]) + Total(est, items[1..])
  }

  /** Joining two lists never costs more than the lists apart. */
  ghost predicate Subadditive(est: Estimator) {
    forall a, b :: CostOrZero(est, a + b) <= CostOrZero(est, a) + CostOrZero(est, b)
  }

  // ---------------------------------------------------------------- weights

  function Weight(text: string): nat {
    AsciiCount(text) + 4 * (|text| - AsciiCount(text))
  }

  function WeightOf(v: Value): nat {
    Weight(Dump(v))
  }

  /** Weight of the items, each with one separator. */
  function SpacedWeight(items: seq<Value>): nat {
    if items == [] then 0 else WeightOf(items[0]) + 1 + SpacedWeight(items[1..])
  }

  /** Weight of the items alone. */
  function BareWeight(items: seq<Value>): nat {
    if items == [] then 0 else WeightOf(items[0]) + BareWeight(items[1..])
  }

  function FieldsWeight(fields: seq<Field>): nat {
    if fields == [] then 0 else Weight(DumpField(fields[0])) + 1 + FieldsWeight(fields[1..])
  }

  /** The estimate is the least positive whole number of quarters covering the weight. */
  lemma EstimateTextMeasuresWeight(text: string)
    ensures Weight(text) <= 4 * EstimateText(text)
    ensures forall n: nat :: n >= 1 && Weight(text) <= 4 * n ==> EstimateText(text) <= n
  {
  }

  lemma EstimateMeasuresWeight(v: Value, n: nat)
    requires !v.Str?
    ensures WeightOf(v) <= 4 * Estimate(v)
    ensures n >= 1 ==> (Estimate(v) <= n <==> WeightOf(v) <= 4 * n)
  {
    EstimateTextMeasuresWeight(Dump(v));
  }

  lemma {:induction false} AsciiAmongConcat(a: string, b: string, n: nat)
    requires n <= |b|
    ensures AsciiAmong(a + b, |a| + n) == AsciiCount(a) + AsciiAmong(b, n)
  {
    if n == 0 {
      AsciiAmongPrefix(a, b, |a|);
    } else {
      AsciiAmongConcat(a, b, n - 1);
      assert (a + b)[|a| + n - 1] == b[n - 1];
    }
  }

  lemma {:induction false} AsciiAmongPrefix(a: string, b: string, n: nat)
    requires n <= |a|
    ensures AsciiAmong(a + b, n) == AsciiAmong(a, n)
  {
    if n > 0 {
      AsciiAmongPrefix(a, b, n - 1);
      assert (a + b)[n - 1] == a[n - 1];
    }
  }

  lemma WeightConcat(a: string, b: string)
    ensures AsciiCount(a + b) == AsciiCount(a) + AsciiCount(b)
    ensures Weight(a + b) == Weight(a) + Weight(b)
  {
    AsciiAmongConcat(a, b, |b|);
  }

  lemma {:induction false} AsciiAmongAll(s: string, n: nat)
    requires n <= |s|
    requires forall i :: 0 <= i < n ==> IsAscii(s[i])
    ensures AsciiAmong(s, n) == n
  {
    if n > 0 {
      AsciiAmongAll(s, n - 1);
    }
  }

  lemma AsciiTextWeight(s: string)
    requires forall i :: 0 <= i < |s| ==> IsAscii(s[i])
    ensures Weight(s) == |s|
    ensures EstimateText(s) == if |s| > 4 then (|s| + 3) / 4 else 1
  {
    AsciiAmongAll(s, |s|);
  }

  lemma {:induction false} ListWeight(items: seq<Value>)
    ensures items != [] ==> Weight(DumpItems(items)) + 1 == SpacedWeight(items)
    ensures WeightOf(Arr(items)) == if items == [] then 2 else 1 + SpacedWeight(items)
  {
    if |items| == 1 {
      assert items[1..] == [];
    } else if |items| > 1 {
      ListWeight(items[1..]);
      WeightConcat(Dump(items[0]), ",");
      WeightConcat(Dump(items[0]) + ",", DumpItems(items[1..]));
      AsciiTextWeight(",");
    }
    WeightConcat("[", DumpItems(items));
    WeightConcat("[" + DumpItems(items), "]");
    AsciiTextWeight("[");
    AsciiTextWeight("]");
  }

  lemma {:induction false} EntriesTextWeight(fields: seq<Field>)
    requires fields != []
    ensures Weight(DumpFields(fields)) + 1 == FieldsWeight(fields)
  {
    hide Weight, DumpField;
    if |fields| == 1 {
      assert fields[1..] == [];
    } else {
      EntriesTextWeight(fields[1..]);
      WeightConcat(DumpField(fields[0]), ",");
      WeightConcat(DumpField(fields[0]) + ",", DumpFields(fields[1..]));
      AsciiTextWeight(",");
    }
  }

  lemma ObjectWeight(fields: seq<Field>)
    ensures fields != [] ==> Weight(DumpFields(fields)) + 1 == FieldsWeight(fields)
    ensures WeightOf(Obj(fields)) == if fields == [] then 2 else 1 + FieldsWeight(fields)
  {
    if fields == [] {
      AsciiTextWeight("");
    } else {
      EntriesTextWeight(fields);
    }
    hide Weight, DumpField, FieldsWeight;
    WeightConcat("{", DumpFields(fields));
    WeightConcat("{" + DumpFields(fields), "}");
    AsciiTextWeight("{");
    AsciiTextWeight("}");
  }

  lemma QuoteWeight(s: string)
    ensures Weight(Quote(s)) == 2 + Weight(Escape(s))
  {
    WeightConcat("\"", Escape(s));
    WeightConcat("\"" + Escape(s), "\"");
    AsciiTextWeight("\"");
  }

  lemma FieldWeight(field: Field)
    ensures Weight(DumpField(field)) == 3 + Weight(Escape(field.key)) + WeightOf(field.value)
  {
    QuoteWeight(field.key);
    WeightConcat(Quote(field.key), ":");
    WeightConcat(Quote(field.key) + ":", Dump(field.value));
    AsciiTextWeight(":");
  }

  lemma {:induction false} SpacedWeightConcat(a: seq<Value>, b: seq<Value>)
    ensures SpacedWeight(a + b) == SpacedWeight(a) + SpacedWeight(b)
  {
    if a == [] {
      assert a + b == b;
    } else {
      assert (a + b)[1..] == a[1..] + b;
      SpacedWeightConcat(a[1..], b);
    }
  }

  // ---------------------------------------------------------------- lists

  lemma EstimateListBound(items: seq<Value>, n: nat)
    ensures items != [] ==> 1 + SpacedWeight(items) <= 4 * Estimate(Arr(items))
    ensures items != [] && n >= 1 && 1 + SpacedWeight(items) <= 4 * n ==> Estimate(Arr(items)) <= n
    ensures Estimate(Arr(items)) >= 1
    ensures items == [] ==> Estimate(Arr(items)) == 1
  {
    ListWeight(items);
    EstimateMeasuresWeight(Arr(items), n);
    EstimateMeasuresWeight(Arr(items), 1);
  }

  /** Joining two lists saves one bracket, which pays for the new comma: the
      estimate of the joined list never exceeds the two estimates together. */
  lemma EstimateIsSubadditive()
    ensures Subadditive(Estimate)
  {
    forall a, b
      ensures CostOrZero(Estimate, a + b) <= CostOrZero(Estimate, a) + CostOrZero(Estimate, b)
    {
      if a == [] {
        assert a + b == b;
      } else if b == [] {
        assert a + b == a;
      } else {
        SpacedWeightConcat(a, b);
        EstimateListBound(a, 0);
        EstimateListBound(b, 0);
        EstimateListBound(a + b, Estimate(Arr(a)) + Estimate(Arr(b)));
      }
    }
  }

  /** Weighing messages one by one is not safe: the list around them can cost more. */
  lemma SingleEstimatesUndercountTheList()
    ensures exists items: seq<Value> :: |items| == 1 && Estimate(Arr(items)) > Estimate(items[0])
  {
    var items := [Bool(true)];
    ListWeight(items);
    assert SpacedWeight(items) == WeightOf(Bool(true)) + 1 + SpacedWeight(items[1..]);
    AsciiTextWeight("true");
    EstimateMeasuresWeight(Bool(true), 1);
    EstimateMeasuresWeight(Arr(items), 1);
    assert |items| == 1 && Estimate(Arr(items)) > Estimate(items[0]);
  }
}
