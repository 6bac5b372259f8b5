/** How long checkpoint texts are inside a message, and where a text made of JSON can
    hold a long run of blanks. */
module CheckpointProperties {
  import opened Json
  import opened PyText
  import opened TokenEstimation
  import opened EscapedText
  import opened TextCutting
  import opened Messages
  import opened Checkpoints

  // ---------------------------------------------------------------- weight of a dictionary's text

  function EntryWeight(f: Field): nat {
    EscapedWeight(Quote(f.key)) + 2 + EscapedWeight(Spaced(f.value))
  }

  /** Entries, each with one separator. */
  function EntriesWeight(fields: seq<Field>): nat {
    if fields == [] then 0 else EntryWeight(fields[0]) + 2 + EntriesWeight(fields[1..])
  }

  lemma FieldTextWeight(f: Field)
    ensures EscapedWeight(SpacedField(f)) == EntryWeight(f)
  {
    EscapedConcat(Quote(f.key) + ": ", Spaced(f.value));
    EscapedConcat(Quote(f.key), ": ");
    PlainEscape(": ");
    hide EscapedWeight, Quote, Spaced;
  }

  lemma {:induction false} FieldsTextWeight(fields: seq<Field>)
    ensures fields != [] ==> EscapedWeight(SpacedFields(fields)) + 2 == EntriesWeight(fields)
  {
    hide SpacedField, EntryWeight, EscapedWeight;
    if fields != [] {
      FieldTextWeight(fields[0]);
      if |fields| > 1 {
        FieldsTextWeight(fields[1..]);
        Punctuation();
        EscapedConcat(SpacedField(fields[0]) + ", ", SpacedFields(fields[1..]));
        EscapedConcat(SpacedField(fields[0]), ", ");
      } else {
        assert fields[1..] == [];
      }
    }
  }

  lemma DictionaryWeight(fields: seq<Field>)
    requires fields != []
    ensures EscapedWeight(Spaced(Obj(fields))) == EntriesWeight(fields)
  {
    FieldsTextWeight(fields);
    EscapedConcat("{" + SpacedFields(fields), "}");
    EscapedConcat("{", SpacedFields(fields));
    PlainEscape("{");
    PlainEscape("}");
    hide EscapedWeight, EntriesWeight, SpacedFields;
  }

  lemma {:induction false} EntriesConcat(a: seq<Field>, b: seq<Field>)
    ensures EntriesWeight(a + b) == EntriesWeight(a) + EntriesWeight(b)
  {
    hide EntryWeight;
    if a == [] {
      assert a + b == b;
    } else {
      EntriesConcat(a[1..], b);
      assert (a + b)[1..] == a[1..] + b;
    }
  }

  lemma FourEntries(a: Field, b: Field, c: Field, d: Field)
    ensures EntriesWeight([a, b, c, d]) == 8 + EntryWeight(a) + EntryWeight(b) + EntryWeight(c) + EntryWeight(d)
  {
    hide EntryWeight;
    assert [a, b, c, d][1..] == [b, c, d] && [b, c, d][1..] == [c, d] && [c, d][1..] == [d] && [d][1..] == [];
    assert EntriesWeight([c, d]) == EntryWeight(c) + 2 + EntriesWeight([d]);
  }

  lemma ThreeEntries(a: Field, b: Field, c: Field)
    ensures EntriesWeight([a, b, c]) == 6 + EntryWeight(a) + EntryWeight(b) + EntryWeight(c)
  {
    hide EntryWeight;
    assert [a, b, c][1..] == [b, c] && [b, c][1..] == [c] && [c][1..] == [];
    assert EntriesWeight([b, c]) == EntryWeight(b) + 2 + EntriesWeight([c]);
  }

  lemma SevenEntries(a: Field, b: Field, c: Field, d: Field, e: Field, f: Field, g: Field)
    ensures EntriesWeight([a, b, c, d, e, f, g]) == 14 + EntryWeight(a) + EntryWeight(b) + EntryWeight(c) + EntryWeight(d)
                                                       + EntryWeight(e) + EntryWeight(f) + EntryWeight(g)
  {
    FourEntries(a, b, c, d);
    ThreeEntries(e, f, g);
    hide EntryWeight, EntriesWeight;
    EntriesConcat([a, b, c, d], [e, f, g]);
    assert [a, b, c, d] + [e, f, g] == [a, b, c, d, e, f, g];
  }

  /** An entry with a text costs its key, the text and ten for punctuation. */
  lemma TextEntry(key: string, text: string)
    ensures EntryWeight(Entry(key, text)) >= 10 + |key| + |text|
  {
    Quoted(key);
    Quoted(text);
    hide EscapedWeight, Quote, Plain;
  }

  lemma PlainEntry(key: string, text: string)
    requires Plain(key) && Plain(text)
    ensures EntryWeight(Entry(key, text)) == 10 + |key| + |text|
  {
    Quoted(key);
    Quoted(text);
    hide EscapedWeight, Quote, Plain;
  }

  lemma ListEntry(key: string, items: seq<Value>)
    ensures EntryWeight(Field(key, Arr(items))) >= 8 + |key|
  {
    Quoted(key);
    EscapedAtLeast(Spaced(Arr(items)));
    hide EscapedWeight, Quote, SpacedItems;
  }

  lemma RangeText(c: Checkpoint)
    ensures Spaced(CoveredRange(c).value) == ("[" + ((Quote(c.firstId) + ", ") + Quote(c.lastId))) + "]"
  {
    hide Quote;
    var items := [Str(c.firstId), Str(c.lastId)];
    assert items[1..] == [Str(c.lastId)];
    assert SpacedItems(items) == Spaced(items[0]) + ", " + SpacedItems(items[1..]);
  }

  lemma RangeEntry(c: Checkpoint)
    ensures EntryWeight(CoveredRange(c)) >= 37
  {
    RangeText(c);
    Quoted("covered_event_range");
    Quoted(c.firstId);
    Quoted(c.lastId);
    hide EscapedWeight, Quote, Spaced;
    var a, b := Quote(c.firstId), Quote(c.lastId);
    EscapedConcat("[" + ((a + ", ") + b), "]");
    EscapedConcat("[", (a + ", ") + b);
    EscapedConcat(a + ", ", b);
    EscapedConcat(a, ", ");
    Punctuation();
  }

  lemma Punctuation()
    ensures EscapedWeight("[") == 1 && EscapedWeight("]") == 1 && EscapedWeight(", ") == 2
    ensures EscapedWeight("{") == 1 && EscapedWeight("}") == 1 && EscapedWeight(": ") == 2
  {
    PlainEscape("[");
    PlainEscape("]");
    PlainEscape(", ");
    PlainEscape("{");
    PlainEscape("}");
    PlainEscape(": ");
    hide EscapedWeight;
  }

  const SHORTEST_BRIEF := 279

  /** The fixed keys, the id and the fingerprint alone make the brief text this long. */
  lemma BriefIsLong(c: Checkpoint)
    ensures EscapedWeight(Spaced(Brief(c))) >= SHORTEST_BRIEF
  {
    hide EscapedWeight, EntryWeight, EntriesWeight, Spaced, CheckpointId, CoveredRange, Entry, FactValues, HexDigits, LastOf;
    var facts := Field("critical_facts", Arr(FactValues(LastOf(c.facts, 3))));
    DictionaryWeight(Brief(c).fields);
    SevenEntries(
      Entry("checkpoint_id", CheckpointId(c)), Entry("subject_id", c.subjectId), Entry("goal", c.goal), facts,
      CoveredRange(c), Entry("first_kept_event_id", c.firstKeptId), Entry("source_fingerprint", c.fingerprint));
    hide Brief;
    IdentityIsLong(c);
    SourcesAreLong(c);
    ListEntry("critical_facts", FactValues(LastOf(c.facts, 3)));
  }

  lemma IdentityIsLong(c: Checkpoint)
    ensures EntryWeight(Entry("checkpoint_id", CheckpointId(c))) >= 51
    ensures EntryWeight(Entry("thread_id", c.threadId)) >= 19
    ensures EntryWeight(Entry("subject_id", c.subjectId)) >= 20
    ensures EntryWeight(Entry("goal", c.goal)) >= 14
  {
    hide EntryWeight, CheckpointId, Entry, HexDigits;
    IdLength(c);
    TextEntry("checkpoint_id", CheckpointId(c));
    TextEntry("thread_id", c.threadId);
    TextEntry("subject_id", c.subjectId);
    TextEntry("goal", c.goal);
  }

  lemma IdLength(c: Checkpoint)
    ensures |CheckpointId(c)| == 28
  {
    hide HexDigits;
  }

  lemma SourcesAreLong(c: Checkpoint)
    ensures EntryWeight(CoveredRange(c)) >= 37
    ensures EntryWeight(Entry("first_kept_event_id", c.firstKeptId)) >= 29
    ensures EntryWeight(Entry("source_fingerprint", c.fingerprint)) >= 92
  {
    hide EntryWeight, CoveredRange, Entry, HexDigits;
    RangeEntry(c);
    TextEntry("first_kept_event_id", c.firstKeptId);
    TextEntry("source_fingerprint", c.fingerprint);
  }

  /** So does the whole dictionary, whatever its facts. */
  lemma DictionaryIsLong(c: Checkpoint, facts: nat)
    ensures EscapedWeight(Spaced(AsDict(c, facts))) >= SHORTEST_BRIEF
  {
    var middle := Findings(LastOf(c.facts, facts));
    IdsAreLong(c);
    hide EscapedWeight, EntriesWeight, Findings, Identity, Sources;
    EntriesConcat(Identity(c) + middle, Sources(c));
    EntriesConcat(Identity(c), middle);
    DictionaryWeight(Identity(c) + middle + Sources(c));
  }

  lemma IdsAreLong(c: Checkpoint)
    ensures |Sources(c)| > 0 && EntriesWeight(Identity(c)) + EntriesWeight(Sources(c)) >= SHORTEST_BRIEF
  {
    hide EscapedWeight, EntryWeight, Spaced, CheckpointId, CoveredRange;
    IdentityIsLong(c);
    SourcesAreLong(c);
    var first := CoveredRange(c);
    var back := [Entry("first_kept_event_id", c.firstKeptId), Entry("source_fingerprint", c.fingerprint),
                 Entry("previous_checkpoint_id", ""), Entry("summary_version", "context-checkpoint-v1")];
    assert Sources(c) == [first] + back && ([first] + back)[1..] == back;
    FourEntries(back[0], back[1], back[2], back[3]);
    FourEntries(Identity(c)[0], Identity(c)[1], Identity(c)[2], Identity(c)[3]);
    TextEntry("previous_checkpoint_id", "");
  }

  // ---------------------------------------------------------------- runs of blanks

  /** Weight of the blanks a text starts with. */
  function LeadingBlanks(s: string): nat {
    if s != "" && IsSpace(s[0]) then EscapedWeight([s[0]]) + LeadingBlanks(s[1..]) else 0
  }

  /** No run of blanks weighs more than `k`; an ordinary blank weighs one, one that is
      not ASCII four. */
  predicate BlanksWithin(s: string, k: nat) {
    s == "" || (LeadingBlanks(s) <= k && BlanksWithin(s[1..], k))
  }

  lemma {:induction false} BlanksOfSuffix(s: string, k: nat, i: nat)
    requires BlanksWithin(s, k) && i <= |s|
    ensures BlanksWithin(s[i..], k)
    decreases i
  {
    if i > 0 {
      BlanksOfSuffix(s[1..], k, i - 1);
      assert s[1..][i - 1..] == s[i..];
    } else {
      assert s[0..] == s;
    }
  }

  lemma {:induction false} BlankPrefix(s: string, n: nat)
    requires n <= |s| && forall i :: 0 <= i < n ==> IsSpace(s[i])
    ensures EscapedWeight(s[..n]) <= LeadingBlanks(s)
  {
    if n > 0 {
      BlankPrefix(s[1..], n - 1);
      assert s[..n] == [s[0]] + s[1..][..n - 1];
      EscapedConcat([s[0]], s[1..][..n - 1]);
      hide EscapedWeight, IsSpace;
    } else {
      assert s[..n] == "";
      PlainEscape("");
    }
  }

  lemma {:induction false} StripLeftLoses(s: string)
    ensures EscapedWeight(s) == EscapedWeight(StripLeft(s)) + LeadingBlanks(s)
  {
    hide EscapedWeight, IsSpace;
    if s != "" && IsSpace(s[0]) {
      StripLeftLoses(s[1..]);
      assert s == [s[0]] + s[1..];
      EscapedConcat([s[0]], s[1..]);
    }
  }

  lemma {:induction false} StrippedAreBlank(s: string)
    ensures forall i :: |StripRight(s)| <= i < |s| ==> IsSpace(s[i])
  {
    hide IsSpace;
    if s != "" && IsSpace(s[|s| - 1]) {
      StrippedAreBlank(s[..|s| - 1]);
    }
  }

  /** Stripping either end of a part of a text takes no more than the longest run. */
  lemma StripLosesLittle(s: string, k: nat, n: nat)
    requires BlanksWithin(s, k) && n <= |s|
    ensures EscapedWeight(s[..n]) <= EscapedWeight(StripRight(s[..n])) + k
    ensures EscapedWeight(s[n..]) <= EscapedWeight(StripLeft(s[n..])) + k
  {
    BlanksOfSuffix(s, k, n);
    StripLeftLoses(s[n..]);
    LeadingWithin(s[n..], k);
    var kept := StripRight(s[..n]);
    BlanksOfSuffix(s, k, |kept|);
    LeadingWithin(s[|kept|..], k);
    hide BlanksWithin, LeadingBlanks, EscapedWeight, StripLeft;
    StripRightLoses(s, n);
  }

  lemma LeadingWithin(s: string, k: nat)
    requires BlanksWithin(s, k)
    ensures LeadingBlanks(s) <= k
  {
  }

  lemma StripRightLoses(s: string, n: nat)
    requires n <= |s|
    ensures EscapedWeight(s[..n]) <= EscapedWeight(StripRight(s[..n])) + LeadingBlanks(s[|StripRight(s[..n])|..])
  {
    hide IsSpace, StripRight, EscapedWeight, LeadingBlanks;
    var kept := StripRight(s[..n]);
    StrippedAreBlank(s[..n]);
    assert kept <= s[..n];
    var tail := s[|kept|..];
    assert s[..n] == kept + tail[..n - |kept|];
    forall i | 0 <= i < n - |kept|
      ensures IsSpace(tail[i])
    {
      assert tail[i] == s[..n][|kept| + i];
    }
    BlankPrefix(tail, n - |kept|);
    EscapedConcat(kept, tail[..n - |kept|]);
  }

  // ---------------------------------------------------------------- the cut of a long text

  /** What a checkpoint's text may weigh for its message to fit 96 tokens, and the
      budget its cut is given. */
  const CHECKPOINT_ROOM := 264
  const CUT_BUDGET := 79

  lemma {:induction false} LongestFitFrom(est: Estimator, v: string, budget: int, size: nat) returns (longest: nat)
    requires 2 <= size <= |v| / 2 && MonotoneCuts(est, v, MARKER)
    requires Fits(est, v, MARKER, size, budget)
    ensures longest >= 2 && LongestFit(est, v, MARKER, budget, longest)
    decreases |v| / 2 - size
  {
    hide Candidate;
    if size < |v| / 2 && Fits(est, v, MARKER, size + 1, budget) {
      longest := LongestFitFrom(est, v, budget, size + 1);
    } else {
      longest := size;
    }
  }

  /** A text of some length has a cut for any budget of eleven tokens or more. */
  lemma LongTextIsCut(v: string, budget: int) returns (size: nat)
    requires |v| >= 4 && budget >= 11
    ensures size >= 2 && LongestFit(Estimate, v, MARKER, budget, size)
    ensures HeadTailCut(Estimate, v, budget) == Candidate(v, MARKER, size)
  {
    CutsAreMonotone(v, MARKER);
    TwoFit(v);
    hide HeadTailCut, Candidate, Estimate;
    size := LongestFitFrom(Estimate, v, budget, 2);
    HeadTailIsLongest(v, budget, size);
  }

  lemma ShortWeight(s: string)
    ensures Weight(s) <= 4 * |s|
  {
  }

  lemma MarkerWeighs()
    ensures Weight(MARKER) == 27
    ensures EscapedWeight(MARKER) == 29
  {
    AsciiTextWeight(MARKER);
    assert Plain(BARE_MARKER) && |BARE_MARKER| == 25;
    LineWeight(BARE_MARKER);
    hide *;
  }

  lemma LineWeight(inner: string)
    requires Plain(inner)
    ensures EscapedWeight("\n" + inner + "\n") == |inner| + 4
  {
    EscapedConcat("\n" + inner, "\n");
    EscapedConcat("\n", inner);
    PlainEscape(inner);
    LineBreak();
    hide EscapedWeight;
  }

  lemma LineBreak()
    ensures EscapedWeight("\n") == 2
  {
    assert Escape("\n") == "\\n" + Escape("\n"[1..]);
    AsciiTextWeight("\\n");
  }

  lemma TwoFit(v: string)
    requires |v| >= 4
    ensures Fits(Estimate, v, MARKER, 2, 11)
  {
    hide Weight, StripLeft, StripRight, Candidate, EstimateText;
    MarkerWeighs();
    CandidateWeight(v, MARKER, 2);
    StripLeftIsSuffix(v[|v| - 2..]);
    ShortWeight(StripRight(v[..2]));
    ShortWeight(StripLeft(v[|v| - 2..]));
    assert Weight(Candidate(v, MARKER, 2)) <= 4 * 11;
    EstimateTextMeasuresWeight(Candidate(v, MARKER, 2));
  }

  lemma EscapedCut(v: string, size: nat)
    requires 1 <= size <= |v|
    ensures EscapedWeight(Candidate(v, MARKER, size))
         == EscapedWeight(StripRight(v[..size])) + 29 + EscapedWeight(StripLeft(v[|v| - size..]))
  {
    MarkerWeighs();
    EscapedConcat(StripRight(v[..size]) + MARKER, StripLeft(v[|v| - size..]));
    EscapedConcat(StripRight(v[..size]), MARKER);
    hide EscapedWeight, StripLeft, StripRight;
  }

  const LONGEST_RUN := 16

  /** A cut that stops short of the middle fills the budget, but for two characters and
      two runs of blanks. */
  lemma CutFillsBudget(v: string, size: nat)
    requires BlanksWithin(v, LONGEST_RUN) && 1 <= size < |v| / 2
    requires !Fits(Estimate, v, MARKER, size + 1, CUT_BUDGET)
    ensures EscapedWeight(Candidate(v, MARKER, size)) > CHECKPOINT_ROOM
  {
    hide Weight, EscapedWeight, Candidate, StripLeft, StripRight, BlanksWithin, Fits;
    CutOverflows(v, size + 1);
    EscapedCut(v, size);
    StripLosesLittle(v, LONGEST_RUN, size);
    StripLosesLittle(v, LONGEST_RUN, |v| - size);
    OneMore(v, size);
  }

  lemma CutOverflows(v: string, size: nat)
    requires 1 <= size <= |v| && !Fits(Estimate, v, MARKER, size, CUT_BUDGET)
    ensures Weight(StripRight(v[..size])) + 27 + Weight(StripLeft(v[|v| - size..])) > 4 * CUT_BUDGET
  {
    hide Weight, StripLeft, StripRight, Candidate, EstimateText;
    EstimateTextMeasuresWeight(Candidate(v, MARKER, size));
    CandidateWeight(v, MARKER, size);
    MarkerWeighs();
  }

  /** One character more on each side adds at most that much to the stripped ends. */
  lemma OneMore(v: string, size: nat)
    requires size < |v| / 2
    ensures Weight(StripRight(v[..size + 1])) <= EscapedWeight(v[..size]) + 4
    ensures Weight(StripLeft(v[|v| - size - 1..])) <= EscapedWeight(v[|v| - size..]) + 4
  {
    var head, tail := v[..size + 1], v[|v| - size - 1..];
    assert head == v[..size] + [v[size]];
    assert tail == [v[|v| - size - 1]] + v[|v| - size..];
    PrefixWeight(StripRight(head), head);
    StripLeftIsSuffix(tail);
    SuffixWeight(StripLeft(tail), tail);
    WeightConcat(v[..size], [v[size]]);
    WeightConcat([v[|v| - size - 1]], v[|v| - size..]);
    CharEscaped(v[size]);
    CharEscaped(v[|v| - size - 1]);
    EscapedAtLeast(v[..size]);
    EscapedAtLeast(v[|v| - size..]);
    hide Weight, EscapedWeight, StripLeft, StripRight;
  }

  /** A cut that reaches the middle keeps the text, but for one character and two runs of blanks. */
  lemma WholeCutIsLong(v: string)
    requires BlanksWithin(v, LONGEST_RUN) && |v| >= 2 && EscapedWeight(v) >= SHORTEST_BRIEF
    ensures EscapedWeight(Candidate(v, MARKER, |v| / 2)) > CHECKPOINT_ROOM
  {
    var size := |v| / 2;
    EscapedCut(v, size);
    StripLosesLittle(v, LONGEST_RUN, size);
    StripLosesLittle(v, LONGEST_RUN, |v| - size);
    Middle(v, size);
    hide EscapedWeight, Candidate, StripLeft, StripRight;
  }

  lemma Middle(v: string, size: nat)
    requires size == |v| / 2
    ensures EscapedWeight(v) <= EscapedWeight(v[..size]) + 6 + EscapedWeight(v[|v| - size..])
  {
    var middle := v[size..|v| - size];
    assert v == v[..size] + middle + v[|v| - size..];
    EscapedConcat(v[..size] + middle, v[|v| - size..]);
    EscapedConcat(v[..size], middle);
    if middle == "" {
      PlainEscape("");
    } else {
      assert middle == [v[size]];
      OneCharacter(v[size]);
    }
    hide EscapedWeight;
  }

  lemma OneCharacter(c: char)
    ensures EscapedWeight([c]) <= 6
  {
    CharEscaped(c);
    hide Weight, EscapeChar;
    assert [c][1..] == "";
    assert Escape([c]) == EscapeChar(c) + Escape("") == EscapeChar(c);
  }

  /** A text as long as the shortest checkpoint, without long runs of blanks, is too long
      for a checkpoint's message even when cut. */
  lemma CutIsTooLong(v: string)
    requires BlanksWithin(v, LONGEST_RUN) && EscapedWeight(v) >= SHORTEST_BRIEF
    ensures EscapedWeight(HeadTailCut(Estimate, v, CUT_BUDGET)) > CHECKPOINT_ROOM
  {
    hide HeadTailCut, Candidate, EscapedWeight, BlanksWithin, Fits, Estimate;
    EscapedAtMost(v);
    var size := LongTextIsCut(v, CUT_BUDGET);
    if size < |v| / 2 {
      CutFillsBudget(v, size);
    } else {
      WholeCutIsLong(v);
    }
  }

  // ---------------------------------------------------------------- blanks in a text made of JSON

  /** A text that begins with something else than a blank, and holds no long run of them. */
  predicate Solid(s: string, k: nat) {
    s != "" && !IsSpace(s[0]) && BlanksWithin(s, k)
  }

  lemma {:induction false} BlanksConcat(a: string, b: string, k: nat)
    requires BlanksWithin(a, k) && (b == "" || Solid(b, k))
    ensures BlanksWithin(a + b, k)
    ensures LeadingBlanks(a + b) == LeadingBlanks(a)
    ensures Solid(a, k) ==> Solid(a + b, k)
  {
    hide IsSpace, EscapedWeight;
    if a == "" {
      assert a + b == b;
    } else {
      BlanksConcat(a[1..], b, k);
      assert (a + b)[1..] == a[1..] + b;
    }
  }

  lemma {:induction false} NoBlanks(s: string, k: nat)
    requires forall i :: 0 <= i < |s| ==> !IsSpace(s[i])
    ensures BlanksWithin(s, k)
  {
    hide IsSpace;
    if s != "" {
      NoBlanks(s[1..], k);
    }
  }

  lemma {:induction false} MoreBlanks(s: string, k: nat, m: nat)
    requires BlanksWithin(s, k) && k <= m
    ensures BlanksWithin(s, m)
  {
    if s != "" {
      MoreBlanks(s[1..], k, m);
    }
  }

  lemma {:induction false} BlanksOfPrefix(s: string, k: nat, n: nat)
    requires BlanksWithin(s, k) && n <= |s|
    ensures BlanksWithin(s[..n], k) && LeadingBlanks(s[..n]) <= LeadingBlanks(s)
  {
    hide IsSpace, EscapedWeight;
    if n > 0 {
      BlanksOfPrefix(s[1..], k, n - 1);
      assert s[..n][1..] == s[1..][..n - 1];
    }
  }

  lemma EscapeCharBlanks(c: char)
    ensures EscapeChar(c) != ""
    ensures EscapeChar(c) == [c] || forall i :: 0 <= i < |EscapeChar(c)| ==> !IsSpace(EscapeChar(c)[i])
  {
  }

  lemma BlanksPrepend(a: string, b: string, k: nat)
    requires a != "" && BlanksWithin(b, k)
    requires forall i :: 0 <= i < |a| ==> !IsSpace(a[i])
    ensures BlanksWithin(a + b, k) && LeadingBlanks(a + b) == 0
  {
    hide IsSpace, EscapedWeight;
    assert (a + b)[1..] == a[1..] + b;
    if |a| > 1 {
      BlanksPrepend(a[1..], b, k);
    } else {
      assert a[1..] + b == b;
    }
  }

  /** Writing a text into JSON only breaks its runs of blanks. */
  lemma {:induction false} EscapeBlanks(s: string, k: nat)
    requires BlanksWithin(s, k)
    ensures BlanksWithin(Escape(s), k) && LeadingBlanks(Escape(s)) <= LeadingBlanks(s)
  {
    if s != "" {
      var c, rest := s[0], Escape(s[1..]);
      EscapeBlanks(s[1..], k);
      EscapeCharBlanks(c);
      hide EscapeChar, EscapedWeight, IsSpace;
      if EscapeChar(c) == [c] {
        assert ([c] + rest)[1..] == rest;
      } else {
        BlanksPrepend(EscapeChar(c), rest, k);
      }
    }
  }

  lemma QuoteBlanks(s: string, k: nat)
    requires BlanksWithin(s, k)
    ensures Solid(Quote(s), k)
  {
    EscapeBlanks(s, k);
    NoBlanks("\"", k);
    BlanksConcat(Escape(s), "\"", k);
    BlanksPrepend("\"", Escape(s) + "\"", k);
    hide IsSpace, BlanksWithin, Escape;
    assert "\"" + (Escape(s) + "\"") == Quote(s);
  }

  /** Texts, and lists and dictionaries of them, without long runs of blanks. */
  predicate TextsWithin(v: Value, k: nat) {
    match v
    case Str(s) => BlanksWithin(s, k)
    case Arr(items) => forall i :: 0 <= i < |items| ==> TextsWithin(items[i], k)
    case Obj(fields) => forall i :: 0 <= i < |fields| ==> BlanksWithin(fields[i].key, k) && TextsWithin(fields[i].value, k)
    case _ => false
  }

  lemma Separated(a: string, separator: string, b: string, k: nat)
    requires Solid(a, k) && Solid(b, k) && k >= 1 && separator in {", ", ": "}
    ensures Solid(a + separator + b, k)
  {
    SeparatorBlanks(k);
    hide IsSpace, BlanksWithin, LeadingBlanks;
    BlanksConcat(a, separator, k);
    BlanksConcat(a + separator, b, k);
  }

  lemma SeparatorBlanks(k: nat)
    requires k >= 1
    ensures Solid(", ", k) && Solid(": ", k)
  {
    PlainEscape(" ");
    assert ", "[1..] == " " && ": "[1..] == " " && " "[1..] == "";
    assert LeadingBlanks(" ") == EscapedWeight([' ']) + LeadingBlanks("");
  }

  lemma Bracketed(open: char, s: string, close: char, k: nat)
    requires !IsSpace(open) && !IsSpace(close)
    requires s == "" || Solid(s, k)
    ensures Solid([open] + s + [close], k)
  {
    hide IsSpace;
    assert [open][1..] == "" && [close][1..] == "";
    BlanksConcat([open], s, k);
    BlanksConcat([open] + s, [close], k);
  }

  /** The text of such a value has no longer run than its texts. */
  lemma {:induction false} SpacedBlanks(v: Value, k: nat)
    requires TextsWithin(v, k) && k >= 1
    ensures Solid(Spaced(v), k)
    decreases v, 1
  {
    match v
    case Str(s) => QuoteBlanks(s, k);
    case Arr(items) =>
      ItemsBlanks(items, k);
      Bracketed('[', SpacedItems(items), ']', k);
      hide SpacedItems, Solid;
      assert "[" + SpacedItems(items) + "]" == ['['] + SpacedItems(items) + [']'];
    case Obj(fields) =>
      FieldsBlanks(fields, k);
      Bracketed('{', SpacedFields(fields), '}', k);
      hide SpacedFields, Solid;
      assert "{" + SpacedFields(fields) + "}" == ['{'] + SpacedFields(fields) + ['}'];
    case _ =>
  }

  lemma {:induction false} ItemsBlanks(items: seq<Value>, k: nat)
    requires k >= 1 && forall i :: 0 <= i < |items| ==> TextsWithin(items[i], k)
    ensures items == [] || Solid(SpacedItems(items), k)
    decreases items, 0
  {
    hide Solid, TextsWithin;
    if items != [] {
      SpacedBlanks(items[0], k);
      if |items| > 1 {
        ItemsBlanks(items[1..], k);
        Separated(Spaced(items[0]), ", ", SpacedItems(items[1..]), k);
      }
    }
  }

  lemma {:induction false} FieldsBlanks(fields: seq<Field>, k: nat)
    requires k >= 1 && forall i :: 0 <= i < |fields| ==> BlanksWithin(fields[i].key, k) && TextsWithin(fields[i].value, k)
    ensures fields == [] || Solid(SpacedFields(fields), k)
    decreases fields, 0
  {
    hide Solid, TextsWithin, BlanksWithin, Spaced;
    if fields != [] {
      var f := fields[0];
      assert f.value < f;
      SpacedBlanks(f.value, k);
      QuoteBlanks(f.key, k);
      Separated(Quote(f.key), ": ", Spaced(f.value), k);
      if |fields| > 1 {
        FieldsBlanks(fields[1..], k);
        Separated(SpacedField(f), ", ", SpacedFields(fields[1..]), k);
      }
    }
  }

  // ---------------------------------------------------------------- blanks in a checkpoint

  lemma {:induction false} WordsBlanks(s: string)
    ensures BlanksWithin(Words(s), 1)
    ensures s != "" && !IsSpace(s[0]) ==> Solid(Words(s), 1)
    decreases |s|
  {
    if s != "" {
      if IsSpace(s[0]) {
        StripLeftIsSuffix(s[1..]);
        var rest := Words(StripLeft(s));
        StripLeftStarts(s);
        WordsBlanks(StripLeft(s));
        PlainEscape(" ");
        assert (" " + rest)[1..] == rest;
        hide IsSpace, EscapedWeight, StripLeft;
      } else {
        WordsBlanks(s[1..]);
        assert ([s[0]] + Words(s[1..]))[1..] == Words(s[1..]);
        hide IsSpace, EscapedWeight;
      }
    }
  }

  lemma ExcerptBlanks(m: Message)
    ensures BlanksWithin(Excerpt(m), 1)
  {
    var content := Get(m, "content");
    hide Get, Words, StripLeft, StripRight;
    if content.Str? {
      WordsBlanks(StripLeft(content.s));
      ShortenedBlanks(Normalized(content.s));
    }
  }

  lemma ShortenedBlanks(text: string)
    requires BlanksWithin(text, 1)
    ensures |text| > EXCERPT_LIMIT ==> BlanksWithin(StripRight(text[..EXCERPT_LIMIT - 3]) + "...", 1)
  {
    hide BlanksWithin, StripRight;
    if |text| > EXCERPT_LIMIT {
      var cut := text[..EXCERPT_LIMIT - 3];
      var kept := StripRight(cut);
      BlanksOfPrefix(text, 1, EXCERPT_LIMIT - 3);
      BlanksOfPrefix(cut, 1, |kept|);
      assert kept == cut[..|kept|];
      Dots();
      BlanksConcat(kept, "...", 1);
    }
  }

  lemma Dots()
    ensures Solid("...", 1)
  {
    NoBlanks("...", 1);
  }

  /** Ids of messages without long runs of blanks. */
  predicate IdsWithin(messages: seq<Message>, k: nat) {
    forall m :: m in messages ==> BlanksWithin(IdOf(m), k)
  }

  lemma FactBlanks(fact: Fact, k: nat)
    requires BlanksWithin(fact.value, k) && BlanksWithin(fact.sourceRef, k) && fact.role in {"user", "tool"}
    ensures TextsWithin(FactValue(fact), k)
  {
    hide BlanksWithin, IsSpace;
    FactKeysBlanks(k);
    RolesBlanks(k);
  }

  lemma FactKeysBlanks(k: nat)
    ensures BlanksWithin("value", k) && BlanksWithin("source_ref", k) && BlanksWithin("role", k)
  {
    NoBlanks("value", k);
    NoBlanks("source_ref", k);
    NoBlanks("role", k);
    hide BlanksWithin;
  }

  lemma RolesBlanks(k: nat)
    ensures BlanksWithin("user", k) && BlanksWithin("tool", k)
  {
    NoBlanks("user", k);
    NoBlanks("tool", k);
    hide BlanksWithin;
  }

  lemma {:induction false} FactsBlanks(messages: seq<Message>, k: nat)
    requires IdsWithin(messages, k) && k >= 1
    ensures forall f :: f in Facts(messages) ==> TextsWithin(FactValue(f), k)
  {
    if messages != [] {
      var m := messages[0];
      FactsBlanks(messages[1..], k);
      ExcerptBlanks(m);
      MoreBlanks(Excerpt(m), 1, k);
      NoBlanks("conversation-history", k);
      hide Excerpt, IdOf, BlanksWithin, Role, IsSpace, TextsWithin;
      if Role(m) in {"user", "tool"} && Excerpt(m) != "" {
        FactBlanks(Facts(messages)[0], k);
      }
    }
  }

  lemma {:induction false} GoalBlanks(omitted: seq<Message>)
    ensures BlanksWithin(Goal(omitted), 1)
  {
    hide Excerpt, Role;
    if omitted != [] {
      ExcerptBlanks(omitted[|omitted| - 1]);
      GoalBlanks(omitted[..|omitted| - 1]);
      hide BlanksWithin;
    }
  }

  lemma BriefKeysBlanks(k: nat)
    ensures BlanksWithin("checkpoint_id", k) && BlanksWithin("subject_id", k) && BlanksWithin("goal", k)
    ensures BlanksWithin("critical_facts", k)
  {
    NoBlanks("checkpoint_id", k);
    NoBlanks("subject_id", k);
    NoBlanks("goal", k);
    NoBlanks("critical_facts", k);
    hide BlanksWithin;
  }

  lemma SourceKeysBlanks(k: nat)
    ensures BlanksWithin("covered_event_range", k)
    ensures BlanksWithin("first_kept_event_id", k) && BlanksWithin("source_fingerprint", k)
  {
    NoBlanks("covered_event_range", k);
    NoBlanks("first_kept_event_id", k);
    NoBlanks("source_fingerprint", k);
    hide BlanksWithin;
  }

  lemma FingerprintBlanks(c: Checkpoint, k: nat)
    ensures BlanksWithin(c.fingerprint, k) && BlanksWithin(CheckpointId(c), k)
  {
    NoBlanks(c.fingerprint, k);
    NoBlanks(CheckpointId(c), k);
    hide BlanksWithin;
  }

  lemma BriefTexts(c: Checkpoint, k: nat)
    requires forall f :: f in c.facts ==> TextsWithin(FactValue(f), k)
    requires BlanksWithin(c.subjectId, k) && BlanksWithin(c.goal, k)
    requires BlanksWithin(c.firstId, k) && BlanksWithin(c.lastId, k) && BlanksWithin(c.firstKeptId, k)
    ensures TextsWithin(Brief(c), k)
  {
    BriefKeysBlanks(k);
    SourceKeysBlanks(k);
    FingerprintBlanks(c, k);
    hide BlanksWithin, FactValue, CheckpointId;
    var facts := LastOf(c.facts, 3);
    assert forall i :: 0 <= i < |facts| ==> facts[i] in c.facts;
    assert TextsWithin(Arr(FactValues(facts)), k);
    assert TextsWithin(CoveredRange(c).value, k);
  }

  /** With subject and message ids free of long runs, so is the brief text of a checkpoint. */
  lemma BriefBlanks(origin: Origin, omitted: seq<Message>, k: nat)
    requires k >= 1 && BlanksWithin(origin.subjectId, k) && IdsWithin(omitted, k)
    ensures BlanksWithin(Spaced(Brief(CheckpointOf(origin, omitted, []))), k)
  {
    var c := CheckpointOf(origin, omitted, []);
    NoBlanks("", k);
    FactsBlanks(LastOf(omitted, FACT_MESSAGES), k);
    GoalBlanks(omitted);
    MoreBlanks(Goal(omitted), 1, k);
    hide BlanksWithin, Goal, Facts, FactValue, IdOf, TextsWithin, Brief, Spaced;
    BriefTexts(c, k);
    SpacedBlanks(Brief(c), k);
  }
}
