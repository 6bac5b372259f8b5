/** The two binary searches that cut a text to a token budget: the head-and-tail
    cut of the working-context compactor and the prefix cut of the context window. */
module TextCutting {
  import opened Json
  import opened PyText
  import opened TokenEstimation

  lemma EstimateTextMonotone(a: string, b: string)
    requires Weight(a) <= Weight(b)
    ensures EstimateText(a) <= EstimateText(b)
  {
    EstimateTextMeasuresWeight(b);
    EstimateTextMeasuresWeight(a);
  }

  lemma PrefixWeight(a: string, b: string)
    requires a <= b
    ensures Weight(a) <= Weight(b)
  {
    assert a + b[|a|..] == b;
    WeightConcat(a, b[|a|..]);
  }

  lemma SuffixWeight(a: string, b: string)
    requires |a| <= |b| && b[|b| - |a|..] == a
    ensures Weight(a) <= Weight(b)
  {
    assert b[..|b| - |a|] + a == b;
    WeightConcat(b[..|b| - |a|], a);
  }

  // ---------------------------------------------------------------- head and tail

  const BARE_MARKER := "...[context compacted]..."

  const MARKER := "\n" + BARE_MARKER + "\n"

  lemma MarkerCosts()
    ensures EstimateText(MARKER) == 7
  {
    AsciiTextWeight(MARKER);
    EstimateTextMeasuresWeight(MARKER);
  }

  lemma BareMarkerCosts()
    ensures EstimateText(Strip(MARKER)) == 7 && Strip(MARKER) != ""
  {
    hide StripLeft, StripRight;
    assert BARE_MARKER[0] == '.' && BARE_MARKER[|BARE_MARKER| - 1] == '.';
    assert forall i :: 0 <= i < |BARE_MARKER| ==> IsAscii(BARE_MARKER[i]);
    AsciiTextWeight(BARE_MARKER);
    StripLines(BARE_MARKER);
  }

  lemma StripLines(inner: string)
    requires inner != "" && !IsSpace(inner[0]) && !IsSpace(inner[|inner| - 1])
    ensures Strip("\n" + inner + "\n") == inner
  {
    var left := "\n" + inner;
    var s := left + "\n";
    assert s[|s| - 1] == '\n' && s[..|s| - 1] == left;
    assert left[|left| - 1] == inner[|inner| - 1];
    assert StripRight(s) == StripRight(left) == left;
    assert left[1..] == inner;
    assert StripLeft(left) == StripLeft(inner) == inner;
  }

  /** `value[:size].rstrip() + marker + value[-size:].lstrip()`; a size of zero
      slices the whole value on the right-hand side, as Python does. */
  function Candidate(value: string, marker: string, size: nat): string
    requires size <= |value|
  {
    StripRight(value[..size]) + marker + StripLeft(if size == 0 then value else value[|value| - size..])
  }

  predicate Fits(est: Estimator, value: string, marker: string, size: nat, budget: int)
    requires size <= |value|
  {
    est(Str(Candidate(value, marker, size))) <= budget
  }

  /** The state of the search after some probes, run to its end. */
  function HeadTailSearch(
      est: Estimator, value: string, marker: string, budget: int, low: nat, high: int, best: string): string
    requires high <= |value| / 2
    decreases high - low + 1
  {
    if low > high then best
    else
      var size := (low + high) / 2;
      if Fits(est, value, marker, size, budget)
      then HeadTailSearch(est, value, marker, budget, size + 1, high, Candidate(value, marker, size))
      else HeadTailSearch(est, value, marker, budget, low, size - 1, best)
  }

  function HeadTailCut(est: Estimator, value: string, budget: int): string {
    if est(Str(MARKER)) >= budget then Strip(MARKER)
    else HeadTailSearch(est, value, MARKER, budget, 0, |value| / 2, MARKER)
  }

  method HeadTail(est: Estimator, value: string, budget: int) returns (cut: string)
    ensures cut == HeadTailCut(est, value, budget)
  {
    if est(Str(MARKER)) >= budget {
      return Strip(MARKER);
    }
    cut := SearchHeadTail(est, value, MARKER, budget);
  }

  method SearchHeadTail(est: Estimator, value: string, marker: string, budget: int) returns (best: string)
    ensures best == HeadTailSearch(est, value, marker, budget, 0, |value| / 2, marker)
  {
    hide Candidate;
    var low, high := 0, |value| / 2;
    best := marker;
    while low <= high
      invariant 0 <= low && high <= |value| / 2
      invariant HeadTailSearch(est, value, marker, budget, low, high, best)
             == HeadTailSearch(est, value, marker, budget, 0, |value| / 2, marker)
    {
      var size := (low + high) / 2;
      var candidate := Candidate(value, marker, size);
      if est(Str(candidate)) <= budget {
        best := candidate;
        low := size + 1;
      } else {
        high := size - 1;
      }
    }
  }

  lemma CandidateNotEmpty(value: string, marker: string, size: nat)
    requires size <= |value| && marker != ""
    ensures Candidate(value, marker, size) != ""
  {
  }

  lemma {:induction false} HeadTailSearchFits(
      est: Estimator, value: string, marker: string, budget: int, low: nat, high: int, best: string)
    requires high <= |value| / 2 && marker != ""
    requires est(Str(best)) <= budget && best != ""
    ensures est(Str(HeadTailSearch(est, value, marker, budget, low, high, best))) <= budget
    ensures HeadTailSearch(est, value, marker, budget, low, high, best) != ""
    decreases high - low + 1
  {
    hide Candidate;
    if low <= high {
      var size := (low + high) / 2;
      CandidateNotEmpty(value, marker, size);
      if Fits(est, value, marker, size, budget) {
        HeadTailSearchFits(est, value, marker, budget, size + 1, high, Candidate(value, marker, size));
      } else {
        HeadTailSearchFits(est, value, marker, budget, low, size - 1, best);
      }
    }
  }

  lemma HeadTailNotEmpty(est: Estimator, value: string, budget: int)
    ensures HeadTailCut(est, value, budget) != ""
  {
    if est(Str(MARKER)) < budget {
      HeadTailSearchFits(est, value, MARKER, budget, 0, |value| / 2, MARKER);
    } else {
      BareMarkerCosts();
    }
  }

  /** The cut never costs more than the budget, or than the bare marker. */
  lemma HeadTailNeverExceeds(value: string, budget: int)
    ensures EstimateText(HeadTailCut(Estimate, value, budget)) <= if budget > 7 then budget else 7
  {
    MarkerCosts();
    if EstimateText(MARKER) < budget {
      HeadTailSearchFits(Estimate, value, MARKER, budget, 0, |value| / 2, MARKER);
    } else {
      BareMarkerCosts();
    }
  }

  /** From size one upwards a larger cut costs at least as much; size zero is the exception. */
  ghost predicate MonotoneCuts(est: Estimator, value: string, marker: string) {
    forall m, n :: 1 <= m <= n <= |value| ==>
      est(Str(Candidate(value, marker, m))) <= est(Str(Candidate(value, marker, n)))
  }

  lemma CandidateWeight(value: string, marker: string, size: nat)
    requires 1 <= size <= |value|
    ensures Weight(Candidate(value, marker, size)) ==
            Weight(StripRight(value[..size])) + Weight(marker) + Weight(StripLeft(value[|value| - size..]))
  {
    WeightConcat(StripRight(value[..size]), marker);
    WeightConcat(StripRight(value[..size]) + marker, StripLeft(value[|value| - size..]));
  }

  lemma CutsAreMonotone(value: string, marker: string)
    ensures MonotoneCuts(Estimate, value, marker)
  {
    forall m, n | 1 <= m <= n <= |value|
      ensures Estimate(Str(Candidate(value, marker, m))) <= Estimate(Str(Candidate(value, marker, n)))
    {
      StripRightMonotone(value, m, n);
      StripLeftMonotone(value, |value| - n, |value| - m);
      PrefixWeight(StripRight(value[..m]), StripRight(value[..n]));
      SuffixWeight(StripLeft(value[|value| - m..]), StripLeft(value[|value| - n..]));
      CandidateWeight(value, marker, m);
      CandidateWeight(value, marker, n);
      EstimateTextMonotone(Candidate(value, marker, m), Candidate(value, marker, n));
    }
  }

  /** `size` is the longest head and tail that fits, among the sizes from one up. */
  ghost predicate LongestFit(est: Estimator, value: string, marker: string, budget: int, size: nat) {
    && 1 <= size <= |value| / 2
    && Fits(est, value, marker, size, budget)
    && forall m :: size < m <= |value| / 2 ==> !Fits(est, value, marker, m, budget)
  }

  lemma {:induction false} HeadTailSearchFinds(
      est: Estimator, value: string, marker: string, budget: int, low: nat, high: int, best: string, size: nat)
    requires high <= |value| / 2 && MonotoneCuts(est, value, marker)
    requires LongestFit(est, value, marker, budget, size) && size >= 2
    requires size <= high
    requires low <= size || (low == size + 1 && best == Candidate(value, marker, size))
    ensures HeadTailSearch(est, value, marker, budget, low, high, best) == Candidate(value, marker, size)
    decreases high - low + 1
  {
    hide Candidate;
    if low <= high {
      var mid := (low + high) / 2;
      if mid <= size {
        HeadTailSearchFinds(est, value, marker, budget, mid + 1, high, Candidate(value, marker, mid), size);
      } else {
        HeadTailSearchFinds(est, value, marker, budget, low, mid - 1, best, size);
      }
    }
  }

  /** When two or more characters fit on each side the search finds the longest cut. */
  lemma HeadTailIsLongest(value: string, budget: int, size: nat)
    requires budget > 7 && size >= 2
    requires LongestFit(Estimate, value, MARKER, budget, size)
    ensures HeadTailCut(Estimate, value, budget) == Candidate(value, MARKER, size)
  {
    MarkerCosts();
    CutsAreMonotone(value, MARKER);
    HeadTailSearchFinds(Estimate, value, MARKER, budget, 0, |value| / 2, MARKER, size);
  }

  /** Whether failing probes from `high` down reach size one rather than size zero. */
  predicate ProbesSizeOne(high: int) {
    if high >= 4 then ProbesSizeOne(high / 2 - 1) else high >= 2
  }

  lemma {:induction false} HeadTailSearchSizeOne(est: Estimator, value: string, marker: string, budget: int, high: int)
    requires 1 <= high <= |value| / 2
    requires LongestFit(est, value, marker, budget, 1)
    ensures HeadTailSearch(est, value, marker, budget, 0, high, marker) ==
            if ProbesSizeOne(high) || Fits(est, value, marker, 0, budget) then Candidate(value, marker, 1) else marker
    decreases high
  {
    hide Candidate;
    var one := Candidate(value, marker, 1);
    if high >= 4 {
      assert !Fits(est, value, marker, high / 2, budget);
      HeadTailSearchSizeOne(est, value, marker, budget, high / 2 - 1);
    } else if high >= 2 {
      assert HeadTailSearch(est, value, marker, budget, 0, high, marker)
          == HeadTailSearch(est, value, marker, budget, 2, high, one);
      assert !Fits(est, value, marker, 2, budget);
      assert HeadTailSearch(est, value, marker, budget, 2, high, one)
          == HeadTailSearch(est, value, marker, budget, 2, 1, one);
    } else if Fits(est, value, marker, 0, budget) {
      assert HeadTailSearch(est, value, marker, budget, 0, high, marker)
          == HeadTailSearch(est, value, marker, budget, 1, high, Candidate(value, marker, 0))
          == HeadTailSearch(est, value, marker, budget, 2, high, one);
    } else {
      assert HeadTailSearch(est, value, marker, budget, 0, high, marker)
          == HeadTailSearch(est, value, marker, budget, 0, -1, marker);
    }
  }

  /** When exactly one character fits on each side, the search finds that cut if and
      only if its probes from the text's length reach size one, or size zero fits too
      and sends it on to size one; otherwise only the marker is left. */
  lemma HeadTailFindsSizeOneExactly(value: string, budget: int)
    requires budget > 7
    requires LongestFit(Estimate, value, MARKER, budget, 1)
    ensures HeadTailCut(Estimate, value, budget) ==
            if ProbesSizeOne(|value| / 2) || Fits(Estimate, value, MARKER, 0, budget)
            then Candidate(value, MARKER, 1) else MARKER
  {
    MarkerCosts();
    HeadTailSearchSizeOne(Estimate, value, MARKER, budget, |value| / 2);
  }

  lemma {:induction false} HeadTailSearchSizeZero(est: Estimator, value: string, marker: string, budget: int, high: int)
    requires 0 <= high <= |value| / 2
    requires forall m :: 1 <= m <= |value| / 2 ==> !Fits(est, value, marker, m, budget)
    ensures HeadTailSearch(est, value, marker, budget, 0, high, marker)
         == if Fits(est, value, marker, 0, budget) then Candidate(value, marker, 0) else marker
    decreases high
  {
    hide Candidate;
    var whole := Candidate(value, marker, 0);
    if high >= 2 {
      HeadTailSearchSizeZero(est, value, marker, budget, high / 2 - 1);
    } else if Fits(est, value, marker, 0, budget) {
      assert HeadTailSearch(est, value, marker, budget, 0, high, marker)
          == HeadTailSearch(est, value, marker, budget, 1, high, whole);
      assert HeadTailSearch(est, value, marker, budget, 1, 0, whole) == whole;
    } else {
      assert HeadTailSearch(est, value, marker, budget, 0, high, marker)
          == HeadTailSearch(est, value, marker, budget, 0, -1, marker);
    }
  }

  /** When no character fits on both sides, only the marker is left, unless the whole text
      without its leading blanks fits after it; and with a budget of seven or less, the
      marker alone without its line breaks. */
  lemma HeadTailWithoutRoom(value: string, budget: int)
    requires forall m :: 1 <= m <= |value| / 2 ==> !Fits(Estimate, value, MARKER, m, budget)
    ensures HeadTailCut(Estimate, value, budget)
         == if budget <= 7 then BARE_MARKER
            else if Fits(Estimate, value, MARKER, 0, budget) then Candidate(value, MARKER, 0) else MARKER
  {
    MarkerCosts();
    assert BARE_MARKER[0] == '.' && BARE_MARKER[|BARE_MARKER| - 1] == '.';
    StripLines(BARE_MARKER);
    HeadTailSearchSizeZero(Estimate, value, MARKER, budget, |value| / 2);
  }

  /** Eleven CJK characters and a budget of nine: a character fits on each side,
      but the search probes sizes 2 and 0 only and returns the bare marker. */
  lemma HeadTailMissesAFit()
    ensures exists value: string, budget: int ::
      budget > 7 && LongestFit(Estimate, value, MARKER, budget, 1) && HeadTailCut(Estimate, value, budget) == MARKER
  {
    var value := seq(11, _ => '\U{4e00}');
    assert AsciiMarker();
    MissedFit(value, MARKER);
    HeadTailFindsSizeOneExactly(value, 9);
  }

  predicate AsciiMarker()
    ensures AsciiMarker()
  {
    forall i :: 0 <= i < |MARKER| ==> IsAscii(MARKER[i])
  }

  lemma MissedFit(value: string, marker: string)
    requires |value| == 11 && forall i :: 0 <= i < |value| ==> value[i] == '\U{4e00}'
    requires |marker| == 27 && forall i :: 0 <= i < |marker| ==> IsAscii(marker[i])
    ensures LongestFit(Estimate, value, marker, 9, 1) && !Fits(Estimate, value, marker, 0, 9)
  {
    AsciiTextWeight(marker);
    forall m | 1 <= m <= 5
      ensures Fits(Estimate, value, marker, m, 9) <==> m == 1
    {
      CjkWeight(value[..m]);
      CjkWeight(value[|value| - m..]);
      CandidateWeight(value, marker, m);
      EstimateTextMeasuresWeight(Candidate(value, marker, m));
    }
    CjkWeight(value);
    WeightConcat(marker, value);
    assert Candidate(value, marker, 0) == marker + value;
    EstimateTextMeasuresWeight(marker + value);
  }

  lemma {:induction false} CjkAmong(s: string, n: nat)
    requires n <= |s|
    requires forall i :: 0 <= i < n ==> s[i] == '\U{4e00}'
    ensures AsciiAmong(s, n) == 0
  {
    if n > 0 {
      CjkAmong(s, n - 1);
    }
  }

  lemma CjkWeight(s: string)
    requires forall i :: 0 <= i < |s| ==> s[i] == '\U{4e00}'
    ensures Weight(s) == 4 * |s| && StripRight(s) == s && StripLeft(s) == s
  {
    CjkAmong(s, |s|);
  }

  // ---------------------------------------------------------------- prefix cut

  function PrefixCandidate(value: string, cut: nat): string
    requires cut <= |value|
  {
    StripRight(value[..cut]) + "..."
  }

  predicate PrefixFits(est: Estimator, value: string, cut: nat, maxTokens: int)
    requires cut <= |value|
  {
    est(Str(PrefixCandidate(value, cut))) <= maxTokens
  }

  ghost predicate MonotonePrefixes(est: Estimator, value: string) {
    forall m, n :: 0 <= m <= n <= |value| ==>
      est(Str(PrefixCandidate(value, m))) <= est(Str(PrefixCandidate(value, n)))
  }

  lemma PrefixesAreMonotone(value: string)
    ensures MonotonePrefixes(Estimate, value)
  {
    forall m, n | 0 <= m <= n <= |value|
      ensures Estimate(Str(PrefixCandidate(value, m))) <= Estimate(Str(PrefixCandidate(value, n)))
    {
      StripRightMonotone(value, m, n);
      PrefixWeight(StripRight(value[..m]), StripRight(value[..n]));
      WeightConcat(StripRight(value[..m]), "...");
      WeightConcat(StripRight(value[..n]), "...");
      EstimateTextMonotone(PrefixCandidate(value, m), PrefixCandidate(value, n));
    }
  }

  /** The binary search for the cut, run to its end. */
  function TruncateSearch(est: Estimator, value: string, maxTokens: int, low: nat, high: nat): (cut: nat)
    requires low <= high <= |value|
    ensures low <= cut <= high
    decreases high - low
  {
    if low == high then low
    else
      var middle := (low + high + 1) / 2;
      if PrefixFits(est, value, middle, maxTokens) then TruncateSearch(est, value, maxTokens, middle, high)
      else TruncateSearch(est, value, maxTokens, low, middle - 1)
  }

  function Truncated(est: Estimator, value: string, maxTokens: int): string {
    if est(Str(value)) <= maxTokens then value
    else if maxTokens <= 1 then ""
    else
      var cut := TruncateSearch(est, value, maxTokens, 0, |value|);
      if cut > 0 then PrefixCandidate(value, cut) else ""
  }

  method TruncateText(est: Estimator, value: string, maxTokens: int) returns (text: string)
    ensures text == Truncated(est, value, maxTokens)
  {
    hide StripRight;
    if est(Str(value)) <= maxTokens {
      return value;
    }
    if maxTokens <= 1 {
      return "";
    }
    var low, high := 0, |value|;
    while low < high
      invariant 0 <= low <= high <= |value|
      invariant TruncateSearch(est, value, maxTokens, low, high) == TruncateSearch(est, value, maxTokens, 0, |value|)
    {
      var middle := (low + high + 1) / 2;
      if est(Str(PrefixCandidate(value, middle))) <= maxTokens {
        low := middle;
      } else {
        high := middle - 1;
      }
    }
    text := if low > 0 then PrefixCandidate(value, low) else "";
  }

  lemma {:induction false} TruncateSearchIsExact(est: Estimator, value: string, maxTokens: int, low: nat, high: nat)
    requires low <= high <= |value| && MonotonePrefixes(est, value)
    requires low > 0 ==> PrefixFits(est, value, low, maxTokens)
    requires forall m :: high < m <= |value| ==> !PrefixFits(est, value, m, maxTokens)
    ensures
      var cut := TruncateSearch(est, value, maxTokens, low, high);
      && (cut > 0 ==> PrefixFits(est, value, cut, maxTokens))
      && forall m :: cut < m <= |value| ==> !PrefixFits(est, value, m, maxTokens)
    decreases high - low
  {
    hide PrefixCandidate;
    if low < high {
      var middle := (low + high + 1) / 2;
      assert low < middle <= high;
      if PrefixFits(est, value, middle, maxTokens) {
        TruncateSearchIsExact(est, value, maxTokens, middle, high);
      } else {
        assert forall m :: middle <= m <= |value| ==> !PrefixFits(est, value, m, maxTokens);
        TruncateSearchIsExact(est, value, maxTokens, low, middle - 1);
      }
    }
  }

  /** A text over the limit becomes the longest right-stripped prefix whose text
      with an ellipsis fits, or nothing when no prefix does or the limit is one. */
  lemma TruncatedIsLongest(value: string, maxTokens: int)
    requires EstimateText(value) > maxTokens > 1
    ensures
      var text := Truncated(Estimate, value, maxTokens);
      if text == "" then forall m :: 0 < m <= |value| ==> !PrefixFits(Estimate, value, m, maxTokens)
      else exists cut ::
        && 0 < cut <= |value| && text == PrefixCandidate(value, cut) && PrefixFits(Estimate, value, cut, maxTokens)
        && forall m :: cut < m <= |value| ==> !PrefixFits(Estimate, value, m, maxTokens)
  {
    PrefixesAreMonotone(value);
    TruncateSearchIsExact(Estimate, value, maxTokens, 0, |value|);
  }

  /** Truncation fits every limit of at least one. */
  lemma TruncatedFits(value: string, maxTokens: int)
    requires maxTokens >= 1
    ensures EstimateText(Truncated(Estimate, value, maxTokens)) <= maxTokens
  {
    if EstimateText(value) > maxTokens > 1 {
      PrefixesAreMonotone(value);
      TruncateSearchIsExact(Estimate, value, maxTokens, 0, |value|);
    }
    AsciiTextWeight("");
  }
}
