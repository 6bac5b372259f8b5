/** An answer cut off by the model's output limit is continued in parts, and the
    parts are joined without the text a continuation repeats. */
module AnswerParts {

  const OVERLAP_LIMIT := 1200

  predicate Repeats(left: string, right: string, size: nat) {
    size <= |left| && size <= |right| && left[|left| - size..] == right[..size]
  }

  /** The most characters at the end of `left` that `right` begins with. */
  ghost predicate LongestRepeat(left: string, right: string, limit: nat, size: nat) {
    && Repeats(left, right, size) && size <= limit
    && forall longer :: size < longer <= limit ==> !Repeats(left, right, longer)
  }

  function LongestFrom(left: string, right: string, size: nat): (longest: nat)
    ensures longest <= size
  {
    if size == 0 || Repeats(left, right, size) then size else LongestFrom(left, right, size - 1)
  }

  function Shortest(a: nat, b: nat, c: nat): nat {
    if a <= b && a <= c then a else if b <= c then b else c
  }

  function Overlap(left: string, right: string, limit: nat): (size: nat)
    ensures size <= |left| && size <= |right|
  {
    LongestFrom(left, right, Shortest(|left|, |right|, limit))
  }

  lemma {:induction false} LongestFromIsLongest(left: string, right: string, size: nat)
    ensures LongestRepeat(left, right, size, LongestFrom(left, right, size))
  {
    if size > 0 && !Repeats(left, right, size) {
      LongestFromIsLongest(left, right, size - 1);
      hide Repeats;
    }
  }

  lemma OverlapIsLongest(left: string, right: string, limit: nat)
    ensures LongestRepeat(left, right, limit, Overlap(left, right, limit))
  {
    LongestFromIsLongest(left, right, Shortest(|left|, |right|, limit));
    hide LongestFrom;
  }

  lemma LongestIsUnique(left: string, right: string, limit: nat, a: nat, b: nat)
    requires LongestRepeat(left, right, limit, a) && LongestRepeat(left, right, limit, b)
    ensures a == b
  {
    hide Repeats;
  }

  method SuffixPrefixOverlap(left: string, right: string, limit: nat) returns (size: nat)
    ensures LongestRepeat(left, right, limit, size)
    ensures size == Overlap(left, right, limit)
  {
    size := Shortest(|left|, |right|, limit);
    ghost var maximum := size;
    while size > 0
      invariant size <= maximum <= |left| && maximum <= |right| && maximum <= limit
      invariant forall longer :: size < longer <= limit ==> !Repeats(left, right, longer)
    {
      if left[|left| - size..] == right[..size] {
        break;
      }
      size := size - 1;
    }
    OverlapIsLongest(left, right, limit);
    LongestIsUnique(left, right, limit, size, Overlap(left, right, limit));
  }

  function JoinPart(merged: string, part: string): string {
    if merged == "" then part else merged + part[Overlap(merged, part, OVERLAP_LIMIT)..]
  }

  function Merge(parts: seq<string>): string {
    if parts == [] then "" else JoinPart(Merge(parts[..|parts| - 1]), parts[|parts| - 1])
  }

  method MergeAnswerParts(parts: seq<string>) returns (merged: string)
    ensures merged == Merge(parts)
  {
    merged := "";
    for i := 0 to |parts|
      invariant merged == Merge(parts[..i])
    {
      assert parts[..i + 1][..i] == parts[..i];
      if merged == "" {
        merged := parts[i];
      } else {
        var overlap := SuffixPrefixOverlap(merged, parts[i], OVERLAP_LIMIT);
        merged := merged + parts[i][overlap..];
      }
    }
    assert parts[..|parts|] == parts;
  }

  /** A part is joined without exactly the text it repeats: the longest, up to 1200
      characters, in which what there is ends and the part begins. */
  lemma JoinOmitsWhatIsRepeated(parts: seq<string>, part: string, size: nat)
    requires LongestRepeat(Merge(parts), part, 1200, size)
    ensures Merge(parts + [part]) == if Merge(parts) == "" then part else Merge(parts) + part[size..]
  {
    assert (parts + [part])[..|parts|] == parts;
    OverlapIsLongest(Merge(parts), part, 1200);
    LongestIsUnique(Merge(parts), part, 1200, size, Overlap(Merge(parts), part, 1200));
    hide LongestRepeat, Overlap;
  }

  predicate EndsIn(text: string, part: string) {
    |part| <= |text| && text[|text| - |part|..] == part
  }

  lemma JoinEnds(merged: string, part: string)
    ensures merged <= JoinPart(merged, part) && EndsIn(JoinPart(merged, part), part)
  {
    if merged != "" {
      OverlapIsLongest(merged, part, OVERLAP_LIMIT);
      var size := Overlap(merged, part, OVERLAP_LIMIT);
      hide Overlap;
      assert part == part[..size] + part[size..];
    }
  }

  /** No text is lost: what some parts give ends in the last of them, and stays in front
      of whatever parts come after. */
  lemma {:induction false} MergeKeepsEveryPart(parts: seq<string>, more: seq<string>)
    requires parts != []
    ensures EndsIn(Merge(parts), parts[|parts| - 1])
    ensures Merge(parts) <= Merge(parts + more)
    decreases |more|
  {
    hide JoinPart, EndsIn;
    JoinEnds(Merge(parts[..|parts| - 1]), parts[|parts| - 1]);
    if more == [] {
      assert parts + more == parts;
    } else {
      var front, last := more[..|more| - 1], more[|more| - 1];
      MergeKeepsEveryPart(parts, front);
      assert (parts + more)[..|parts + more| - 1] == parts + front;
      JoinEnds(Merge(parts + front), last);
    }
  }
}
