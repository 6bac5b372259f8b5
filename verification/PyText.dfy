/** The parts of Python's text handling the runtime relies on. */
module PyText {

  /** `str.isspace()` for one character. */
  predicate IsSpace(c: char) {
    var n := c as int;
    || 9 <= n <= 13 || 28 <= n <= 32 || n == 0x85 || n == 0xa0 || n == 0x1680
    || 0x2000 <= n <= 0x200a || n == 0x2028 || n == 0x2029 || n == 0x202f || n == 0x205f || n == 0x3000
  }

  function StripRight(s: string): string
    ensures StripRight(s) <= s
  {
    if s != "" && IsSpace(s[|s| - 1]) then StripRight(s[..|s| - 1]) else s
  }

  function StripLeft(s: string): string {
    if s != "" && IsSpace(s[0]) then StripLeft(s[1..]) else s
  }

  function Strip(s: string): string {
    StripLeft(StripRight(s))
  }

  /** Cutting later never loses stripped text: a longer prefix strips to a longer prefix. */
  lemma StripRightMonotone(s: string, m: nat, n: nat)
    requires m <= n <= |s|
    ensures StripRight(s[..m]) <= StripRight(s[..n])
    decreases n
  {
    if m < n && IsSpace(s[n - 1]) {
      assert s[..n][..n - 1] == s[..n - 1];
      StripRightMonotone(s, m, n - 1);
    } else if m < n {
      assert StripRight(s[..n]) == s[..n];
      assert s[..m] <= s[..n];
    }
  }

  lemma StripLeftIsSuffix(s: string)
    ensures |StripLeft(s)| <= |s|
    ensures s[|s| - |StripLeft(s)|..] == StripLeft(s)
  {
    if s != "" && IsSpace(s[0]) {
      StripLeftIsSuffix(s[1..]);
      assert s[|s| - |StripLeft(s)|..] == s[1..][|s[1..]| - |StripLeft(s[1..])|..];
    }
  }

  /** The same for suffixes: an earlier start strips to a longer suffix. */
  lemma StripLeftMonotone(s: string, m: nat, n: nat)
    requires m <= n <= |s|
    ensures |StripLeft(s[n..])| <= |StripLeft(s[m..])|
    ensures StripLeft(s[m..])[|StripLeft(s[m..])| - |StripLeft(s[n..])|..] == StripLeft(s[n..])
    decreases n - m
  {
    if m < n {
      if IsSpace(s[m]) {
        assert s[m..][1..] == s[m + 1..];
        StripLeftMonotone(s, m + 1, n);
      } else {
        assert StripLeft(s[m..]) == s[m..];
        StripLeftIsSuffix(s[n..]);
        assert s[m..][|s[m..]| - |StripLeft(s[n..])|..] == s[n..][|s[n..]| - |StripLeft(s[n..])|..];
      }
    }
  }

  lemma {:induction false} StripRightEnds(s: string)
    ensures StripRight(s) != "" ==> !IsSpace(StripRight(s)[|StripRight(s)| - 1])
  {
    if s != "" {
      StripRightEnds(s[..|s| - 1]);
    }
  }

  lemma {:induction false} StripLeftStarts(s: string)
    ensures StripLeft(s) != "" ==> !IsSpace(StripLeft(s)[0])
  {
    if s != "" {
      StripLeftStarts(s[1..]);
    }
  }

  /** Stripping stripped text changes nothing. */
  lemma StripTwice(s: string)
    ensures Strip(Strip(s)) == Strip(s)
  {
    var right := StripRight(s);
    var both := StripLeft(right);
    StripRightEnds(s);
    StripLeftStarts(right);
    StripLeftIsSuffix(right);
    if both != "" {
      assert both[|both| - 1] == right[|right| - 1];
    }
  }

  predicate Blank(s: string) {
    forall i :: 0 <= i < |s| ==> IsSpace(s[i])
  }
}
