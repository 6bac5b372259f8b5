/** Python's stable `sorted`, by a text key or by any order. */
module Sorting {

  /** The order of Python's text: by the first character that differs. */
  predicate TextLe(a: string, b: string) {
    a == "" || (b != "" && (a[0] < b[0] || (a[0] == b[0] && TextLe(a[1..], b[1..]))))
  }

  /** The position at which two texts first differ decides; a prefix comes first. */
  lemma {:induction false} TextLeExactly(a: string, b: string)
    ensures TextLe(a, b) <==> a <= b || exists i :: 0 <= i < |a| && i < |b| && a[..i] == b[..i] && a[i] < b[i]
  {
    if a != "" && b != "" {
      var x, y := a[1..], b[1..];
      assert a == [a[0]] + x && b == [b[0]] + y;
      TextLeExactly(x, y);
      if a[0] == b[0] {
        forall i | 0 <= i < |x| && i < |y|
          ensures a[..i + 1] == b[..i + 1] <==> x[..i] == y[..i]
        {
          assert a[..i + 1] == [a[0]] + x[..i] && b[..i + 1] == [b[0]] + y[..i];
          assert a[..i + 1][1..] == x[..i] && b[..i + 1][1..] == y[..i];
        }
        if i :| 0 <= i < |a| && i < |b| && a[..i] == b[..i] && a[i] < b[i] {
          assert x[..i - 1] == y[..i - 1] && x[i - 1] < y[i - 1];
        }
        if i :| 0 <= i < |x| && i < |y| && x[..i] == y[..i] && x[i] < y[i] {
          assert a[..i + 1] == b[..i + 1] && a[i + 1] < b[i + 1];
        }
      } else if a[0] < b[0] {
        assert a[..0] == b[..0];
      } else if i :| 0 <= i < |a| && i < |b| && a[..i] == b[..i] && a[i] < b[i] {
        assert i > 0 && a[..i][0] == b[..i][0];
      }
    }
  }

  lemma TextLeIsTotal(a: string, b: string)
    ensures TextLe(a, b) || TextLe(b, a)
  {
  }

  lemma TextLeIsAntisymmetric(a: string, b: string)
    requires TextLe(a, b) && TextLe(b, a)
    ensures a == b
  {
    if a != "" && b != "" {
      TextLeIsAntisymmetric(a[1..], b[1..]);
      assert a == [a[0]] + a[1..] && b == [b[0]] + b[1..];
    }
  }

  lemma {:induction false} TextLeIsTransitive(a: string, b: string, c: string)
    requires TextLe(a, b) && TextLe(b, c)
    ensures TextLe(a, c)
  {
    if a != "" && a[0] == b[0] && b[0] == c[0] {
      TextLeIsTransitive(a[1..], b[1..], c[1..]);
    }
  }

  function InsertBy<T>(key: T -> string, sorted: seq<T>, x: T): seq<T> {
    if sorted == [] || TextLe(key(sorted[|sorted| - 1]), key(x)) then sorted + [x]
    else InsertBy(key, sorted[..|sorted| - 1], x) + [sorted[|sorted| - 1]]
  }

  function SortBy<T>(key: T -> string, items: seq<T>): seq<T> {
    if items == [] then [] else InsertBy(key, SortBy(key, items[..|items| - 1]), items[|items| - 1])
  }

  ghost predicate SortedBy<T>(key: T -> string, items: seq<T>) {
    forall i, j :: 0 <= i < j < |items| ==> TextLe(key(items[i]), key(items[j]))
  }

  /** No two items have the same key. */
  ghost predicate DistinctBy<T>(key: T -> string, items: seq<T>) {
    forall i, j :: 0 <= i < j < |items| ==> key(items[i]) != key(items[j])
  }

  lemma {:induction false} InsertKeeps<T>(key: T -> string, sorted: seq<T>, x: T)
    requires SortedBy(key, sorted)
    ensures SortedBy(key, InsertBy(key, sorted, x))
    ensures multiset(InsertBy(key, sorted, x)) == multiset(sorted) + multiset{x}
  {
    if sorted == [] {
    } else {
      var front, last := sorted[..|sorted| - 1], sorted[|sorted| - 1];
      assert sorted == front + [last];
      if TextLe(key(last), key(x)) {
        forall i | 0 <= i < |sorted|
          ensures TextLe(key(sorted[i]), key(x))
        {
          if i < |front| {
            TextLeIsTransitive(key(sorted[i]), key(last), key(x));
          }
        }
      } else {
        TextLeIsTotal(key(last), key(x));
        InsertKeeps(key, front, x);
        BelowLast(key, front, x, last);
      }
    }
  }

  lemma BelowLast<T>(key: T -> string, front: seq<T>, x: T, last: T)
    requires forall i :: 0 <= i < |front| ==> TextLe(key(front[i]), key(last))
    requires TextLe(key(x), key(last))
    requires multiset(InsertBy(key, front, x)) == multiset(front) + multiset{x}
    ensures forall i :: 0 <= i < |InsertBy(key, front, x)| ==> TextLe(key(InsertBy(key, front, x)[i]), key(last))
  {
    var inserted := InsertBy(key, front, x);
    forall i | 0 <= i < |inserted|
      ensures TextLe(key(inserted[i]), key(last))
    {
      assert inserted[i] in multiset(inserted);
      assert inserted[i] == x || inserted[i] in multiset(front);
    }
  }

  lemma {:induction false} SortKeeps<T>(key: T -> string, items: seq<T>)
    ensures SortedBy(key, SortBy(key, items))
    ensures multiset(SortBy(key, items)) == multiset(items)
  {
    if items != [] {
      SortKeeps(key, items[..|items| - 1]);
      InsertKeeps(key, SortBy(key, items[..|items| - 1]), items[|items| - 1]);
      assert items == items[..|items| - 1] + [items[|items| - 1]];
    }
  }

  lemma {:induction false} SortOfSorted<T>(key: T -> string, items: seq<T>)
    requires SortedBy(key, items)
    ensures SortBy(key, items) == items
  {
    if items != [] {
      var front := items[..|items| - 1];
      SortOfSorted(key, front);
      assert front + [items[|items| - 1]] == items;
    }
  }

  lemma SameElements<T>(a: seq<T>, b: seq<T>)
    requires multiset(a) == multiset(b)
    ensures |a| == |b|
    ensures forall x :: x in a <==> x in b
  {
    assert |multiset(a)| == |a| && |multiset(b)| == |b|;
    forall x
      ensures x in a <==> x in b
    {
      assert x in a <==> x in multiset(a);
      assert x in b <==> x in multiset(b);
    }
  }

  /** Keys are distinct however the items are ordered. */
  lemma DistinctIsOrderless<T>(key: T -> string, a: seq<T>, b: seq<T>)
    requires multiset(a) == multiset(b) && DistinctBy(key, a)
    ensures DistinctBy(key, b)
  {
    SameElements(a, b);
    forall i, j | 0 <= i < j < |b|
      ensures key(b[i]) != key(b[j])
    {
      if key(b[i]) == key(b[j]) {
        assert b[i] in b && b[j] in b;
        assert b[i] in a && b[j] in a;
        var p :| 0 <= p < |a| && a[p] == b[i];
        var q :| 0 <= q < |a| && a[q] == b[j];
        assert p == q;
        TwiceInSeq(b, i, j);
        OnceInSeq(key, a, p);
      }
    }
  }

  lemma TwiceInSeq<T>(s: seq<T>, i: nat, j: nat)
    requires i < j < |s| && s[i] == s[j]
    ensures multiset(s)[s[i]] >= 2
  {
    assert s == s[..j] + s[j..];
    assert multiset(s[..j])[s[i]] >= 1 by { assert s[i] == s[..j][i]; assert s[i] in s[..j]; }
    assert multiset(s[j..])[s[i]] >= 1 by { assert s[i] == s[j..][0]; assert s[i] in s[j..]; }
  }

  lemma OnceInSeq<T>(key: T -> string, s: seq<T>, p: nat)
    requires DistinctBy(key, s) && p < |s|
    ensures multiset(s)[s[p]] == 1
  {
    assert s == s[..p] + [s[p]] + s[p + 1..];
    assert s[p] !in s[..p];
    assert s[p] !in s[p + 1..];
  }

  lemma LargestIsLast<T>(key: T -> string, a: seq<T>, x: T)
    requires SortedBy(key, a) && a != [] && x in a
    ensures TextLe(key(x), key(a[|a| - 1]))
  {
    TextLeIsTotal(key(x), key(x));
  }

  ghost predicate SameItems<T>(a: seq<T>, b: seq<T>) {
    (forall x :: x in a ==> x in b) && (forall x :: x in b ==> x in a)
  }

  lemma LastSame<T>(key: T -> string, a: seq<T>, b: seq<T>)
    requires SameItems(a, b) && DistinctBy(key, a) && a != [] && b != []
    requires SortedBy(key, a) && SortedBy(key, b)
    ensures a[|a| - 1] == b[|b| - 1]
  {
    var x, y := a[|a| - 1], b[|b| - 1];
    assert x in a && y in b;
    LargestIsLast(key, a, y);
    LargestIsLast(key, b, x);
    TextLeIsAntisymmetric(key(x), key(y));
  }

  lemma FrontsSame<T>(key: T -> string, a: seq<T>, b: seq<T>)
    requires SameItems(a, b) && DistinctBy(key, a) && DistinctBy(key, b) && a != [] && b != []
    requires a[|a| - 1] == b[|b| - 1]
    ensures SameItems(a[..|a| - 1], b[..|b| - 1])
  {
    var frontA, frontB, last := a[..|a| - 1], b[..|b| - 1], a[|a| - 1];
    assert a == frontA + [last] && b == frontB + [last];
    assert last !in frontA && last !in frontB;
    forall x | x in frontA
      ensures x in frontB
    {
      assert x in a && x in b && x != last;
    }
    forall x | x in frontB
      ensures x in frontA
    {
      assert x in b && x in a && x != last;
    }
  }

  lemma FrontKeeps<T>(key: T -> string, a: seq<T>)
    requires a != []
    ensures SortedBy(key, a) ==> SortedBy(key, a[..|a| - 1])
    ensures DistinctBy(key, a) ==> DistinctBy(key, a[..|a| - 1])
  {
  }

  lemma EmptyTogether<T>(a: seq<T>, b: seq<T>)
    requires SameItems(a, b)
    ensures a == [] <==> b == []
  {
    if a != [] {
      assert a[0] in b;
    }
    if b != [] {
      assert b[0] in a;
    }
  }

  /** Sorted with distinct keys: there is only one such order of the same items. */
  lemma {:induction false} SortedIsUnique<T>(key: T -> string, a: seq<T>, b: seq<T>)
    requires SameItems(a, b) && DistinctBy(key, a) && DistinctBy(key, b)
    requires SortedBy(key, a) && SortedBy(key, b)
    ensures a == b
  {
    if a == [] || b == [] {
      EmptyTogether(a, b);
    } else {
      FrontKeeps(key, a);
      FrontKeeps(key, b);
      LastSame(key, a, b);
      FrontsSame(key, a, b);
      hide SortedBy, DistinctBy, SameItems;
      SortedIsUnique(key, a[..|a| - 1], b[..|b| - 1]);
      assert a == a[..|a| - 1] + [a[|a| - 1]] && b == b[..|b| - 1] + [b[|b| - 1]];
    }
  }

  /** Sorting depends only on which items there are, when their keys are distinct. */
  lemma SortIsOrderless<T>(key: T -> string, a: seq<T>, b: seq<T>)
    requires multiset(a) == multiset(b) && DistinctBy(key, a)
    ensures SortBy(key, a) == SortBy(key, b)
  {
    hide SortedBy, DistinctBy, SortBy;
    SortKeeps(key, a);
    SortKeeps(key, b);
    DistinctIsOrderless(key, a, SortBy(key, a));
    DistinctIsOrderless(key, a, SortBy(key, b));
    SameElements(SortBy(key, a), SortBy(key, b));
    assert SameItems(SortBy(key, a), SortBy(key, b));
    SortedIsUnique(key, SortBy(key, a), SortBy(key, b));
  }

  // ---------------------------------------------------------------- any order

  /** Stable insertion: the item goes after all that may precede it. */
  function InsertLe<T>(le: (T, T) -> bool, sorted: seq<T>, x: T): seq<T> {
    if sorted == [] || le(sorted[|sorted| - 1], x) then sorted + [x]
    else InsertLe(le, sorted[..|sorted| - 1], x) + [sorted[|sorted| - 1]]
  }

  function SortLe<T>(le: (T, T) -> bool, items: seq<T>): seq<T> {
    if items == [] then [] else InsertLe(le, SortLe(le, items[..|items| - 1]), items[|items| - 1])
  }

  ghost predicate SortedLe<T>(le: (T, T) -> bool, items: seq<T>) {
    forall i, j :: 0 <= i < j < |items| ==> le(items[i], items[j])
  }

  ghost predicate TotalOrder<T(!new)>(le: (T, T) -> bool) {
    && (forall a, b :: le(a, b) || le(b, a))
    && forall a, b, c :: le(a, b) && le(b, c) ==> le(a, c)
  }

  lemma {:induction false} InsertLeKeeps<T>(le: (T, T) -> bool, sorted: seq<T>, x: T)
    ensures multiset(InsertLe(le, sorted, x)) == multiset(sorted) + multiset{x}
  {
    if sorted != [] {
      InsertLeKeeps(le, sorted[..|sorted| - 1], x);
      assert sorted == sorted[..|sorted| - 1] + [sorted[|sorted| - 1]];
    }
  }

  lemma {:induction false} InsertLeSorts<T(!new)>(le: (T, T) -> bool, sorted: seq<T>, x: T)
    requires TotalOrder(le) && SortedLe(le, sorted)
    ensures SortedLe(le, InsertLe(le, sorted, x))
  {
    if sorted != [] {
      var front, last := sorted[..|sorted| - 1], sorted[|sorted| - 1];
      if le(last, x) {
        forall i | 0 <= i < |sorted|
          ensures le(sorted[i], x)
        {
          assert i < |front| ==> le(sorted[i], last);
        }
      } else {
        assert le(x, last);
        InsertLeSorts(le, front, x);
        InsertLeKeeps(le, front, x);
        var inserted := InsertLe(le, front, x);
        forall i | 0 <= i < |inserted|
          ensures le(inserted[i], last)
        {
          assert inserted[i] in multiset(inserted);
          assert inserted[i] == x || inserted[i] in multiset(front);
        }
      }
    }
  }

  /** Sorting keeps the items and puts them in order. */
  lemma {:induction false} SortLeKeeps<T>(le: (T, T) -> bool, items: seq<T>)
    ensures multiset(SortLe(le, items)) == multiset(items)
  {
    if items != [] {
      SortLeKeeps(le, items[..|items| - 1]);
      InsertLeKeeps(le, SortLe(le, items[..|items| - 1]), items[|items| - 1]);
      assert items == items[..|items| - 1] + [items[|items| - 1]];
    }
  }

  lemma {:induction false} SortLeSorts<T(!new)>(le: (T, T) -> bool, items: seq<T>)
    requires TotalOrder(le)
    ensures SortedLe(le, SortLe(le, items))
  {
    hide TotalOrder;
    if items != [] {
      SortLeSorts(le, items[..|items| - 1]);
      InsertLeSorts(le, SortLe(le, items[..|items| - 1]), items[|items| - 1]);
    }
  }

  /** The items that rank equal to `x`, in their order. */
  ghost function Equals<T>(le: (T, T) -> bool, items: seq<T>, x: T): seq<T> {
    if items == [] then []
    else
      var last := items[|items| - 1];
      Equals(le, items[..|items| - 1], x) + if le(last, x) && le(x, last) then [last] else []
  }

  lemma {:induction false} InsertLeIsStable<T(!new)>(le: (T, T) -> bool, sorted: seq<T>, y: T, x: T)
    requires TotalOrder(le)
    ensures Equals(le, InsertLe(le, sorted, y), x) == Equals(le, sorted + [y], x)
  {
    assert (sorted + [y])[..|sorted|] == sorted;
    if sorted != [] && !le(sorted[|sorted| - 1], y) {
      var front, last := sorted[..|sorted| - 1], sorted[|sorted| - 1];
      InsertLeIsStable(le, front, y, x);
      var inserted := InsertLe(le, front, y);
      assert (inserted + [last])[..|inserted|] == inserted;
      assert (front + [y])[..|front|] == front;
      assert le(y, last) && !(le(last, x) && le(x, last) && le(y, x) && le(x, y));
    }
  }

  /** Sorting is stable: items that rank equal keep their order. */
  lemma {:induction false} SortLeIsStable<T(!new)>(le: (T, T) -> bool, items: seq<T>, x: T)
    requires TotalOrder(le)
    ensures Equals(le, SortLe(le, items), x) == Equals(le, items, x)
  {
    hide TotalOrder;
    if items != [] {
      var front, last := items[..|items| - 1], items[|items| - 1];
      SortLeIsStable(le, front, x);
      InsertLeIsStable(le, SortLe(le, front), last, x);
      var sorted := SortLe(le, front);
      assert (sorted + [last])[..|sorted|] == sorted;
    }
  }
}
