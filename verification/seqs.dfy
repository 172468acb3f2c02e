/** Small facts about sequences and strings shared by the hierarchy modules. */
module Seqs {

  /** No element occurs twice. */
  predicate NoDup<T(==)>(s: seq<T>) {
    forall i, j :: 0 <= i < j < |s| ==> s[i] != s[j]
  }

  /** No element of `a` occurs in `b`. */
  predicate Disjoint<T(==)>(a: seq<T>, b: seq<T>) {
    forall k :: 0 <= k < |a| ==> a[k] !in b
  }

  /** Position of the first occurrence of `x` (Python's `list.index`). */
  function IndexOf<T(==)>(s: seq<T>, x: T): (r: nat)
    requires x in s
    ensures r < |s| && s[r] == x
    ensures forall k :: 0 <= k < r ==> s[k] != x
  {
    FirstIndex(s, x)
  }

  /** The left-to-right search behind `IndexOf`; `IndexOf` itself is not
      recursive, so equal `IndexOf` terms in different contracts match
      without being unfolded. */
  function FirstIndex<T(==)>(s: seq<T>, x: T): (r: nat)
    requires x in s
    ensures r < |s| && s[r] == x
    ensures forall k :: 0 <= k < r ==> s[k] != x
  {
    if s[0] == x then 0 else 1 + FirstIndex(s[1..], x)
  }

  /** In a sequence without duplicates, the index of an element is its position. */
  lemma IndexOfNoDup<T>(s: seq<T>, k: nat)
    requires NoDup(s) && k < |s|
    ensures IndexOf(s, s[k]) == k
  {
  }

  /** Without duplicates, `x` is found at `i` exactly when it is `s[i]`. */
  lemma IndexOfAt<T>(s: seq<T>, x: T, i: nat)
    requires NoDup(s) && x in s && i < |s|
    ensures IndexOf(s, x) == i <==> s[i] == x
  {
  }

  /** Without duplicates, `s[j]` lies in the slice `s[lo..hi]` exactly when
      its position does. */
  lemma SliceMembership<T>(s: seq<T>, lo: nat, hi: nat, j: nat)
    requires NoDup(s) && lo <= hi <= |s| && j < |s|
    ensures s[j] in s[lo..hi] <==> lo <= j < hi
  {
    if s[j] in s[lo..hi] {
      var m := IndexOf(s[lo..hi], s[j]);
      assert s[lo + m] == s[j];
    }
    if lo <= j < hi {
      assert s[lo..hi][j - lo] == s[j];
    }
  }

  /** A slice of a list without repeats has none, and holds only elements
      of the list. */
  lemma NoDupSlice<T>(s: seq<T>, lo: nat, hi: nat)
    requires NoDup(s) && lo <= hi <= |s|
    ensures NoDup(s[lo..hi]) && forall x :: x in s[lo..hi] ==> x in s
  {
    assert forall i :: 0 <= i < hi - lo ==> s[lo..hi][i] == s[lo + i];
  }

  /** Removing the element at `p` from a list without repeats removes exactly
      that element. */
  lemma RemoveAt<T>(s: seq<T>, p: nat)
    requires NoDup(s) && p < |s|
    ensures NoDup(s[..p] + s[p + 1..])
    ensures forall x :: x in s[..p] + s[p + 1..] <==> x in s && x != s[p]
  {
    var r := s[..p] + s[p + 1..];
    assert forall i :: 0 <= i < |r| ==> r[i] == s[if i < p then i else i + 1];
    forall x | x in s && x != s[p]
      ensures x in r
    {
      var i := IndexOf(s, x);
      assert r[if i < p then i else i - 1] == x;
    }
  }

  /** Appending a new element keeps a sequence free of duplicates. */
  lemma NoDupAppend<T>(s: seq<T>, x: T)
    requires NoDup(s) && x !in s
    ensures NoDup(s + [x])
  {
    forall i, j | 0 <= i < j < |s| + 1
      ensures (s + [x])[i] != (s + [x])[j]
    {
      if j == |s| {
        assert s[i] in s;
      }
    }
  }

  /** `parts` joined by `sep`, as Python's `sep.join(parts)`. */
  function Join(sep: string, parts: seq<string>): string
  {
    if |parts| == 0 then ""
    else if |parts| == 1 then parts[0]
    else Join(sep, parts[..|parts| - 1]) + sep + parts[|parts| - 1]
  }

  /** First occurrences of the elements of `s`, in order (pandas `unique`). */
  function Dedup<T(==)>(s: seq<T>): (r: seq<T>)
    ensures NoDup(r)
    ensures forall k :: 0 <= k < |s| ==> s[k] in r
    ensures forall k :: 0 <= k < |r| ==> r[k] in s
    ensures |r| <= |s|
  {
    if |s| == 0 then []
    else
      var d := Dedup(s[..|s| - 1]);
      assert s == s[..|s| - 1] + [s[|s| - 1]];
      if s[|s| - 1] in d then d else d + [s[|s| - 1]]
  }

  /** Lexicographic order on code points, as Python compares `str` values. */
  predicate LexLess(a: string, b: string)
  {
    if |b| == 0 then false
    else if |a| == 0 then true
    else a[0] < b[0] || (a[0] == b[0] && LexLess(a[1..], b[1..]))
  }

  /** Each element strictly precedes the next one. */
  predicate LexSorted(s: seq<string>)
  {
    forall k :: 0 <= k < |s| - 1 ==> LexLess(s[k], s[k + 1])
  }

  /** No string precedes itself. */
  lemma {:induction false} LexLessIrreflexive(a: string)
    ensures !LexLess(a, a)
  {
    if |a| > 0 {
      LexLessIrreflexive(a[1..]);
    }
  }

  lemma {:induction false} LexLessTransitive(a: string, b: string, c: string)
    requires LexLess(a, b) && LexLess(b, c)
    ensures LexLess(a, c)
  {
    if |a| > 0 && a[0] == b[0] && b[0] == c[0] {
      LexLessTransitive(a[1..], b[1..], c[1..]);
    }
  }

  /** Of two different strings one precedes the other. */
  lemma {:induction false} LexLessConnex(a: string, b: string)
    ensures a == b || LexLess(a, b) || LexLess(b, a)
  {
    if |a| > 0 && |b| > 0 && a[0] == b[0] {
      LexLessConnex(a[1..], b[1..]);
      if a[1..] == b[1..] {
        assert a == [a[0]] + a[1..] && b == [b[0]] + b[1..];
      }
    }
  }

  /** In a sorted list the first element precedes every later one. */
  lemma {:induction false} LexSortedHead(s: seq<string>)
    requires LexSorted(s)
    ensures forall k :: 0 < k < |s| ==> LexLess(s[0], s[k])
  {
    if |s| > 2 {
      LexSortedHead(s[1..]);
      forall k | 1 < k < |s|
        ensures LexLess(s[0], s[k])
      {
        assert s[1..][k - 1] == s[k];
        LexLessTransitive(s[0], s[1], s[k]);
      }
    }
  }

  /** A sorted list repeats nothing. */
  lemma {:induction false} LexSortedNoDup(s: seq<string>)
    requires LexSorted(s)
    ensures NoDup(s)
  {
    if |s| > 1 {
      LexSortedHead(s);
      LexSortedNoDup(s[1..]);
      forall i, j | 0 <= i < j < |s|
        ensures s[i] != s[j]
      {
        if i == 0 {
          LexLessIrreflexive(s[0]);
        } else {
          assert s[1..][i - 1] == s[i] && s[1..][j - 1] == s[j];
        }
      }
    }
  }

  lemma HeadMember<T>(s: seq<T>)
    ensures |s| > 0 ==> s[0] in s
  {
  }

  /** Two sorted lists with the same elements are the same list. */
  lemma {:induction false} LexSortedUnique(a: seq<string>, b: seq<string>)
    requires LexSorted(a) && LexSorted(b)
    requires forall x :: x in a <==> x in b
    ensures a == b
  {
    if |a| == 0 {
      HeadMember(b);
    } else {
      assert a[0] in b;
      LexSortedHead(a);
      LexSortedHead(b);
      LexLessIrreflexive(a[0]);
      if a[0] != b[0] {
        var p := IndexOf(b, a[0]);
        var q := IndexOf(a, b[0]);
        LexLessTransitive(a[0], b[0], a[0]);
      }
      forall x
        ensures x in a[1..] <==> x in b[1..]
      {
        assert a == [a[0]] + a[1..] && b == [b[0]] + b[1..];
        if x in a[1..] {
          var i := IndexOf(a[1..], x);
          assert a[i + 1] == x && x != a[0];
          var p := IndexOf(b, x);
          assert p != 0;
          assert b[1..][p - 1] == x;
        }
        if x in b[1..] {
          var i := IndexOf(b[1..], x);
          assert b[i + 1] == x && x != b[0];
          var p := IndexOf(a, x);
          assert p != 0;
          assert a[1..][p - 1] == x;
        }
      }
      LexSortedUnique(a[1..], b[1..]);
    }
  }

  /** `x` put in place in a sorted list (one step of insertion sort). */
  function Insert(x: string, s: seq<string>): (r: seq<string>)
    ensures multiset(r) == multiset(s) + multiset{x}
    ensures |r| == |s| + 1 && (r[0] == x || (|s| > 0 && r[0] == s[0]))
    ensures LexSorted(s) && x !in s ==> LexSorted(r)
  {
    if |s| == 0 then [x]
    else if LexLess(x, s[0]) then [x] + s
    else
      LexLessConnex(x, s[0]);
      assert s == [s[0]] + s[1..];
      [s[0]] + Insert(x, s[1..])
  }

  /** The elements of `s` in increasing order (Python's `sorted`). */
  function Sort(s: seq<string>): (r: seq<string>)
    ensures multiset(r) == multiset(s) && |r| == |s|
    ensures NoDup(s) ==> LexSorted(r)
  {
    if |s| == 0 then []
    else
      assert s == [s[0]] + s[1..];
      Insert(s[0], Sort(s[1..]))
  }

  /** Sorting keeps exactly the elements; sorting a list without repeats
      gives a sorted list without repeats. */
  lemma SortMembers(s: seq<string>)
    ensures forall x :: x in Sort(s) <==> x in s
    ensures NoDup(s) ==> LexSorted(Sort(s)) && NoDup(Sort(s))
  {
    forall x
      ensures x in Sort(s) <==> x in s
    {
      assert x in Sort(s) <==> x in multiset(Sort(s));
      assert x in s <==> x in multiset(s);
    }
    if NoDup(s) {
      LexSortedNoDup(Sort(s));
    }
  }

  /** A sorted list is its own sort. */
  lemma SortSorted(s: seq<string>)
    requires LexSorted(s)
    ensures Sort(s) == s
  {
    LexSortedNoDup(s);
    SortMembers(s);
    LexSortedUnique(Sort(s), s);
  }
}
