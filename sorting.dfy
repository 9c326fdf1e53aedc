/**
 * Go's ordering of strings and `sort.Strings`, which sorts a slice in place.
 * Strings compare character by character; a proper prefix comes first.
 */
module Sorting {

  /** `a <= b` on Go strings. */
  predicate StrLe(a: string, b: string) {
    a == [] || (b != [] && (a[0] < b[0] || (a[0] == b[0] && StrLe(a[1..], b[1..]))))
  }

  lemma {:induction false} StrLeReflexive(a: string)
    ensures StrLe(a, a)
  {
    if a != [] {
      StrLeReflexive(a[1..]);
    }
  }

  lemma {:induction false} StrLeTotal(a: string, b: string)
    ensures StrLe(a, b) || StrLe(b, a)
  {
    if a != [] && b != [] && a[0] == b[0] {
      StrLeTotal(a[1..], b[1..]);
    }
  }

  lemma {:induction false} StrLeAntisymmetric(a: string, b: string)
    requires StrLe(a, b) && StrLe(b, a)
    ensures a == b
  {
    if a != [] && b != [] {
      StrLeAntisymmetric(a[1..], b[1..]);
      assert a == [a[0]] + a[1..] && b == [b[0]] + b[1..];
    }
  }

  lemma {:induction false} StrLeTransitive(a: string, b: string, c: string)
    requires StrLe(a, b) && StrLe(b, c)
    ensures StrLe(a, c)
  {
    if a != [] && b != [] && c != [] && a[0] == b[0] && b[0] == c[0] {
      StrLeTransitive(a[1..], b[1..], c[1..]);
    }
  }

  /** Every element is at most its successor. */
  predicate Sorted(s: seq<string>) {
    forall k :: 0 < k < |s| ==> StrLe(s[k - 1], s[k])
  }

  lemma {:induction false} SortedFirstIsLeast(s: seq<string>, k: nat)
    requires Sorted(s) && k < |s|
    ensures StrLe(s[0], s[k])
  {
    if k == 0 {
      StrLeReflexive(s[0]);
    } else {
      SortedFirstIsLeast(s, k - 1);
      StrLeTransitive(s[0], s[k - 1], s[k]);
    }
  }

  lemma {:induction false} SortedHeadsEqual(s: seq<string>, t: seq<string>)
    requires Sorted(s) && Sorted(t) && s != []
    requires multiset(s) == multiset(t)
    ensures t != [] && s[0] == t[0]
  {
    assert s[0] in multiset(t);
    var j :| 0 <= j < |t| && t[j] == s[0];
    SortedFirstIsLeast(t, j);
    assert t[0] in multiset(s);
    var i :| 0 <= i < |s| && s[i] == t[0];
    SortedFirstIsLeast(s, i);
    StrLeAntisymmetric(s[0], t[0]);
  }

  lemma MultisetOfTail(s: seq<string>)
    requires s != []
    ensures multiset(s[1..]) == multiset(s) - multiset{s[0]}
  {
    assert s == [s[0]] + s[1..];
  }

  /** A multiset has exactly one sorted arrangement. */
  lemma {:induction false} SortedPermutationUnique(s: seq<string>, t: seq<string>)
    requires Sorted(s) && Sorted(t)
    requires multiset(s) == multiset(t)
    ensures s == t
    decreases |s|
  {
    if s == [] {
      assert |t| == |multiset(t)| == 0;
    } else {
      SortedHeadsEqual(s, t);
      MultisetOfTail(s);
      MultisetOfTail(t);
      SortedPermutationUnique(s[1..], t[1..]);
      assert s == [s[0]] + s[1..] && t == [t[0]] + t[1..];
    }
  }

  method Swap(a: array<string>, i: nat, j: nat)
    requires i < a.Length && j < a.Length
    modifies a
    ensures a[i] == old(a[j]) && a[j] == old(a[i])
    ensures forall k :: 0 <= k < a.Length && k != i && k != j ==> a[k] == old(a[k])
    ensures multiset(a[..]) == old(multiset(a[..]))
  {
    a[i], a[j] := a[j], a[i];
  }

  /** `sort.Strings`: sorts `a` in place (an insertion sort). */
  method SortStrings(a: array<string>)
    modifies a
    ensures Sorted(a[..])
    ensures multiset(a[..]) == old(multiset(a[..]))
  {
    if a.Length == 0 {
      return;
    }
    var i := 1;
    while i < a.Length
      invariant 1 <= i <= a.Length
      invariant forall k :: 0 < k < i ==> StrLe(a[k - 1], a[k])
      invariant multiset(a[..]) == old(multiset(a[..]))
    {
      var j := i;
      while j > 0 && !StrLe(a[j - 1], a[j])
        invariant 0 <= j <= i
        invariant forall k :: 0 < k <= i && k != j ==> StrLe(a[k - 1], a[k])
        invariant 0 < j < i ==> StrLe(a[j - 1], a[j + 1])
        invariant multiset(a[..]) == old(multiset(a[..]))
      {
        StrLeTotal(a[j - 1], a[j]);
        Swap(a, j - 1, j);
        j := j - 1;
      }
      i := i + 1;
    }
  }
}
