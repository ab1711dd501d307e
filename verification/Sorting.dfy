/** In-place sorting by a `less` function, as the Go sort package does for coins and candidates. */
module Sorting {
  /** `less` orders all elements, with ties: "not greater" is total and transitive. */
  ghost predicate WeakOrder<T(!new)>(less: (T, T) -> bool) {
    && (forall x, y :: !less(x, y) || !less(y, x))
    && (forall x, y, z :: !less(y, x) && !less(z, y) ==> !less(z, x))
  }

  ghost predicate Sorted<T>(s: seq<T>, less: (T, T) -> bool) {
    forall i, j :: 0 <= i < j < |s| ==> !less(s[j], s[i])
  }

  method Swap<T>(a: array<T>, j: nat)
    requires 0 < j < a.Length
    modifies a
    ensures a[..] == old(a[..])[j := old(a[j - 1])][j - 1 := old(a[j])]
    ensures multiset(a[..]) == multiset(old(a[..]))
  {
    a[j], a[j - 1] := a[j - 1], a[j];
  }

  /** Insert the element at n into the sorted elements before it. */
  method Insert<T(!new)>(a: array<T>, n: nat, less: (T, T) -> bool)
    requires WeakOrder(less) && n < a.Length && Sorted(a[..n], less)
    modifies a
    ensures Sorted(a[..n + 1], less)
    ensures multiset(a[..]) == multiset(old(a[..]))
  {
    var j := n;
    while j > 0 && less(a[j], a[j - 1])
      invariant 0 <= j <= n
      invariant multiset(a[..]) == multiset(old(a[..]))
      invariant forall i, k :: 0 <= i < k <= n && i != j && k != j ==> !less(a[k], a[i])
      invariant forall k :: j < k <= n ==> !less(a[k], a[j])
    {
      Swap(a, j);
      j := j - 1;
    }
    assert j > 0 ==> forall i :: 0 <= i < j ==> !less(a[j], a[i]);
  }

  method Sort<T(!new)>(a: array<T>, less: (T, T) -> bool)
    requires WeakOrder(less)
    modifies a
    ensures Sorted(a[..], less)
    ensures multiset(a[..]) == multiset(old(a[..]))
  {
    for n := 0 to a.Length
      invariant Sorted(a[..n], less)
      invariant multiset(a[..]) == multiset(old(a[..]))
    {
      Insert(a, n, less);
    }
    assert a[..a.Length] == a[..];
  }

  ghost function Without<T>(s: seq<T>, i: nat): seq<T>
    requires i < |s|
  {
    s[..i] + s[i + 1..]
  }

  lemma SplitAt<T>(s: seq<T>, i: nat)
    requires i < |s|
    ensures s == s[..i] + ([s[i]] + s[i + 1..])
  {
  }

  lemma MultisetWithout<T>(s: seq<T>, i: nat)
    requires i < |s|
    ensures multiset(Without(s, i)) == multiset(s) - multiset{s[i]} && |Without(s, i)| == |s| - 1
  {
    SplitAt(s, i);
  }

  lemma HeadOccurs<T>(s: seq<T>, t: seq<T>) returns (i: nat)
    requires multiset(s) == multiset(t) && t != []
    ensures i < |s| && s[i] == t[0]
  {
    assert t[0] in multiset(t);
    i :| 0 <= i < |s| && s[i] == t[0];
  }

  lemma TailMultiset<T>(s: seq<T>)
    requires s != []
    ensures multiset(s[1..]) == multiset(s) - multiset{s[0]}
  {
    assert s == [s[0]] + s[1..];
  }

  lemma HeadsAgree<T>(s: seq<T>, t: seq<T>, less: (T, T) -> bool)
    requires Sorted(s, less) && Sorted(t, less) && multiset(s) == multiset(t) && s != [] && t != []
    requires NoTies(s, less)
    ensures s[0] == t[0]
  {
    var i := HeadOccurs(s, t);
    var j := HeadOccurs(t, s);
    if i > 0 && j > 0 {
      assert !less(s[i], s[0]) && !less(t[j], t[0]);
      assert s[i] in s && s[0] in s;
    }
  }

  /** No two different elements of s tie. */
  ghost predicate NoTies<T>(s: seq<T>, less: (T, T) -> bool) {
    forall x, y :: x in s && y in s && !less(x, y) && !less(y, x) ==> x == y
  }

  lemma SameLength<T>(s: seq<T>, t: seq<T>)
    requires multiset(s) == multiset(t)
    ensures |s| == |t|
  {
    assert |s| == |multiset(s)| && |t| == |multiset(t)|;
  }

  lemma TailKeeps<T>(s: seq<T>, less: (T, T) -> bool)
    requires s != []
    ensures Sorted(s, less) ==> Sorted(s[1..], less)
    ensures NoTies(s, less) ==> NoTies(s[1..], less)
  {
  }

  lemma HeadAndTail<T>(s: seq<T>, t: seq<T>)
    requires s != [] && t != [] && s[0] == t[0] && s[1..] == t[1..]
    ensures s == t
  {
    assert s == [s[0]] + s[1..] && t == [t[0]] + t[1..];
  }

  /** When no two different elements tie, there is only one sorted arrangement. */
  lemma {:induction false} SortedIsUnique<T>(s: seq<T>, t: seq<T>, less: (T, T) -> bool)
    requires Sorted(s, less) && Sorted(t, less) && multiset(s) == multiset(t)
    requires NoTies(s, less)
    ensures s == t
  {
    SameLength(s, t);
    if s != [] {
      HeadsAgree(s, t, less);
      TailMultiset(s);
      TailMultiset(t);
      TailKeeps(s, less);
      TailKeeps(t, less);
      SortedIsUnique(s[1..], t[1..], less);
      HeadAndTail(s, t);
    }
  }
}
