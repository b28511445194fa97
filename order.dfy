/**
  Go's `<` on strings, and the in-place sort that `sort.Slice` performs with
  a comparator of the form `key(s[i]) < key(s[j])`.
*/
module Order {

  /** Go's `<` on strings compares UTF-8 bytes, which orders code points the
      same way: lexicographic order on `seq<char>`. */
  predicate Less(a: string, b: string)
    decreases |a|
  {
    if a == [] then b != []
    else if b == [] then false
    else if a[0] != b[0] then a[0] < b[0]
    else Less(a[1..], b[1..])
  }

  predicate LessEq(a: string, b: string) {
    !Less(b, a)
  }

  lemma {:induction false} LessIrreflexive(a: string)
    ensures !Less(a, a)
    decreases |a|
  {
    if a != [] {
      LessIrreflexive(a[1..]);
    }
  }

  lemma {:induction false} LessAsymmetric(a: string, b: string)
    requires Less(a, b)
    ensures !Less(b, a)
    decreases |a|
  {
    if a != [] && b != [] && a[0] == b[0] {
      LessAsymmetric(a[1..], b[1..]);
    }
  }

  lemma {:induction false} LessTransitive(a: string, b: string, c: string)
    requires Less(a, b) && Less(b, c)
    ensures Less(a, c)
    decreases |a|
  {
    if a != [] && a[0] == b[0] && b[0] == c[0] {
      LessTransitive(a[1..], b[1..], c[1..]);
    }
  }

  lemma {:induction false} LessTotal(a: string, b: string)
    requires a != b
    ensures Less(a, b) || Less(b, a)
    decreases |a|
  {
    if a != [] && b != [] && a[0] == b[0] {
      assert a == [a[0]] + a[1..] && b == [b[0]] + b[1..];
      LessTotal(a[1..], b[1..]);
    }
  }

  lemma LessEqTransitive(a: string, b: string, c: string)
    requires LessEq(a, b) && LessEq(b, c)
    ensures LessEq(a, c)
  {
    if Less(c, a) {
      if a == b {
      } else {
        LessTotal(a, b);
        LessTransitive(c, a, b);
      }
    }
  }

  /** Non-decreasing by `key`, every pair compared. */
  ghost predicate SortedBy<T>(s: seq<T>, key: T -> string) {
    forall i, j :: 0 <= i < j < |s| ==> LessEq(key(s[i]), key(s[j]))
  }

  /** Strictly increasing by `key`: sorted and without repeated keys. */
  ghost predicate StrictlySortedBy<T>(s: seq<T>, key: T -> string) {
    forall i, j :: 0 <= i < j < |s| ==> Less(key(s[i]), key(s[j]))
  }

  /** Every adjacent pair in `s[..n+1]` is ordered, except possibly the pair
      ending at `hole` (`hole == 0` excepts nothing). */
  ghost predicate SortedExcept<T>(s: seq<T>, n: nat, hole: nat, key: T -> string)
    requires n < |s| || n == 0
  {
    forall p :: 0 < p <= n && p != hole ==> LessEq(key(s[p - 1]), key(s[p]))
  }

  lemma {:induction false} AdjacentSorted<T>(s: seq<T>, key: T -> string)
    requires forall p :: 0 < p < |s| ==> LessEq(key(s[p - 1]), key(s[p]))
    ensures SortedBy(s, key)
    decreases |s|
  {
    if |s| > 1 {
      var t := s[..|s| - 1];
      assert forall k :: 0 <= k < |t| ==> t[k] == s[k];
      AdjacentSorted(t, key);
      var n := |s| - 1;
      forall i | 0 <= i < n
        ensures LessEq(key(s[i]), key(s[n]))
      {
        if i < n - 1 {
          LessEqTransitive(key(s[i]), key(s[n - 1]), key(s[n]));
        }
      }
    }
  }

  /** One step of moving an element down: swapping the out-of-order pair at
      `j` moves the hole to `j - 1`. */
  lemma SwapDown<T>(s: seq<T>, i: nat, j: nat, key: T -> string)
    requires 0 < j <= i < |s|
    requires SortedExcept(s, i, j, key)
    requires j < i ==> LessEq(key(s[j - 1]), key(s[j + 1]))
    requires Less(key(s[j]), key(s[j - 1]))
    ensures var t := s[j - 1 := s[j]][j := s[j - 1]];
      SortedExcept(t, i, j - 1, key) && (0 < j - 1 ==> LessEq(key(t[j - 2]), key(t[j])))
  {
    LessAsymmetric(key(s[j]), key(s[j - 1]));
    var t := s[j - 1 := s[j]][j := s[j - 1]];
    forall p | 0 < p <= i && p != j - 1
      ensures LessEq(key(t[p - 1]), key(t[p]))
    {
      if p == j {
      } else if p == j + 1 {
      } else {
        assert t[p - 1] == s[p - 1] && t[p] == s[p];
      }
    }
  }

  /** A sorted sequence whose keys are pairwise distinct is strictly sorted. */
  lemma SortedDistinct<T>(s: seq<T>, key: T -> string)
    requires SortedBy(s, key)
    requires forall i, j :: 0 <= i < j < |s| ==> key(s[i]) != key(s[j])
    ensures StrictlySortedBy(s, key)
  {
    forall i, j | 0 <= i < j < |s|
      ensures Less(key(s[i]), key(s[j]))
    {
      LessTotal(key(s[i]), key(s[j]));
    }
  }

  /** Swapping two neighbours keeps the elements. */
  lemma SwapPermutes<T>(s: seq<T>, j: nat)
    requires 0 < j < |s|
    ensures multiset(s[j - 1 := s[j]][j := s[j - 1]]) == multiset(s)
  {
  }

  /** When the moved element has come to rest the hole is closed. */
  lemma HoleClosed<T>(s: seq<T>, i: nat, j: nat, key: T -> string)
    requires j <= i < |s|
    requires SortedExcept(s, i, j, key)
    requires 0 < j ==> LessEq(key(s[j - 1]), key(s[j]))
    ensures SortedExcept(s, i, 0, key)
  {
  }

  /** Sorts `a` in place into non-decreasing `key` order (insertion sort; Go's
      `sort.Slice` is not stable, so nothing is promised about ties). */
  method SortBy<T>(a: array<T>, key: T -> string)
    modifies a
    ensures SortedBy(a[..], key)
    ensures multiset(a[..]) == old(multiset(a[..]))
  {
    var i := 0;
    while i < a.Length
      invariant 0 <= i <= a.Length
      invariant i == 0 || SortedExcept(a[..], i - 1, 0, key)
      invariant multiset(a[..]) == old(multiset(a[..]))
    {
      var j := i;
      while j > 0 && Less(key(a[j]), key(a[j - 1]))
        invariant 0 <= j <= i
        invariant SortedExcept(a[..], i, j, key)
        invariant 0 < j < i ==> LessEq(key(a[j - 1]), key(a[j + 1]))
        invariant multiset(a[..]) == old(multiset(a[..]))
      {
        ghost var s := a[..];
        SwapDown(s, i, j, key);
        SwapPermutes(s, j);
        a[j - 1], a[j] := a[j], a[j - 1];
        assert a[..] == s[j - 1 := s[j]][j := s[j - 1]];
        j := j - 1;
      }
      HoleClosed(a[..], i, j, key);
      i := i + 1;
    }
    AdjacentSorted(a[..], key);
  }
}
