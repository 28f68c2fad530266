/** The orders and the sorting the other modules rely on: byte-wise string order, and a sort whose
    contract promises a sorted permutation and nothing about ties. */
module Sorting {

  ghost predicate TotalPreorder<T(!new)>(leq: (T, T) -> bool) {
    && (forall x, y :: leq(x, y) || leq(y, x))
    && (forall x, y, z :: leq(x, y) && leq(y, z) ==> leq(x, z))
  }

  ghost predicate SortedBy<T>(leq: (T, T) -> bool, s: seq<T>) {
    forall i, j :: 0 <= i < j < |s| ==> leq(s[i], s[j])
  }

  /** The position after everything that may precede x in the sorted sequence s. */
  method InsertionPoint<T(!new)>(leq: (T, T) -> bool, s: seq<T>, x: T) returns (k: nat)
    requires TotalPreorder(leq) && SortedBy(leq, s)
    ensures k <= |s|
    ensures forall i :: 0 <= i < k ==> leq(s[i], x)
    ensures forall i :: k <= i < |s| ==> leq(x, s[i]) && !leq(s[i], x)
  {
    k := |s|;
    while k > 0 && !leq(s[k - 1], x)
      invariant k <= |s|
      invariant forall i :: k <= i < |s| ==> leq(x, s[i]) && !leq(s[i], x)
    {
      k := k - 1;
    }
  }

  /** Putting x in at place k. */
  function Inserted<T>(s: seq<T>, k: nat, x: T): seq<T>
    requires k <= |s|
  {
    s[..k] + [x] + s[k..]
  }

  lemma {:induction false} InsertedSorted<T>(leq: (T, T) -> bool, s: seq<T>, k: nat, x: T)
    requires SortedBy(leq, s) && k <= |s|
    requires forall i :: 0 <= i < k ==> leq(s[i], x)
    requires forall i :: k <= i < |s| ==> leq(x, s[i])
    ensures SortedBy(leq, Inserted(s, k, x))
  {
    var t := Inserted(s, k, x);
    forall i, j | 0 <= i < j < |t| ensures leq(t[i], t[j]) {
      assert t[i] == if i < k then s[i] else if i == k then x else s[i - 1];
      assert t[j] == if j < k then s[j] else if j == k then x else s[j - 1];
    }
  }

  lemma {:induction false} InsertedMembers<T>(s: seq<T>, k: nat, x: T)
    requires k <= |s|
    ensures multiset(Inserted(s, k, x)) == multiset(s) + multiset{x}
  {
    assert s == s[..k] + s[k..];
  }

  /** A sorted permutation; nothing is promised about the order of elements that compare equal. */
  method Sort<T(!new)>(leq: (T, T) -> bool, s: seq<T>) returns (r: seq<T>)
    requires TotalPreorder(leq)
    ensures SortedBy(leq, r)
    ensures multiset(r) == multiset(s)
  {
    r := [];
    for i := 0 to |s|
      invariant SortedBy(leq, r)
      invariant multiset(r) == multiset(s[..i])
    {
      var k := InsertionPoint(leq, r, s[i]);
      InsertedSorted(leq, r, k, s[i]);
      InsertedMembers(r, k, s[i]);
      assert s[..i + 1] == s[..i] + [s[i]];
      r := Inserted(r, k, s[i]);
    }
    assert s[..|s|] == s;
  }

  lemma {:induction false} TailAppend<T>(a: seq<T>, b: seq<T>)
    requires a != []
    ensures a + b != [] && (a + b)[0] == a[0] && (a + b)[1..] == a[1..] + b
  {
  }

  lemma {:induction false} AppendAppend<T>(a: seq<T>, b: seq<T>, c: seq<T>)
    ensures a + (b + c) == (a + b) + c
  {
  }

  lemma {:induction false} RemoveAt<T>(s: seq<T>, i: nat)
    requires i < |s|
    ensures multiset(s[..i] + s[i + 1..]) == multiset(s) - multiset{s[i]}
  {
    assert s == s[..i] + [s[i]] + s[i + 1..];
  }

  /** Permutations stay permutations when the last element of one is taken from both. */
  lemma {:induction false} LastRemoved<T>(a: seq<T>, b: seq<T>, i: nat)
    requires multiset(a) == multiset(b) && a != [] && i < |b| && b[i] == a[|a| - 1]
    ensures multiset(a[..|a| - 1]) == multiset(b[..i] + b[i + 1..])
  {
    RemoveAt(b, i);
    assert a == a[..|a| - 1] + [a[|a| - 1]];
  }

  lemma {:induction false} SameMembers<T>(a: seq<T>, b: seq<T>)
    requires multiset(a) == multiset(b)
    ensures |a| == |b|
    ensures forall x :: x in a <==> x in b
  {
    assert |multiset(a)| == |a| && |multiset(b)| == |b|;
    forall x ensures x in a <==> x in b {
      assert x in a <==> x in multiset(a);
      assert x in b <==> x in multiset(b);
    }
  }

  ghost predicate NoDuplicates<T>(s: seq<T>) {
    forall i, j :: 0 <= i < j < |s| ==> s[i] != s[j]
  }

  lemma {:induction false} DuplicateCount<T>(s: seq<T>, i: nat, j: nat)
    requires i < j < |s| && s[i] == s[j]
    ensures multiset(s)[s[i]] >= 2
  {
    assert s == s[..i] + [s[i]] + s[i + 1..j] + [s[j]] + s[j + 1..];
  }

  lemma {:induction false} DistinctCount<T>(s: seq<T>, x: T)
    requires NoDuplicates(s)
    ensures multiset(s)[x] <= 1
  {
    if s != [] {
      var front, y := s[..|s| - 1], s[|s| - 1];
      assert s == front + [y];
      DistinctCount(front, x);
      if x == y {
        forall i | 0 <= i < |front| ensures front[i] != y { assert s[i] == front[i]; }
        assert y !in front;
      }
    }
  }

  lemma {:induction false} PermutedDistinct<T>(a: seq<T>, b: seq<T>)
    requires NoDuplicates(a) && multiset(a) == multiset(b)
    ensures NoDuplicates(b)
  {
    forall i, j | 0 <= i < j < |b| ensures b[i] != b[j] {
      DistinctCount(a, b[i]);
      if b[i] == b[j] {
        DuplicateCount(b, i, j);
        assert false;
      }
    }
  }

  /** Two lists without duplicates and with the same members are permutations of each other. */
  lemma {:induction false} SameDistinct<T>(a: seq<T>, b: seq<T>)
    requires NoDuplicates(a) && NoDuplicates(b) && forall x :: x in a <==> x in b
    ensures multiset(a) == multiset(b) && |a| == |b|
  {
    forall x ensures multiset(a)[x] == multiset(b)[x] {
      DistinctCount(a, x);
      DistinctCount(b, x);
      assert x in a <==> x in multiset(a);
      assert x in b <==> x in multiset(b);
    }
    assert multiset(a) == multiset(b);
    assert |multiset(a)| == |a| && |multiset(b)| == |b|;
  }

  /** Byte-wise lexicographic order, a proper prefix before its extensions. */
  predicate StringLeq(a: string, b: string) {
    a == "" || (b != "" && (a[0] < b[0] || (a[0] == b[0] && StringLeq(a[1..], b[1..]))))
  }

  /** The strings agree before place i, and a has the smaller character there. */
  predicate SmallerAt(a: string, b: string, i: nat) {
    i < |a| && i < |b| && a[..i] == b[..i] && a[i] < b[i]
  }

  lemma {:induction false} SameBefore(a: string, b: string, i: nat)
    requires SmallerAt(a, b, i)
    ensures i > 0 ==> a[0] == b[0]
  {
    assert i > 0 ==> a[..i][0] == a[0] && b[..i][0] == b[0];
  }

  /** One string precedes another if it begins it, or if it has the smaller character where they first differ. */
  lemma {:induction false} StringLeqMeans(a: string, b: string)
    ensures StringLeq(a, b) <==> a <= b || exists i :: SmallerAt(a, b, i)
  {
    if a != "" && b != "" {
      if a[0] == b[0] {
        StringLeqMeans(a[1..], b[1..]);
        assert a == [a[0]] + a[1..] && b == [b[0]] + b[1..];
        if i: nat :| SmallerAt(a[1..], b[1..], i) {
          assert a[..i + 1] == [a[0]] + a[1..][..i] && b[..i + 1] == [b[0]] + b[1..][..i];
          assert SmallerAt(a, b, i + 1);
        }
        if i: nat :| SmallerAt(a, b, i) {
          assert a[1..][..i - 1] == a[..i][1..] && b[1..][..i - 1] == b[..i][1..];
          assert SmallerAt(a[1..], b[1..], i - 1);
        }
      } else {
        assert a[0] < b[0] ==> SmallerAt(a, b, 0);
        forall i: nat | SmallerAt(a, b, i) ensures a[0] < b[0] {
          SameBefore(a, b, i);
        }
      }
    }
  }

  lemma {:induction false} StringLeqTotal(a: string, b: string)
    ensures StringLeq(a, b) || StringLeq(b, a)
    ensures StringLeq(a, b) && StringLeq(b, a) ==> a == b
  {
    if a != "" && b != "" && a[0] == b[0] {
      StringLeqTotal(a[1..], b[1..]);
      assert a == [a[0]] + a[1..] && b == [b[0]] + b[1..];
    }
  }

  lemma {:induction false} StringLeqTransitive(a: string, b: string, c: string)
    requires StringLeq(a, b) && StringLeq(b, c)
    ensures StringLeq(a, c)
  {
    if a != "" && a[0] == b[0] && b[0] == c[0] {
      StringLeqTransitive(a[1..], b[1..], c[1..]);
    }
  }

  lemma {:induction false} StringLeqPreorder()
    ensures TotalPreorder(StringLeq)
  {
    forall x, y ensures StringLeq(x, y) || StringLeq(y, x) { StringLeqTotal(x, y); }
    forall x, y, z | StringLeq(x, y) && StringLeq(y, z) ensures StringLeq(x, z) {
      StringLeqTransitive(x, y, z);
    }
  }

  lemma {:induction false} PrefixLeq(p: string, s: string)
    requires p <= s
    ensures StringLeq(p, s)
  {
    if p != "" {
      assert p[1..] <= s[1..];
      PrefixLeq(p[1..], s[1..]);
    }
  }

  /** Strictly increasing, so without duplicates. */
  ghost predicate StrictlySorted(s: seq<string>) {
    forall i, j :: 0 <= i < j < |s| ==> StringLeq(s[i], s[j]) && s[i] != s[j]
  }

  ghost predicate Antisymmetric<T(!new)>(leq: (T, T) -> bool) {
    forall x, y :: leq(x, y) && leq(y, x) ==> x == y
  }

  /** A sorted list without duplicates is determined by its members. */
  lemma {:induction false} SortedUnique<T(!new)>(leq: (T, T) -> bool, a: seq<T>, b: seq<T>)
    requires Antisymmetric(leq)
    requires SortedBy(leq, a) && NoDuplicates(a) && SortedBy(leq, b) && NoDuplicates(b)
    requires forall x :: x in a <==> x in b
    ensures a == b
  {
    assert a == [] ==> forall i :: 0 <= i < |b| ==> b[i] in b;
    if a != [] {
      assert a[0] in b && b[0] in a;
      SameHead(leq, a, b);
      forall x ensures x in a[1..] <==> x in b[1..] {
        if x in a[1..] { assert x in b && x != a[0]; }
        if x in b[1..] { assert x in a && x != b[0]; }
      }
      SortedUnique(leq, a[1..], b[1..]);
    }
  }

  lemma {:induction false} SameHead<T(!new)>(leq: (T, T) -> bool, a: seq<T>, b: seq<T>)
    requires Antisymmetric(leq) && SortedBy(leq, a) && SortedBy(leq, b)
    requires a != [] && b != [] && a[0] in b && b[0] in a
    ensures a[0] == b[0]
  {
    var i :| 0 <= i < |b| && b[i] == a[0];
    var j :| 0 <= j < |a| && a[j] == b[0];
    if i > 0 && j > 0 { assert leq(b[0], b[i]) && leq(a[0], a[j]); }
  }

  /** A strictly increasing list is determined by its members. */
  lemma {:induction false} StrictlySortedUnique(a: seq<string>, b: seq<string>)
    requires StrictlySorted(a) && StrictlySorted(b)
    requires forall x :: x in a <==> x in b
    ensures a == b
  {
    forall x, y | StringLeq(x, y) && StringLeq(y, x) ensures x == y { StringLeqTotal(x, y); }
    SortedUnique(StringLeq, a, b);
  }
}
