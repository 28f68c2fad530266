/** Comparing node conditions without regard to their order and heartbeat times: a stable sort by type
    and one comparison in step. */
module NodeConditions {
  import opened Sorting

  datatype Condition = Condition(kind: string, status: string, lastHeartbeatTime: int, lastTransitionTime: int,
                                 reason: string, message: string)

  /** The condition as if it never had a heartbeat. */
  function Erase(c: Condition): Condition {
    c.(lastHeartbeatTime := 0)
  }

  function EraseAll(cs: seq<Condition>): seq<Condition> {
    seq(|cs|, i requires 0 <= i < |cs| => Erase(cs[i]))
  }

  /** The conditions of one type, in list order. */
  function OfKind(cs: seq<Condition>, k: string): seq<Condition> {
    if cs == [] then []
    else (if cs[0].kind == k then [cs[0]] else []) + OfKind(cs[1..], k)
  }

  /** Per type the same conditions in the same order, heartbeat times aside. */
  ghost predicate SameByKind(a: seq<Condition>, b: seq<Condition>) {
    forall k :: OfKind(EraseAll(a), k) == OfKind(EraseAll(b), k)
  }

  predicate KindLeq(a: Condition, b: Condition) {
    StringLeq(a.kind, b.kind)
  }

  lemma {:induction false} KindLeqPreorder()
    ensures TotalPreorder(KindLeq)
  {
    forall x, y ensures KindLeq(x, y) || KindLeq(y, x) { StringLeqTotal(x.kind, y.kind); }
    forall x, y, z | KindLeq(x, y) && KindLeq(y, z) ensures KindLeq(x, z) {
      StringLeqTransitive(x.kind, y.kind, z.kind);
    }
  }

  lemma {:induction false} OfKindAppend(a: seq<Condition>, b: seq<Condition>, k: string)
    ensures OfKind(a + b, k) == OfKind(a, k) + OfKind(b, k)
  {
    if a == [] {
      assert a + b == b;
    } else {
      TailAppend(a, b);
      OfKindAppend(a[1..], b, k);
      AppendAppend(if a[0].kind == k then [a[0]] else [], OfKind(a[1..], k), OfKind(b, k));
    }
  }

  lemma {:induction false} NoneOfKind(a: seq<Condition>, k: string)
    requires forall i :: 0 <= i < |a| ==> a[i].kind != k
    ensures OfKind(a, k) == []
  {
    if a != [] { NoneOfKind(a[1..], k); }
  }

  lemma {:induction false} InsertKeepsOrder(r: seq<Condition>, x: Condition, at: nat, k: string)
    requires at <= |r| && forall i :: at <= i < |r| ==> r[i].kind != x.kind
    ensures OfKind(Inserted(r, at, x), k) == OfKind(r + [x], k)
  {
    assert r == r[..at] + r[at..];
    OfKindAppend(r[..at], r[at..], k);
    OfKindAppend(r[..at] + [x], r[at..], k);
    OfKindAppend(r[..at], [x], k);
    OfKindAppend(r, [x], k);
    if k == x.kind { NoneOfKind(r[at..], k); } else { assert OfKind([x], k) == []; }
  }

  /** A stable sort: conditions of the same type keep their order. */
  method SortStable(s: seq<Condition>) returns (r: seq<Condition>)
    ensures SortedBy(KindLeq, r) && |r| == |s|
    ensures forall k :: OfKind(r, k) == OfKind(s, k)
  {
    KindLeqPreorder();
    r := [];
    for i := 0 to |s|
      invariant SortedBy(KindLeq, r) && |r| == i
      invariant forall k :: OfKind(r, k) == OfKind(s[..i], k)
    {
      var at := InsertionPoint(KindLeq, r, s[i]);
      forall j | at <= j < |r| ensures r[j].kind != s[i].kind { StringLeqTotal(r[j].kind, s[i].kind); }
      InsertedSorted(KindLeq, r, at, s[i]);
      assert s[..i + 1] == s[..i] + [s[i]];
      forall k ensures OfKind(Inserted(r, at, s[i]), k) == OfKind(s[..i + 1], k) {
        InsertKeepsOrder(r, s[i], at, k);
        OfKindAppend(r, [s[i]], k);
        OfKindAppend(s[..i], [s[i]], k);
      }
      r := Inserted(r, at, s[i]);
    }
    assert s[..|s|] == s;
  }

  lemma {:induction false} EraseOfKind(a: seq<Condition>, k: string)
    ensures OfKind(EraseAll(a), k) == EraseAll(OfKind(a, k))
  {
    if a != [] {
      EraseOfKind(a[1..], k);
      assert EraseAll(a)[1..] == EraseAll(a[1..]);
      if a[0].kind == k { assert OfKind(a, k) == [a[0]] + OfKind(a[1..], k); }
    }
  }

  /** In a sorted list the first condition is the first of its type. */
  lemma {:induction false} FirstOfKind(a: seq<Condition>, b: seq<Condition>)
    requires a != [] && b != [] && SortedBy(KindLeq, a) && SortedBy(KindLeq, b)
    requires forall k :: OfKind(a, k) == OfKind(b, k)
    ensures a[0] == b[0]
  {
    var k := a[0].kind;
    assert OfKind(a, k)[0] == a[0];
    assert OfKind(b, b[0].kind)[0] == b[0];
    if k != b[0].kind {
      KindOccurs(b, k);
      KindOccurs(a, b[0].kind);
      StringLeqTotal(k, b[0].kind);
      assert false;
    }
  }

  lemma {:induction false} KindOccurs(a: seq<Condition>, k: string)
    requires a != [] && SortedBy(KindLeq, a) && OfKind(a, k) != []
    ensures StringLeq(a[0].kind, k)
  {
    if a[0].kind == k {
      StringLeqTotal(k, k);
    } else if |a| > 1 {
      KindOccurs(a[1..], k);
      assert KindLeq(a[0], a[1]);
      StringLeqTransitive(a[0].kind, a[1].kind, k);
    }
  }

  /** Sorted lists with the same conditions of every type are equal. */
  lemma {:induction false} SortedUnique(a: seq<Condition>, b: seq<Condition>)
    requires |a| == |b| && SortedBy(KindLeq, a) && SortedBy(KindLeq, b)
    requires forall k :: OfKind(a, k) == OfKind(b, k)
    ensures a == b
  {
    if a != [] {
      FirstOfKind(a, b);
      forall k ensures OfKind(a[1..], k) == OfKind(b[1..], k) { DropFirst(a, b, k); }
      SortedUnique(a[1..], b[1..]);
    }
  }

  lemma {:induction false} DropFirst(a: seq<Condition>, b: seq<Condition>, k: string)
    requires a != [] && b != [] && a[0] == b[0] && OfKind(a, k) == OfKind(b, k)
    ensures OfKind(a[1..], k) == OfKind(b[1..], k)
  {
    if a[0].kind == k {
      assert OfKind(a, k)[1..] == OfKind(a[1..], k);
      assert OfKind(b, k)[1..] == OfKind(b[1..], k);
    } else {
      assert OfKind(a, k) == OfKind(a[1..], k);
      assert OfKind(b, k) == OfKind(b[1..], k);
    }
  }

  /** The comparison is false exactly when, type by type and heartbeat times aside, the two lists hold
      the same conditions in the same order; the order of the types does not matter. */
  method NodeConditionsHaveChanged(original: seq<Condition>, conditions: seq<Condition>) returns (changed: bool)
    ensures !changed <==> |original| == |conditions| && SameByKind(original, conditions)
  {
    if |original| != |conditions| {
      return true;
    }
    var a := SortStable(original);
    var b := SortStable(conditions);
    ghost var x, y := EraseAll(a), EraseAll(b);
    SortedCompare(original, conditions, a, b);
    for i := 0 to |b|
      invariant |a| == |b| == |x| == |y| && x[..i] == y[..i]
      invariant EraseAll(a) == x && EraseAll(b) == y
    {
      a, b := a[i := Erase(a[i])], b[i := Erase(b[i])];
      assert EraseAll(a) == x && EraseAll(b) == y;
      if a[i] != b[i] {
        assert x[i] != y[i];
        return true;
      }
      assert x[..i + 1] == x[..i] + [x[i]] && y[..i + 1] == y[..i] + [y[i]];
    }
    assert x == x[..|b|] && y == y[..|b|];
    changed := false;
  }

  lemma {:induction false} SortedCompare(original: seq<Condition>, conditions: seq<Condition>, a: seq<Condition>,
                                         b: seq<Condition>)
    requires |original| == |conditions| == |a| == |b| && SortedBy(KindLeq, a) && SortedBy(KindLeq, b)
    requires (forall k :: OfKind(a, k) == OfKind(original, k)) && (forall k :: OfKind(b, k) == OfKind(conditions, k))
    ensures EraseAll(a) == EraseAll(b) <==> SameByKind(original, conditions)
  {
    forall k ensures OfKind(EraseAll(a), k) == OfKind(EraseAll(original), k)
                  && OfKind(EraseAll(b), k) == OfKind(EraseAll(conditions), k) {
      EraseOfKind(a, k);
      EraseOfKind(original, k);
      EraseOfKind(b, k);
      EraseOfKind(conditions, k);
    }
    if SameByKind(original, conditions) {
      forall k ensures OfKind(EraseAll(a), k) == OfKind(EraseAll(b), k) {
        assert OfKind(EraseAll(original), k) == OfKind(EraseAll(conditions), k);
      }
      SortedUnique(EraseAll(a), EraseAll(b));
    }
    if EraseAll(a) == EraseAll(b) {
      forall k ensures OfKind(EraseAll(original), k) == OfKind(EraseAll(conditions), k) {
        assert OfKind(EraseAll(a), k) == OfKind(EraseAll(original), k);
        assert OfKind(EraseAll(b), k) == OfKind(EraseAll(conditions), k);
      }
    }
  }

  // ----- distinct types -----

  ghost predicate DistinctKinds(cs: seq<Condition>) {
    forall i, j :: 0 <= i < j < |cs| ==> cs[i].kind != cs[j].kind
  }

  lemma {:induction false} OfKindCount(cs: seq<Condition>, c: Condition)
    ensures multiset(OfKind(cs, c.kind))[c] == multiset(cs)[c]
  {
    if cs != [] {
      assert cs == [cs[0]] + cs[1..];
      OfKindCount(cs[1..], c);
    }
  }

  lemma {:induction false} OneOfKind(cs: seq<Condition>, k: string)
    requires DistinctKinds(cs)
    ensures OfKind(cs, k) == [] || exists c :: c in cs && c.kind == k && OfKind(cs, k) == [c]
  {
    if cs != [] {
      if cs[0].kind == k {
        NoneOfKind(cs[1..], k);
        assert OfKind(cs, k) == [cs[0]];
      } else {
        OneOfKind(cs[1..], k);
        assert OfKind(cs, k) == OfKind(cs[1..], k);
      }
    }
  }

  lemma {:induction false} KindFromMultiset(a: seq<Condition>, b: seq<Condition>, c: Condition)
    requires DistinctKinds(b) && multiset(a) == multiset(b) && OfKind(a, c.kind) == [c]
    ensures OfKind(b, c.kind) == [c]
  {
    OfKindCount(a, c);
    OfKindCount(b, c);
    OneOfKind(b, c.kind);
    assert multiset([c])[c] == 1;
    assert c in multiset(OfKind(b, c.kind));
    assert c in OfKind(b, c.kind);
  }

  lemma {:induction false} SingletonFromMultiset(a: seq<Condition>, b: seq<Condition>, k: string)
    requires DistinctKinds(a) && DistinctKinds(b) && multiset(a) == multiset(b)
    ensures OfKind(a, k) == OfKind(b, k)
  {
    OneOfKind(a, k);
    OneOfKind(b, k);
    if OfKind(a, k) != [] {
      KindFromMultiset(a, b, OfKind(a, k)[0]);
    } else if OfKind(b, k) != [] {
      KindFromMultiset(b, a, OfKind(b, k)[0]);
    }
  }

  /** For lists with distinct types the comparison is false exactly when one list is a permutation of
      the other, heartbeat times aside. */
  lemma {:induction false} DistinctMeansPermutation(a: seq<Condition>, b: seq<Condition>)
    requires DistinctKinds(a) && DistinctKinds(b)
    ensures |a| == |b| && SameByKind(a, b) <==> multiset(EraseAll(a)) == multiset(EraseAll(b))
  {
    var x, y := EraseAll(a), EraseAll(b);
    if multiset(x) == multiset(y) {
      assert |multiset(x)| == |x| && |multiset(y)| == |y|;
      forall k ensures OfKind(x, k) == OfKind(y, k) { SingletonFromMultiset(x, y, k); }
    }
    if SameByKind(a, b) {
      forall c ensures multiset(x)[c] == multiset(y)[c] {
        OfKindCount(x, c);
        OfKindCount(y, c);
        assert OfKind(x, c.kind) == OfKind(y, c.kind);
      }
    }
  }

  // ----- field by field -----

  /** The two conditions differ at most in their heartbeat times. */
  predicate SameFields(a: Condition, b: Condition) {
    && a.kind == b.kind && a.status == b.status && a.lastTransitionTime == b.lastTransitionTime
    && a.reason == b.reason && a.message == b.message
  }

  predicate Agree(a: seq<Condition>, b: seq<Condition>) {
    |a| == |b| && forall i :: 0 <= i < |a| ==> SameFields(a[i], b[i])
  }

  /** The conditions of one type are picked out in list order. */
  lemma {:induction false} AllOfKind(cs: seq<Condition>, k: string)
    requires forall i :: 0 <= i < |cs| ==> cs[i].kind == k
    ensures OfKind(cs, k) == cs
  {
    if cs != [] {
      AllOfKind(cs[1..], k);
    }
  }

  /** The conditions of one type agree one by one in everything but the heartbeat time. */
  predicate AgreeOn(a: seq<Condition>, b: seq<Condition>, k: string) {
    Agree(OfKind(a, k), OfKind(b, k))
  }

  lemma {:induction false} KindAgrees(a: seq<Condition>, b: seq<Condition>, k: string)
    ensures OfKind(EraseAll(a), k) == OfKind(EraseAll(b), k) <==> AgreeOn(a, b, k)
  {
    EraseOfKind(a, k);
    EraseOfKind(b, k);
    EraseAgrees(OfKind(a, k), OfKind(b, k));
  }

  /** Nothing has changed exactly when the conditions agree on every type. */
  lemma {:induction false} UnchangedMeans(a: seq<Condition>, b: seq<Condition>)
    ensures SameByKind(a, b) <==> forall k :: AgreeOn(a, b, k)
  {
    forall k ensures OfKind(EraseAll(a), k) == OfKind(EraseAll(b), k) <==> AgreeOn(a, b, k) {
      KindAgrees(a, b, k);
    }
    if SameByKind(a, b) {
      forall k ensures AgreeOn(a, b, k) {
        assert OfKind(EraseAll(a), k) == OfKind(EraseAll(b), k);
      }
    }
  }

  lemma {:induction false} EraseAgrees(a: seq<Condition>, b: seq<Condition>)
    ensures EraseAll(a) == EraseAll(b) <==> Agree(a, b)
  {
    if EraseAll(a) == EraseAll(b) {
      assert |a| == |EraseAll(a)| && |b| == |EraseAll(b)|;
      forall i | 0 <= i < |a| ensures SameFields(a[i], b[i]) {
        assert EraseAll(a)[i] == EraseAll(b)[i];
      }
    }
  }

  ghost predicate HasLike(cs: seq<Condition>, c: Condition) {
    exists i :: 0 <= i < |cs| && SameFields(cs[i], c)
  }

  lemma {:induction false} HasErased(cs: seq<Condition>, c: Condition)
    ensures HasLike(cs, c) <==> Erase(c) in EraseAll(cs)
  {
    if i :| 0 <= i < |cs| && SameFields(cs[i], c) {
      assert EraseAll(cs)[i] == Erase(c);
    }
    if Erase(c) in EraseAll(cs) {
      var i :| 0 <= i < |EraseAll(cs)| && EraseAll(cs)[i] == Erase(c);
      assert SameFields(cs[i], c);
    }
  }

  /** For lists with distinct types nothing has changed exactly when each condition of either list has one like it,
      heartbeat time aside, in the other. */
  lemma {:induction false} DistinctMeansLike(a: seq<Condition>, b: seq<Condition>)
    requires DistinctKinds(a) && DistinctKinds(b)
    ensures |a| == |b| && SameByKind(a, b) <==>
              (forall c :: c in a ==> HasLike(b, c)) && (forall c :: c in b ==> HasLike(a, c))
  {
    var x, y := EraseAll(a), EraseAll(b);
    DistinctMeansPermutation(a, b);
    ErasedMembers(a, b);
    ErasedMembers(b, a);
    if multiset(x) == multiset(y) {
      SameMembers(x, y);
    } else if (forall c :: c in x ==> c in y) && (forall c :: c in y ==> c in x) {
      forall i, j | 0 <= i < j < |x| ensures x[i] != x[j] { assert a[i].kind != a[j].kind; }
      forall i, j | 0 <= i < j < |y| ensures y[i] != y[j] { assert b[i].kind != b[j].kind; }
      SameDistinct(x, y);
    }
  }

  lemma {:induction false} ErasedMembers(a: seq<Condition>, b: seq<Condition>)
    ensures (forall c :: c in a ==> HasLike(b, c)) <==> (forall c :: c in EraseAll(a) ==> c in EraseAll(b))
  {
    if forall c :: c in a ==> HasLike(b, c) {
      forall c | c in EraseAll(a) ensures c in EraseAll(b) {
        var i :| 0 <= i < |EraseAll(a)| && EraseAll(a)[i] == c;
        assert a[i] in a;
        HasErased(b, a[i]);
      }
    }
    if forall c :: c in EraseAll(a) ==> c in EraseAll(b) {
      forall c | c in a ensures HasLike(b, c) {
        var i :| 0 <= i < |a| && a[i] == c;
        assert EraseAll(a)[i] == Erase(c);
        HasErased(b, c);
      }
    }
  }
}
