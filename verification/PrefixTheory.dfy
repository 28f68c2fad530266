/** Why collapsing names to common prefixes keeps the meaning of longest-prefix lookup, and what the
    collapsed table must be when nothing is left to collapse. Tables map names to sigs. */
module PrefixTheory {
  import opened TestNames

  type Table = map<string, string>

  // ----- the closed form -----

  /** All tests that begin with p have the same sig. */
  ghost predicate Uniform(T: Table, p: string) {
    forall t, u :: t in T && u in T && p <= t && p <= u ==> T[t] == T[u]
  }

  /** p is a test name less one or more trailing words. */
  ghost predicate Candidate(T: Table, p: string) {
    exists r :: r in T && DropsTo(r, p)
  }

  ghost predicate Good(T: Table, p: string) {
    Candidate(T, p) && Uniform(T, p)
  }

  ghost predicate ShortestGood(T: Table, p: string) {
    Good(T, p) && forall q :: q <= p && Good(T, q) ==> q == p
  }

  ghost predicate HasTest(T: Table, n: string, sig: string) {
    exists t :: t in T && n <= t && T[t] == sig
  }

  /** What the compressed table must consist of: the shortest good prefixes with their common sig,
      and the tests that no good prefix covers. */
  ghost predicate InReference(T: Table, n: string, sig: string) {
    || (ShortestGood(T, n) && HasTest(T, n, sig))
    || (n in T && T[n] == sig && forall q :: q <= n ==> !Good(T, q))
  }

  ghost predicate OneSig(T: Table) {
    forall t, u :: t in T && u in T ==> T[t] == T[u]
  }

  // ----- one rewrite -----

  /** Every entry beginning with p has the given sig. */
  ghost predicate Agree(M: Table, p: string, sig: string) {
    forall f :: f in M && p <= f ==> M[f] == sig
  }

  ghost function Collapsed(M: Table, p: string, sig: string): Table {
    (map f | f in M && !(p <= f) :: M[f])[p := sig]
  }

  // ----- the invariant -----

  /** The entry n is a test with its sig, or a good prefix with the sig of the tests below it. */
  ghost predicate Backed(T: Table, M: Table, n: string)
    requires n in M
  {
    HasTest(T, n, M[n]) && ((n in T && T[n] == M[n]) || Good(T, n))
  }

  ghost predicate Sound(T: Table, M: Table) {
    forall n {:trigger Backed(T, M, n)} :: n in M ==> Backed(T, M, n)
  }

  /** n is the longest entry that begins t. */
  ghost predicate Longest(M: Table, n: string, t: string) {
    n in M && n <= t && forall f :: f in M && f <= t ==> |f| <= |n|
  }

  ghost predicate NoneExtends(M: Table, n: string) {
    forall f :: f in M && n <= f ==> f == n
  }

  /** The longest entry that begins t has the sig of t and, unless it is t itself, it is a good
      prefix and no other entry extends it. */
  ghost predicate Holds(T: Table, M: Table, n: string, t: string)
    requires t in T
  {
    Longest(M, n, t) && M[n] == T[t] && (n == t || (NoneExtends(M, n) && Good(T, n)))
  }

  ghost predicate Held(T: Table, M: Table, t: string)
    requires t in T
  {
    exists n :: Holds(T, M, n, t)
  }

  ghost predicate Covers(T: Table, M: Table) {
    forall t {:trigger Held(T, M, t)} :: t in T ==> Held(T, M, t)
  }

  ghost predicate Inv(T: Table, M: Table) {
    Sound(T, M) && Covers(T, M)
  }

  lemma {:induction false} PrefixTransitive(a: string, b: string, c: string)
    requires a <= b <= c
    ensures a <= c
  {
  }

  lemma {:induction false} PrefixComparable(a: string, b: string, c: string)
    requires a <= c && b <= c && |a| <= |b|
    ensures a <= b
  {
  }

  lemma {:induction false} DropsToTransitive(r: string, n: string, p: string)
    requires DropsTo(r, n) && DropsTo(n, p)
    ensures DropsTo(r, p)
  {
  }

  lemma {:induction false} InitialInv(T: Table)
    ensures Inv(T, T)
  {
    forall n | n in T ensures Backed(T, T, n) { assert n <= n; }
    forall t | t in T ensures Held(T, T, t) { assert Holds(T, T, t, t); }
  }

  /** A test that begins with the prefix p to be collapsed belongs to an entry that does too. */
  lemma {:induction false} HolderBeginsWith(T: Table, M: Table, n: string, p: string, t: string, e: string)
    requires n in M && p <= n && t in T && Holds(T, M, e, t) && p <= t
    ensures p <= e
  {
    if |e| < |p| {
      PrefixComparable(e, p, t);
      PrefixTransitive(e, p, n);
    } else {
      PrefixComparable(p, e, t);
    }
  }

  lemma {:induction false} CollapsedIsGood(T: Table, M: Table, n: string, p: string)
    requires Inv(T, M) && n in M && p <= n && DropsTo(n, p) && Agree(M, p, M[n])
    ensures Good(T, p)
    ensures forall t :: t in T && p <= t ==> T[t] == M[n]
  {
    assert Backed(T, M, n);
    if n in T {
      assert DropsTo(n, p);
    } else {
      var r :| r in T && DropsTo(r, n);
      DropsToTransitive(r, n, p);
    }
    forall t | t in T && p <= t ensures T[t] == M[n] {
      assert Held(T, M, t);
      var e :| Holds(T, M, e, t);
      HolderBeginsWith(T, M, n, p, t, e);
    }
  }

  lemma {:induction false} CollapseHolds(T: Table, M: Table, n: string, p: string, t: string)
    requires Inv(T, M) && n in M && p <= n && DropsTo(n, p) && Agree(M, p, M[n]) && t in T
    ensures Held(T, Collapsed(M, p, M[n]), t)
  {
    var M' := Collapsed(M, p, M[n]);
    assert Held(T, M, t);
    var e :| Holds(T, M, e, t);
    if p <= t {
      CollapsedIsGood(T, M, n, p);
      assert NoneExtends(M', p);
      forall f | f in M' && f <= t ensures |f| <= |p| {
        if |p| < |f| { PrefixComparable(p, f, t); }
      }
      assert Holds(T, M', p, t);
    } else {
      if p <= e { PrefixTransitive(p, e, t); assert false; }
      if e != t {
        if e <= p { PrefixTransitive(e, p, n); }
        assert NoneExtends(M', e);
      }
      assert Holds(T, M', e, t);
    }
  }

  /** Collapsing keeps the invariant. */
  lemma {:induction false} CollapseInv(T: Table, M: Table, n: string, p: string)
    requires Inv(T, M) && n in M && p <= n && DropsTo(n, p) && Agree(M, p, M[n])
    ensures Inv(T, Collapsed(M, p, M[n]))
  {
    var M' := Collapsed(M, p, M[n]);
    CollapsedIsGood(T, M, n, p);
    assert Backed(T, M, n);
    var t :| t in T && n <= t && T[t] == M[n];
    PrefixTransitive(p, n, t);
    assert HasTest(T, p, M[n]);
    forall f | f in M' ensures Backed(T, M', f) {
      if f != p { assert Backed(T, M, f); }
    }
    forall t | t in T ensures Held(T, M', t) { CollapseHolds(T, M, n, p, t); }
  }

  /** Longest-prefix lookup: every test begins with some entry, and the longest such entry has the
      sig of the test. */
  lemma {:induction false} LookupKept(T: Table, M: Table, t: string)
    requires Inv(T, M) && t in T
    ensures exists n :: Longest(M, n, t)
    ensures forall n :: Longest(M, n, t) ==> M[n] == T[t]
  {
    assert Held(T, M, t);
    var e :| Holds(T, M, e, t);
    forall n | Longest(M, n, t) ensures M[n] == T[t] {
      PrefixComparable(n, e, t);
      PrefixComparable(e, n, t);
      assert n == e;
    }
  }

  /** The sigs of the entries are those of the tests. */
  lemma {:induction false} SigsKept(T: Table, M: Table)
    requires Inv(T, M)
    ensures M.Values == T.Values
  {
    forall s | s in T.Values ensures s in M.Values {
      var t :| t in T && T[t] == s;
      assert Held(T, M, t);
      var n :| Holds(T, M, n, t);
      assert n in M.Keys;
    }
    forall s | s in M.Values ensures s in T.Values {
      var n :| n in M && M[n] == s;
      assert Backed(T, M, n);
      var t :| t in T && n <= t && T[t] == M[n];
      assert t in T.Keys;
    }
  }

  // ----- a table with nothing left to collapse is the closed form -----

  ghost predicate Stuck(M: Table) {
    forall n :: n in M ==> !Agree(M, Shorten(n), M[n])
  }

  /** All entries below a uniform prefix agree. */
  lemma {:induction false} UniformAgrees(T: Table, M: Table, p: string, q: string, e: string)
    requires Inv(T, M) && Uniform(T, p) && p <= q && e in M && p <= e
    ensures Agree(M, q, M[e])
  {
    assert Backed(T, M, e);
    var u :| u in T && e <= u && T[u] == M[e];
    PrefixTransitive(p, e, u);
    forall f | f in M && q <= f ensures M[f] == M[e] {
      assert Backed(T, M, f);
      var t :| t in T && f <= t && T[t] == M[f];
      PrefixTransitive(p, q, f);
      PrefixTransitive(p, f, t);
    }
  }

  lemma {:induction false} ShortenKeeps(p: string, r: string, e: string)
    requires DropsTo(r, p) && e <= r && |p| < |e| && Normal(e)
    ensures p <= e && p <= Shorten(e)
  {
    PrefixComparable(p, e, r);
    assert e[|p|] == r[|p|] && DropsTo(e, p);
    ShortenNormal(e);
  }

  /** In a stuck table no entry above a test that p was cut from is longer than a uniform p. */
  lemma {:induction false} StuckIsShort(T: Table, M: Table, p: string, r: string, e: string)
    requires Inv(T, M) && Stuck(M) && Uniform(T, p)
    requires DropsTo(r, p) && e in M && e <= r && Normal(e)
    ensures |e| <= |p|
  {
    if |p| < |e| {
      ShortenKeeps(p, r, e);
      UniformAgrees(T, M, p, Shorten(e), e);
    }
  }

  /** In a stuck table, the test a shortest good prefix was cut from belongs to that prefix. */
  lemma {:induction false} ShortestGoodIsHeld(T: Table, M: Table, p: string, r: string, e: string)
    requires Inv(T, M) && Stuck(M) && ShortestGood(T, p)
    requires r in T && DropsTo(r, p) && Holds(T, M, e, r)
    requires Normal(e)
    ensures e == p
  {
    StuckIsShort(T, M, p, r, e);
    PrefixComparable(e, p, r);
  }

  /** Every shortest good prefix is an entry of a stuck table, and nothing extends it. */
  lemma {:induction false} ShortestGoodIsEntry(T: Table, M: Table, p: string)
    requires Inv(T, M) && Stuck(M) && ShortestGood(T, p)
    requires forall n :: n in M ==> Normal(n)
    ensures p in M && NoneExtends(M, p)
  {
    var r :| r in T && DropsTo(r, p);
    assert Held(T, M, r);
    var e :| Holds(T, M, e, r);
    ShortestGoodIsHeld(T, M, p, r, e);
    if p == r { UniformAgrees(T, M, p, Shorten(p), p); }
  }

  lemma {:induction false} ShortestGoodBelow(T: Table, q: string) returns (p: string)
    requires Good(T, q)
    ensures p <= q && ShortestGood(T, p)
    decreases |q|
  {
    p := q;
    if !ShortestGood(T, q) {
      var q' :| q' <= q && Good(T, q') && q' != q;
      p := ShortestGoodBelow(T, q');
      PrefixTransitive(p, q', q);
    }
  }

  /** Nothing left to collapse: the table is the closed form, entry by entry. */
  lemma {:induction false} StuckIsReference(T: Table, M: Table, n: string, sig: string)
    requires Inv(T, M) && Stuck(M)
    requires forall e :: e in M ==> Normal(e)
    ensures (n in M && M[n] == sig) <==> InReference(T, n, sig)
  {
    if n in M && M[n] == sig {
      EntryInReference(T, M, n);
    }
    if InReference(T, n, sig) {
      ReferenceIsEntry(T, M, n, sig);
    }
  }

  lemma {:induction false} EntryInReference(T: Table, M: Table, n: string)
    requires Inv(T, M) && Stuck(M) && n in M
    requires forall e :: e in M ==> Normal(e)
    ensures InReference(T, n, M[n])
  {
    assert Backed(T, M, n);
    if q :| q <= n && Good(T, q) {
      var p := ShortestGoodBelow(T, q);
      PrefixTransitive(p, q, n);
      ShortestGoodIsEntry(T, M, p);
      assert p == n;
    } else {
      assert n <= n;
    }
  }

  lemma {:induction false} ReferenceIsEntry(T: Table, M: Table, n: string, sig: string)
    requires Inv(T, M) && Stuck(M) && InReference(T, n, sig)
    requires forall e :: e in M ==> Normal(e)
    ensures n in M && M[n] == sig
  {
    if ShortestGood(T, n) && HasTest(T, n, sig) {
      ShortestGoodIsEntry(T, M, n);
      assert Backed(T, M, n);
    } else {
      assert Held(T, M, n);
      var e :| Holds(T, M, e, n);
    }
  }
}
