/** `sig_prefixes`: the rewriting loop over the owners table, proved to end with the closed form of
    PrefixTheory exactly when it ends. */
module SigPrefixes {
  import opened Options
  import opened Sorting
  import opened TestNames
  import opened PrefixTheory

  /** One row of the owners table. */
  datatype Row = Row(test: string, owner: string, randomAssignment: int, sig: string)

  datatype Entry = Entry(name: string, sig: string)

  // ----- the input -----

  predicate Contains(s: string, sub: string) {
    exists i :: 0 <= i <= |s| && sub <= s[i..]
  }

  predicate Kept(row: Row) {
    !Contains(row.test, "k8s.io/") && row.sig != ""
  }

  /** The table is a dictionary whose keys went through Normalize. */
  ghost predicate IsTable(rows: seq<Row>) {
    && (forall i, j :: 0 <= i < j < |rows| ==> rows[i].test != rows[j].test)
    && (forall i :: 0 <= i < |rows| ==> Normal(rows[i].test))
  }

  /** The tests that take part, with their sigs, as a list and as a table. */
  ghost function Listed(rows: seq<Row>): seq<Entry> {
    if rows == [] then []
    else
      var row := rows[|rows| - 1];
      Listed(rows[..|rows| - 1]) + if Kept(row) then [Entry(row.test, row.sig)] else []
  }

  ghost function Tests(rows: seq<Row>): Table {
    if rows == [] then map[]
    else
      var rest, row := Tests(rows[..|rows| - 1]), rows[|rows| - 1];
      if Kept(row) then rest[row.test := row.sig] else rest
  }

  /** The list holds each entry of the table once, in some order. */
  ghost predicate Lists(owns: seq<Entry>, M: Table) {
    NoDuplicates(owns) && forall e :: e in owns <==> e.name in M && M[e.name] == e.sig
  }

  ghost predicate NormalNames(M: Table) {
    forall n :: n in M ==> Normal(n)
  }

  lemma {:induction false} ListedTests(rows: seq<Row>)
    requires IsTable(rows)
    ensures Lists(Listed(rows), Tests(rows)) && NormalNames(Tests(rows))
    ensures forall n :: n in Tests(rows) ==> exists i :: 0 <= i < |rows| && rows[i].test == n
  {
    if rows != [] {
      var front, row := rows[..|rows| - 1], rows[|rows| - 1];
      ListedTests(front);
      assert forall i :: 0 <= i < |front| ==> front[i] == rows[i];
      assert row.test !in Tests(front);
      forall n | n in Tests(rows) ensures exists i :: 0 <= i < |rows| && rows[i].test == n {
        if n == row.test { assert rows[|rows| - 1].test == n; }
      }
    }
  }

  /** The seven characters at place i of the name. */
  predicate NamesPackageAt(test: string, i: nat) {
    i + 7 <= |test| && test[i..i + 7] == "k8s.io/"
  }

  lemma {:induction false} ContainsMeans(test: string)
    ensures Contains(test, "k8s.io/") <==> exists i :: NamesPackageAt(test, i)
  {
    assert |"k8s.io/"| == 7;
    if i :| 0 <= i <= |test| && "k8s.io/" <= test[i..] {
      assert test[i..][..7] == test[i..i + 7];
      assert NamesPackageAt(test, i);
    }
    if i: nat :| NamesPackageAt(test, i) {
      assert test[i..][..7] == test[i..i + 7];
      assert "k8s.io/" <= test[i..];
    }
  }

  /** The tests that take part are those with a sig whose name holds no "k8s.io/", each with its own sig. */
  lemma {:induction false} TestsMeans(rows: seq<Row>, t: string, sig: string)
    requires IsTable(rows)
    ensures t in Tests(rows) && Tests(rows)[t] == sig <==>
              && sig != "" && (forall i :: !NamesPackageAt(t, i))
              && exists i :: 0 <= i < |rows| && rows[i].test == t && rows[i].sig == sig
  {
    if rows != [] {
      var front, row := rows[..|rows| - 1], rows[|rows| - 1];
      TestsMeans(front, t, sig);
      ContainsMeans(row.test);
      ListedTests(front);
      assert forall i :: 0 <= i < |front| ==> front[i] == rows[i];
      assert rows[|rows| - 1] == row;
    }
  }

  // ----- one rewrite on the list -----

  function Without(owns: seq<Entry>, p: string): seq<Entry> {
    if owns == [] then []
    else
      var e := owns[|owns| - 1];
      Without(owns[..|owns| - 1], p) + if p <= e.name then [] else [e]
  }

  function TotalLength(owns: seq<Entry>): nat {
    if owns == [] then 0 else TotalLength(owns[..|owns| - 1]) + |owns[|owns| - 1].name|
  }

  lemma {:induction false} WithoutMembers(owns: seq<Entry>, p: string)
    ensures forall e :: e in Without(owns, p) <==> e in owns && !(p <= e.name)
    ensures NoDuplicates(owns) ==> NoDuplicates(Without(owns, p))
  {
    if owns != [] {
      var front, e := owns[..|owns| - 1], owns[|owns| - 1];
      WithoutMembers(front, p);
      assert owns == front + [e];
      if NoDuplicates(owns) {
        assert e !in front;
        assert e !in Without(front, p);
      }
    }
  }

  lemma {:induction false} LengthSnoc(owns: seq<Entry>, e: Entry)
    ensures TotalLength(owns + [e]) == TotalLength(owns) + |e.name|
  {
    assert (owns + [e])[..|owns|] == owns;
  }

  lemma {:induction false} WithoutShorter(owns: seq<Entry>, p: string)
    ensures TotalLength(Without(owns, p)) <= TotalLength(owns)
  {
    if owns != [] {
      var front, e := owns[..|owns| - 1], owns[|owns| - 1];
      WithoutShorter(front, p);
      LengthSnoc(Without(front, p), e);
      assert p <= e.name ==> Without(owns, p) == Without(front, p);
    }
  }

  lemma {:induction false} WithoutLength(owns: seq<Entry>, p: string, n: Entry)
    requires n in owns && p <= n.name
    ensures TotalLength(Without(owns, p)) + |n.name| <= TotalLength(owns)
  {
    var front, e := owns[..|owns| - 1], owns[|owns| - 1];
    assert owns == front + [e];
    LengthSnoc(Without(front, p), e);
    assert p <= e.name ==> Without(owns, p) == Without(front, p);
    if n in front {
      WithoutLength(front, p, n);
    } else {
      WithoutShorter(front, p);
    }
  }

  lemma {:induction false} RewriteLists(owns: seq<Entry>, M: Table, p: string, sig: string)
    requires Lists(owns, M)
    ensures Lists(Without(owns, p) + [Entry(p, sig)], Collapsed(M, p, sig))
  {
    WithoutMembers(owns, p);
    assert Entry(p, sig) !in Without(owns, p);
  }

  lemma {:induction false} RewriteShrinks(owns: seq<Entry>, n: Entry, p: Entry)
    requires n in owns && p.name <= n.name && |p.name| < |n.name|
    ensures TotalLength(Without(owns, p.name) + [p]) < TotalLength(owns)
  {
    WithoutLength(owns, p.name, n);
    LengthSnoc(Without(owns, p.name), p);
  }

  lemma {:induction false} RemoveLength(b: seq<Entry>, i: nat)
    requires i < |b|
    ensures TotalLength(b) == TotalLength(b[..i] + b[i + 1..]) + |b[i].name|
  {
    var last := |b| - 1;
    if i == last {
      assert b[..i] + b[i + 1..] == b[..last];
    } else {
      RemoveLength(b[..last], i);
      var rest := b[..i] + b[i + 1..];
      assert rest[..|rest| - 1] == b[..last][..i] + b[..last][i + 1..];
    }
  }

  lemma {:induction false} PermutedLength(a: seq<Entry>, b: seq<Entry>)
    requires multiset(a) == multiset(b)
    ensures TotalLength(a) == TotalLength(b)
  {
    SameMembers(a, b);
    if a != [] {
      var front, e := a[..|a| - 1], a[|a| - 1];
      assert e in b;
      var i :| 0 <= i < |b| && b[i] == e;
      LastRemoved(a, b, i);
      PermutedLength(front, b[..i] + b[i + 1..]);
      RemoveLength(b, i);
    }
  }

  // ----- sorting the list -----

  predicate EntryLeq(a: Entry, b: Entry) {
    StringLeq(a.name, b.name) && (a.name == b.name ==> StringLeq(a.sig, b.sig))
  }

  lemma {:induction false} EntryLeqPreorder()
    ensures TotalPreorder(EntryLeq)
  {
    forall x, y ensures EntryLeq(x, y) || EntryLeq(y, x) {
      StringLeqTotal(x.name, y.name);
      StringLeqTotal(x.sig, y.sig);
    }
    forall x, y, z | EntryLeq(x, y) && EntryLeq(y, z) ensures EntryLeq(x, z) {
      StringLeqTransitive(x.name, y.name, z.name);
      if x.name == z.name {
        StringLeqTotal(x.name, y.name);
        StringLeqTransitive(x.sig, y.sig, z.sig);
      }
    }
  }

  method SortOwns(owns: seq<Entry>, ghost M: Table) returns (r: seq<Entry>)
    requires Lists(owns, M)
    ensures Lists(r, M) && SortedBy(EntryLeq, r) && TotalLength(r) == TotalLength(owns)
  {
    EntryLeqPreorder();
    r := Sort(EntryLeq, owns);
    SameMembers(owns, r);
    PermutedDistinct(owns, r);
    PermutedLength(owns, r);
  }

  // ----- the loop -----

  /** `matches and all(matches)` for the shortened name p. */
  method AllMatch(owns: seq<Entry>, p: string, sig: string) returns (b: bool)
    ensures b <==> Matches(owns, p, sig)
  {
    var matches := [];
    for i := 0 to |owns|
      invariant matches != [] <==> exists j :: 0 <= j < i && p <= owns[j].name
      invariant false in matches <==> exists j :: 0 <= j < i && p <= owns[j].name && owns[j].sig != sig
    {
      if p <= owns[i].name {
        matches := matches + [owns[i].sig == sig];
      }
    }
    b := matches != [] && false !in matches;
    if b {
      var j :| 0 <= j < |owns| && p <= owns[j].name;
      assert owns[j] in owns;
    }
  }

  /** Some entry begins with p, and all of those have the sig. */
  ghost predicate Matches(owns: seq<Entry>, p: string, sig: string) {
    && (exists f :: f in owns && p <= f.name)
    && (forall f :: f in owns && p <= f.name ==> f.sig == sig)
  }

  /** The first entry whose name can be shortened, in list order. */
  method FirstCollapsible(owns: seq<Entry>, ghost M: Table) returns (k: nat)
    requires Lists(owns, M) && NormalNames(M)
    ensures k <= |owns|
    ensures k < |owns| ==> Agree(M, Shorten(owns[k].name), owns[k].sig)
    ensures k == |owns| ==> Stuck(M)
    ensures forall i :: 0 <= i < k ==> !Agree(M, Shorten(owns[i].name), owns[i].sig)
  {
    k := 0;
    while k < |owns|
      invariant k <= |owns|
      invariant forall i :: 0 <= i < k ==> !Agree(M, Shorten(owns[i].name), owns[i].sig)
    {
      assert owns[k] in owns;
      var p := Shorten(owns[k].name);
      var collapse := AllMatch(owns, p, owns[k].sig);
      MatchesAgrees(owns, M, owns[k], p);
      if collapse {
        return;
      }
      k := k + 1;
    }
    NoneMatches(owns, M);
  }

  lemma {:induction false} MatchesAgrees(owns: seq<Entry>, M: Table, n: Entry, p: string)
    requires Lists(owns, M) && NormalNames(M) && n in owns && p == Shorten(n.name)
    ensures Matches(owns, p, n.sig) <==> Agree(M, p, n.sig)
  {
    ShortenPrefix(n.name);
    if Matches(owns, p, n.sig) {
      forall f | f in M && p <= f ensures M[f] == n.sig { assert Entry(f, M[f]) in owns; }
    }
  }

  lemma {:induction false} NoneMatches(owns: seq<Entry>, M: Table)
    requires Lists(owns, M) && forall i :: 0 <= i < |owns| ==> !Agree(M, Shorten(owns[i].name), owns[i].sig)
    ensures Stuck(M)
  {
    forall n | n in M ensures !Agree(M, Shorten(n), M[n]) {
      assert Entry(n, M[n]) in owns;
      var i :| 0 <= i < |owns| && owns[i] == Entry(n, M[n]);
      assert !Agree(M, Shorten(owns[i].name), owns[i].sig);
    }
  }

  lemma {:induction false} ShortenPrefix(n: string)
    requires Normal(n)
    ensures Shorten(n) <= n && DropsTo(n, Shorten(n)) && Normal(Shorten(n))
    ensures n != "" ==> |Shorten(n)| < |n|
  {
    ShortenNormal(n);
  }

  lemma {:induction false} OneSigAgrees(T: Table, M: Table, p: string, n: string)
    requires Inv(T, M) && OneSig(T) && n in M
    ensures Agree(M, p, M[n])
  {
    forall f | f in M ensures M[f] == M[n] {
      assert Backed(T, M, f) && Backed(T, M, n);
    }
  }

  lemma {:induction false} EmptyNameOneSig(T: Table, M: Table, n: string)
    requires Inv(T, M) && n in M && Agree(M, "", M[n])
    ensures OneSig(T)
  {
    forall t | t in T ensures T[t] == M[n] {
      assert Held(T, M, t);
      var e :| Holds(T, M, e, t);
      assert "" <= e;
    }
  }

  /** One round: sort, look for a name to shorten, collapse everything below the shortened name. */
  method Round(owns: seq<Entry>, ghost T: Table, ghost M: Table)
    returns (stuck: bool, owns': seq<Entry>, ghost M': Table)
    requires Lists(owns, M) && NormalNames(M) && Inv(T, M)
    ensures Lists(owns', M') && NormalNames(M') && Inv(T, M')
    ensures stuck ==> Stuck(M') && SortedBy(EntryLeq, owns')
    ensures !stuck && !OneSig(T) ==> TotalLength(owns') < TotalLength(owns)
    ensures !stuck ==> T != map[]
  {
    owns' := SortOwns(owns, M);
    M' := M;
    var k := FirstCollapsible(owns', M);
    stuck := k == |owns'|;
    if !stuck {
      var n := owns'[k];
      assert n in owns';
      var p := Shorten(n.name);
      ShortenPrefix(n.name);
      NonEmptyStays(T, M);
      if n.name == "" {
        EmptyNameOneSig(T, M, n.name);
      } else {
        RewriteShrinks(owns', n, Entry(p, n.sig));
      }
      CollapseInv(T, M, n.name, p);
      RewriteLists(owns', M, p, n.sig);
      owns' := Without(owns', p) + [Entry(p, n.sig)];
      M' := Collapsed(M, p, n.sig);
    }
  }

  /** The loop, for at most the given number of rounds; done says that it ended by itself. */
  method Compress(owns0: seq<Entry>, rounds: nat, ghost T: Table)
    returns (done: bool, owns: seq<Entry>, ghost M: Table)
    requires Lists(owns0, T) && NormalNames(T)
    ensures Lists(owns, M) && NormalNames(M) && Inv(T, M)
    ensures done ==> Stuck(M) && SortedBy(EntryLeq, owns)
    ensures (T == map[] || !OneSig(T)) && TotalLength(owns0) < rounds ==> done
    ensures T != map[] && OneSig(T) ==> !done
  {
    owns, M, done := owns0, T, false;
    InitialInv(T);
    var round := 0;
    while round < rounds && !done
      invariant round <= rounds
      invariant Lists(owns, M) && NormalNames(M) && Inv(T, M)
      invariant done ==> Stuck(M) && SortedBy(EntryLeq, owns)
      invariant T == map[] || !OneSig(T) ==> done || TotalLength(owns) + round <= TotalLength(owns0)
    {
      done, owns, M := Round(owns, T, M);
      round := round + 1;
    }
    if done { StuckEnds(T, M); }
  }

  lemma {:induction false} NonEmptyStays(T: Table, M: Table)
    requires Inv(T, M) && M != map[]
    ensures T != map[]
  {
    var n :| n in M;
    assert Backed(T, M, n);
  }

  /** The loop ends by itself only without tests or with at least two sigs. */
  lemma {:induction false} StuckEnds(T: Table, M: Table)
    requires Inv(T, M) && Stuck(M)
    ensures T == map[] || !OneSig(T)
  {
    if T != map[] && OneSig(T) {
      var t :| t in T;
      assert Held(T, M, t);
      var n :| Holds(T, M, n, t);
      OneSigAgrees(T, M, Shorten(n), n);
    }
  }

  // ----- the output -----

  /** The names of one sig, in list order. */
  function NamesOf(owns: seq<Entry>, sig: string): seq<string> {
    if owns == [] then []
    else
      var e := owns[|owns| - 1];
      NamesOf(owns[..|owns| - 1], sig) + if e.sig == sig then [e.name] else []
  }

  ghost predicate Grouped(owns: seq<Entry>, sigs: map<string, seq<string>>) {
    && (forall s :: s in sigs <==> NamesOf(owns, s) != [])
    && (forall s :: s in sigs ==> sigs[s] == NamesOf(owns, s))
  }

  lemma {:induction false} GroupedNext(owns: seq<Entry>, e: Entry, sigs: map<string, seq<string>>)
    requires Grouped(owns, sigs)
    ensures Grouped(owns + [e], sigs[e.sig := (if e.sig in sigs then sigs[e.sig] else []) + [e.name]])
  {
    assert (owns + [e])[..|owns|] == owns;
    forall s ensures NamesOf(owns + [e], s) == NamesOf(owns, s) + if s == e.sig then [e.name] else [] {}
  }

  method Group(owns: seq<Entry>) returns (sigs: map<string, seq<string>>)
    ensures Grouped(owns, sigs)
  {
    sigs := map[];
    for i := 0 to |owns|
      invariant Grouped(owns[..i], sigs)
    {
      var e := owns[i];
      GroupedNext(owns[..i], e, sigs);
      assert owns[..i + 1] == owns[..i] + [e];
      var names := if e.sig in sigs then sigs[e.sig] else [];
      sigs := sigs[e.sig := names + [e.name]];
    }
    assert owns[..|owns|] == owns;
  }

  lemma {:induction false} NamesOfMembers(owns: seq<Entry>, sig: string)
    ensures forall n :: n in NamesOf(owns, sig) <==> Entry(n, sig) in owns
  {
    if owns != [] {
      NamesOfMembers(owns[..|owns| - 1], sig);
      assert owns == owns[..|owns| - 1] + [owns[|owns| - 1]];
    }
  }

  lemma {:induction false} NamesOfSorted(owns: seq<Entry>, sig: string)
    requires SortedBy(EntryLeq, owns) && NoDuplicates(owns)
    ensures StrictlySorted(NamesOf(owns, sig))
  {
    if owns != [] {
      var front, e := owns[..|owns| - 1], owns[|owns| - 1];
      NamesOfSorted(front, sig);
      NamesOfMembers(front, sig);
      var names := NamesOf(front, sig);
      if e.sig == sig {
        forall i | 0 <= i < |names| ensures StringLeq(names[i], e.name) && names[i] != e.name {
          assert names[i] in names;
          var j :| 0 <= j < |front| && front[j] == Entry(names[i], sig);
          assert EntryLeq(owns[j], owns[|owns| - 1]) && owns[j] != e;
        }
      }
    }
  }

  /** What the result must be: per sig, the strictly increasing list of its names in the closed form. */
  ghost predicate IsOutput(T: Table, sigs: map<string, seq<string>>) {
    && (forall s :: s in sigs ==> sigs[s] != [] && StrictlySorted(sigs[s]))
    && (forall s, n :: (s in sigs && n in sigs[s]) <==> InReference(T, n, s))
  }

  /** n is listed under sig. */
  ghost predicate ListedUnder(sigs: map<string, seq<string>>, n: string, sig: string) {
    sig in sigs && n in sigs[sig]
  }

  /** n is the longest listed name that begins t, and it is listed under sig. */
  ghost predicate LongestListed(sigs: map<string, seq<string>>, n: string, sig: string, t: string) {
    ListedUnder(sigs, n, sig) && n <= t && forall m, x :: ListedUnder(sigs, m, x) && m <= t ==> |m| <= |n|
  }

  /** Longest-prefix lookup in the result finds an entry for t, and only entries under sig. */
  ghost predicate Answers(sigs: map<string, seq<string>>, t: string, sig: string) {
    && (exists n, x :: LongestListed(sigs, n, x, t))
    && (forall n, x :: LongestListed(sigs, n, x, t) ==> x == sig)
  }

  /** What the result is for: every test is looked up under its own sig. */
  lemma {:induction false} GroupedAnswers(T: Table, M: Table, owns: seq<Entry>, sigs: map<string, seq<string>>,
                                          t: string)
    requires Inv(T, M) && Lists(owns, M) && t in T
    requires Grouped(owns, sigs)
    ensures Answers(sigs, t, T[t])
  {
    forall n, x ensures ListedUnder(sigs, n, x) <==> n in M && M[n] == x {
      NamesOfMembers(owns, x);
      assert Entry(n, x) in owns <==> n in M && M[n] == x;
    }
    LookupKept(T, M, t);
    var n :| Longest(M, n, t);
    assert LongestListed(sigs, n, M[n], t);
    forall m, x | LongestListed(sigs, m, x, t) ensures x == T[t] {
      assert ListedUnder(sigs, n, M[n]) && ListedUnder(sigs, m, x);
      assert Longest(M, m, t);
    }
  }

  lemma {:induction false} GroupedOutput(T: Table, M: Table, owns: seq<Entry>, sigs: map<string, seq<string>>)
    requires Inv(T, M) && Stuck(M) && NormalNames(M) && Lists(owns, M) && SortedBy(EntryLeq, owns)
    requires Grouped(owns, sigs)
    ensures IsOutput(T, sigs)
  {
    forall s | s in sigs ensures StrictlySorted(sigs[s]) { NamesOfSorted(owns, s); }
    forall s, n ensures (s in sigs && n in sigs[s]) <==> InReference(T, n, s) {
      NamesOfMembers(owns, s);
      StuckIsReference(T, M, n, s);
      assert Entry(n, s) in owns <==> n in M && M[n] == s;
    }
  }

  /** The output is determined by the tests and their sigs: the order in which the dictionary is
      walked, and the order in which prefixes are collapsed, do not show. */
  lemma {:induction false} OutputUnique(T: Table, a: map<string, seq<string>>, b: map<string, seq<string>>)
    requires IsOutput(T, a) && IsOutput(T, b)
    ensures a == b
  {
    forall s ensures s in a <==> s in b {
      if s in a { assert a[s][0] in a[s]; }
      if s in b { assert b[s][0] in b[s]; }
    }
    forall s | s in a ensures a[s] == b[s] {
      forall n ensures n in a[s] <==> n in b[s] { assert n in a[s] <==> InReference(T, n, s); }
      StrictlySortedUnique(a[s], b[s]);
    }
  }

  method CollectTests(rows: seq<Row>) returns (owns: seq<Entry>)
    ensures owns == Listed(rows)
  {
    owns := [];
    for i := 0 to |rows|
      invariant owns == Listed(rows[..i])
    {
      assert rows[..i + 1][..i] == rows[..i];
      if Contains(rows[i].test, "k8s.io/") || rows[i].sig == "" {
        continue;
      }
      owns := owns + [Entry(rows[i].test, rows[i].sig)];
    }
    assert rows[..|rows|] == rows;
  }

  /** The whole function, cut off after the given number of rounds. It ends by itself exactly when
      there is no test or there are two tests with different sigs, within as many rounds as the names
      have characters, plus one; then the result is the closed form, and longest-prefix lookup in it gives
      every test its sig. With exactly one sig it never ends, however many rounds it gets. */
  method Run(rows: seq<Row>, rounds: nat) returns (r: Option<map<string, seq<string>>>)
    requires IsTable(rows)
    ensures r.Some? ==> IsOutput(Tests(rows), r.value)
    ensures r.Some? ==> forall t :: t in Tests(rows) ==> Answers(r.value, t, Tests(rows)[t])
    ensures (Tests(rows) == map[] || !OneSig(Tests(rows))) && TotalLength(Listed(rows)) < rounds ==> r.Some?
    ensures Tests(rows) != map[] && OneSig(Tests(rows)) ==> r.None?
  {
    ListedTests(rows);
    var owns := CollectTests(rows);
    ghost var T := Tests(rows);
    var done, final, M := Compress(owns, rounds, T);
    if !done {
      return None;
    }
    var sigs := Group(final);
    GroupedOutput(T, M, final, sigs);
    forall t | t in T ensures Answers(sigs, t, T[t]) { GroupedAnswers(T, M, final, sigs, t); }
    r := Some(sigs);
  }
}
