/** Which dead containers of a pod are deleted: the candidates beyond the newest few. */
module ContainerDeletor {
  import opened Sorting

  datatype ContainerState = Created | Running | Exited | Unknown

  datatype ContainerStatus = ContainerStatus(id: string, name: string, state: ContainerState, createdAt: int)

  /** The containers a filter ID stands for: all of them when it is empty, otherwise those that share the
      name of the container with that ID. */
  datatype Target = AnyName | Named(name: string) | NotFound

  ghost predicate Targets(filter: string, cs: seq<ContainerStatus>, t: Target) {
    if filter == "" then t.AnyName?
    else if t.Named? then
      exists i :: 0 <= i < |cs| && cs[i].id == filter && cs[i].name == t.name
                  && forall j :: 0 <= j < i ==> cs[j].id != filter
    else t.NotFound? && forall c :: c in cs ==> c.id != filter
  }

  predicate Candidate(t: Target, c: ContainerStatus) {
    c.state.Exited? && (t.AnyName? || (t.Named? && c.name == t.name))
  }

  /** What a choice of containers to delete must be: with the kept ones it is exactly the candidates, no
      more than keep are kept and exactly keep when something goes, and the newest are the ones kept. */
  ghost predicate Chosen(filter: string, cs: seq<ContainerStatus>, keep: nat, doomed: seq<ContainerStatus>,
                         t: Target, kept: seq<ContainerStatus>) {
    && Targets(filter, cs, t)
    && (forall c :: multiset(doomed)[c] + multiset(kept)[c] == if Candidate(t, c) then multiset(cs)[c] else 0)
    && |kept| <= keep
    && (doomed != [] ==> |kept| == keep)
    && (forall k, d :: k in kept && d in doomed ==> k.createdAt >= d.createdAt)
    && (forall i, j :: 0 <= i < j < |doomed| ==> doomed[i].createdAt >= doomed[j].createdAt)
  }

  ghost predicate Selected(filter: string, cs: seq<ContainerStatus>, keep: nat, doomed: seq<ContainerStatus>) {
    exists t, kept :: Chosen(filter, cs, keep, doomed, t, kept)
  }

  predicate Newer(a: ContainerStatus, b: ContainerStatus) {
    a.createdAt >= b.createdAt
  }

  method Match(filter: string, cs: seq<ContainerStatus>) returns (t: Target)
    ensures Targets(filter, cs, t)
  {
    if filter == "" {
      return AnyName;
    }
    for i := 0 to |cs|
      invariant forall j :: 0 <= j < i ==> cs[j].id != filter
    {
      if cs[i].id == filter {
        return Named(cs[i].name);
      }
    }
    return NotFound;
  }

  method Collect(t: Target, cs: seq<ContainerStatus>) returns (candidates: seq<ContainerStatus>)
    ensures forall c :: multiset(candidates)[c] == if Candidate(t, c) then multiset(cs)[c] else 0
  {
    candidates := [];
    for i := 0 to |cs|
      invariant forall c :: multiset(candidates)[c] == if Candidate(t, c) then multiset(cs[..i])[c] else 0
    {
      if Candidate(t, cs[i]) {
        candidates := candidates + [cs[i]];
      }
      assert cs[..i + 1] == cs[..i] + [cs[i]];
    }
    assert cs[..|cs|] == cs;
  }

  lemma {:induction false} TailChosen(filter: string, cs: seq<ContainerStatus>, keep: nat, t: Target,
                                      sorted: seq<ContainerStatus>)
    requires Targets(filter, cs, t) && SortedBy(Newer, sorted) && keep <= |sorted|
    requires forall c :: multiset(sorted)[c] == if Candidate(t, c) then multiset(cs)[c] else 0
    ensures Chosen(filter, cs, keep, sorted[keep..], t, sorted[..keep])
  {
    assert sorted == sorted[..keep] + sorted[keep..];
    assert multiset(sorted) == multiset(sorted[..keep]) + multiset(sorted[keep..]);
    forall k, d | k in sorted[..keep] && d in sorted[keep..] ensures k.createdAt >= d.createdAt {
      var i :| 0 <= i < keep && sorted[i] == k;
      var j :| keep <= j < |sorted| && sorted[j] == d;
      assert Newer(sorted[i], sorted[j]);
    }
    forall i, j | 0 <= i < j < |sorted[keep..]| ensures sorted[keep..][i].createdAt >= sorted[keep..][j].createdAt {
      assert Newer(sorted[keep + i], sorted[keep + j]);
    }
  }

  method GetContainersToDeleteInPod(filter: string, cs: seq<ContainerStatus>, keep: nat)
    returns (doomed: seq<ContainerStatus>)
    ensures Selected(filter, cs, keep, doomed)
  {
    var t := Match(filter, cs);
    if t.NotFound? {
      assert Chosen(filter, cs, keep, [], t, []);
      return [];
    }
    var candidates := Collect(t, cs);
    if |candidates| <= keep {
      assert Chosen(filter, cs, keep, [], t, candidates);
      return [];
    }
    assert TotalPreorder(Newer);
    var sorted := Sort(Newer, candidates);
    assert |sorted| == |candidates| by { assert |multiset(sorted)| == |multiset(candidates)|; }
    TailChosen(filter, cs, keep, t, sorted);
    doomed := sorted[keep..];
  }

  // ----- deleting, and deleting again -----

  ghost predicate DistinctIds(cs: seq<ContainerStatus>) {
    forall i, j :: 0 <= i < j < |cs| ==> cs[i].id != cs[j].id
  }

  function Ids(cs: seq<ContainerStatus>): seq<string> {
    seq(|cs|, i requires 0 <= i < |cs| => cs[i].id)
  }

  /** The containers whose ID is not listed. */
  function Without(cs: seq<ContainerStatus>, ids: seq<string>): seq<ContainerStatus> {
    if cs == [] then []
    else (if cs[0].id in ids then [] else [cs[0]]) + Without(cs[1..], ids)
  }

  lemma {:induction false} WithoutCount(cs: seq<ContainerStatus>, ids: seq<string>, c: ContainerStatus)
    ensures multiset(Without(cs, ids))[c] == if c.id in ids then 0 else multiset(cs)[c]
  {
    if cs != [] {
      WithoutCount(cs[1..], ids, c);
      var h, rest := cs[0], Without(cs[1..], ids);
      assert cs == [h] + cs[1..];
      assert multiset(cs)[c] == multiset(cs[1..])[c] + if h == c then 1 else 0;
      assert multiset([h] + rest)[c] == multiset(rest)[c] + if h == c then 1 else 0;
    }
  }

  lemma {:induction false} WithoutCons(h: ContainerStatus, rest: seq<ContainerStatus>, ids: seq<string>)
    ensures Without([h] + rest, ids) == (if h.id in ids then [] else [h]) + Without(rest, ids)
  {
    assert ([h] + rest)[1..] == rest;
  }

  lemma {:induction false} WithoutOneMore(cs: seq<ContainerStatus>, ids: seq<string>, id: string)
    ensures Without(Without(cs, ids), [id]) == Without(cs, ids + [id])
  {
    if cs != [] {
      WithoutOneMore(cs[1..], ids, id);
      var h, rest := cs[0], Without(cs[1..], ids);
      if h.id in ids {
        assert Without(cs, ids) == rest;
        assert Without(cs, ids + [id]) == Without(cs[1..], ids + [id]);
      } else {
        assert Without(cs, ids) == [h] + rest;
        WithoutCons(h, rest, [id]);
      }
    }
  }

  lemma {:induction false} WithoutNone(cs: seq<ContainerStatus>)
    ensures Without(cs, []) == cs
  {
    if cs != [] {
      WithoutNone(cs[1..]);
    }
  }

  lemma {:induction false} UniqueById(cs: seq<ContainerStatus>, c: ContainerStatus, d: ContainerStatus)
    requires DistinctIds(cs) && c in cs && d in cs && c.id == d.id
    ensures c == d
  {
    var i :| 0 <= i < |cs| && cs[i] == c;
    var j :| 0 <= j < |cs| && cs[j] == d;
    assert i == j;
  }

  lemma {:induction false} DoomedById(filter: string, cs: seq<ContainerStatus>, keep: nat, doomed: seq<ContainerStatus>,
                                      t: Target, kept: seq<ContainerStatus>, c: ContainerStatus)
    requires DistinctIds(cs) && Chosen(filter, cs, keep, doomed, t, kept) && c in cs && c.id in Ids(doomed)
    ensures c in doomed
  {
    var i :| 0 <= i < |doomed| && doomed[i].id == c.id;
    assert doomed[i] in multiset(doomed);
    assert multiset(cs)[doomed[i]] > 0;
    assert doomed[i] in multiset(cs);
    UniqueById(cs, c, doomed[i]);
  }

  /** What is left of the candidates after the deletions are the kept ones. */
  lemma {:induction false} LeftCount(filter: string, cs: seq<ContainerStatus>, keep: nat, doomed: seq<ContainerStatus>,
                                     t: Target, kept: seq<ContainerStatus>, c: ContainerStatus)
    requires DistinctIds(cs) && Chosen(filter, cs, keep, doomed, t, kept) && Candidate(t, c)
    ensures multiset(Without(cs, Ids(doomed)))[c] == multiset(kept)[c]
  {
    WithoutCount(cs, Ids(doomed), c);
    assert NoDuplicates(cs);
    DistinctCount(cs, c);
    assert multiset(doomed)[c] + multiset(kept)[c] == multiset(cs)[c];
    if c in cs && c.id in Ids(doomed) {
      DoomedById(filter, cs, keep, doomed, t, kept, c);
    }
    if c in doomed {
      var i :| 0 <= i < |doomed| && doomed[i] == c;
      assert Ids(doomed)[i] == c.id;
    }
    assert c in doomed <==> c in multiset(doomed);
    assert c in cs <==> c in multiset(cs);
  }

  /** The filter stands for the same containers afterwards, unless its own container is gone. */
  lemma {:induction false} TargetKept(filter: string, cs: seq<ContainerStatus>, after: seq<ContainerStatus>, t: Target,
                                      u: Target)
    requires DistinctIds(cs) && Targets(filter, cs, t) && Targets(filter, after, u)
    requires forall c :: c in after ==> c in cs
    ensures u == t || u.NotFound?
  {
    if u.Named? {
      var i :| 0 <= i < |after| && after[i].id == filter && after[i].name == u.name;
      assert after[i] in cs;
      if t.Named? {
        var j :| 0 <= j < |cs| && cs[j].id == filter && cs[j].name == t.name;
        UniqueById(cs, after[i], cs[j]);
      }
    }
  }

  lemma {:induction false} NothingNamed(cs: seq<ContainerStatus>, doomed: seq<ContainerStatus>,
                                        kept: seq<ContainerStatus>)
    requires forall c :: multiset(doomed)[c] + multiset(kept)[c]
                         == if Candidate(NotFound, c) then multiset(cs)[c] else 0
    ensures doomed == []
  {
    forall c ensures multiset(doomed)[c] == 0 {
      assert multiset(doomed)[c] + multiset(kept)[c] == 0;
    }
    assert multiset(doomed) == multiset{};
    assert |multiset(doomed)| == |doomed|;
  }

  /** The candidates left are as many as were kept. */
  lemma {:induction false} LeftSize(filter: string, cs: seq<ContainerStatus>, keep: nat, doomed: seq<ContainerStatus>,
                                    t: Target, kept: seq<ContainerStatus>, left: seq<ContainerStatus>)
    requires DistinctIds(cs) && Chosen(filter, cs, keep, doomed, t, kept)
    requires forall c :: multiset(left)[c] == if Candidate(t, c) then multiset(Without(cs, Ids(doomed)))[c] else 0
    ensures |left| == |kept|
  {
    forall c ensures multiset(left)[c] == multiset(kept)[c] {
      if Candidate(t, c) { LeftCount(filter, cs, keep, doomed, t, kept, c); }
    }
    assert multiset(left) == multiset(kept);
    SameMembers(left, kept);
  }

  /** Once the deletions have taken effect, the same question selects nothing more. */
  lemma {:induction false} RepeatDeletesNothing(filter: string, cs: seq<ContainerStatus>, keep: nat,
                                                doomed: seq<ContainerStatus>, more: seq<ContainerStatus>)
    requires DistinctIds(cs) && Selected(filter, cs, keep, doomed)
    requires Selected(filter, Without(cs, Ids(doomed)), keep, more)
    ensures more == []
  {
    var t, kept :| Chosen(filter, cs, keep, doomed, t, kept);
    var u, keptAgain :| Chosen(filter, Without(cs, Ids(doomed)), keep, more, u, keptAgain);
    var after := Without(cs, Ids(doomed));
    forall c | c in after ensures c in cs {
      WithoutCount(cs, Ids(doomed), c);
      assert c in multiset(after);
      assert c in multiset(cs);
    }
    TargetKept(filter, cs, after, t, u);
    if u.NotFound? {
      NothingNamed(after, more, keptAgain);
    } else {
      LeftSize(filter, cs, keep, doomed, t, kept, more + keptAgain);
    }
  }

  lemma {:induction false} NoneDeadLeft(cs: seq<ContainerStatus>, doomed: seq<ContainerStatus>, c: ContainerStatus)
    requires DistinctIds(cs) && Selected("", cs, 0, doomed)
    ensures c in Without(cs, Ids(doomed)) ==> !c.state.Exited?
  {
    var t, kept :| Chosen("", cs, 0, doomed, t, kept);
    if c.state.Exited? {
      LeftCount("", cs, 0, doomed, t, kept, c);
      assert kept == [];
    }
  }

  // ----- the choice, from the list of containers -----

  /** The container at place i is dead, and the filter asks for it: it is empty, or the first container with that ID
      has the same name. */
  predicate Asked(filter: string, cs: seq<ContainerStatus>, i: nat) {
    && i < |cs| && cs[i].state == Exited
    && (filter == "" || exists j :: 0 <= j < |cs| && cs[j].id == filter && cs[j].name == cs[i].name
                                    && forall k :: 0 <= k < j ==> cs[k].id != filter)
  }

  lemma {:induction false} AskedIsCandidate(filter: string, cs: seq<ContainerStatus>, t: Target, i: nat)
    requires Targets(filter, cs, t) && i < |cs|
    ensures Asked(filter, cs, i) <==> Candidate(t, cs[i])
  {
    if Asked(filter, cs, i) && filter != "" {
      var j :| 0 <= j < |cs| && cs[j].id == filter && cs[j].name == cs[i].name
               && forall k :: 0 <= k < j ==> cs[k].id != filter;
      assert cs[j] in cs;
    }
  }

  /** The places of the candidates among the first n containers. */
  ghost function Places(t: Target, cs: seq<ContainerStatus>, n: nat): set<nat>
    requires n <= |cs|
  {
    set i: nat | i < n && Candidate(t, cs[i])
  }

  lemma {:induction false} PlacesCount(t: Target, cs: seq<ContainerStatus>, n: nat)
    returns (found: seq<ContainerStatus>)
    requires n <= |cs|
    ensures |found| == |Places(t, cs, n)|
    ensures forall c :: multiset(found)[c] == if Candidate(t, c) then multiset(cs[..n])[c] else 0
  {
    if n == 0 {
      found := [];
      assert Places(t, cs, n) == {};
    } else {
      found := PlacesCount(t, cs, n - 1);
      assert cs[..n] == cs[..n - 1] + [cs[n - 1]];
      if Candidate(t, cs[n - 1]) {
        found := found + [cs[n - 1]];
        assert Places(t, cs, n) == Places(t, cs, n - 1) + {n - 1};
      } else {
        assert Places(t, cs, n) == Places(t, cs, n - 1);
      }
    }
  }

  /** As many containers are deleted as the dead ones that are asked for exceed the number to keep. */
  lemma {:induction false} DoomedNumber(filter: string, cs: seq<ContainerStatus>, keep: nat,
                                        doomed: seq<ContainerStatus>)
    requires Selected(filter, cs, keep, doomed)
    ensures var n := |set i: nat | i < |cs| && Asked(filter, cs, i)|; |doomed| == if n > keep then n - keep else 0
  {
    var t, kept :| Chosen(filter, cs, keep, doomed, t, kept);
    var found := PlacesCount(t, cs, |cs|);
    assert cs[..|cs|] == cs;
    forall c ensures multiset(doomed + kept)[c] == multiset(found)[c] {
    }
    assert multiset(doomed + kept) == multiset(found);
    SameMembers(doomed + kept, found);
    forall i: nat | i < |cs| ensures Asked(filter, cs, i) <==> Candidate(t, cs[i]) {
      AskedIsCandidate(filter, cs, t, i);
    }
    assert (set i: nat | i < |cs| && Asked(filter, cs, i)) == Places(t, cs, |cs|);
  }

  /** Only dead containers that are asked for are deleted, and of those that are, one that stays is not older than one
      that goes. */
  lemma {:induction false} DoomedWhich(filter: string, cs: seq<ContainerStatus>, keep: nat,
                                       doomed: seq<ContainerStatus>)
    requires Selected(filter, cs, keep, doomed)
    ensures forall d :: d in doomed ==> exists i: nat :: Asked(filter, cs, i) && cs[i] == d
    ensures forall i: nat, d :: Asked(filter, cs, i) && cs[i] !in doomed && d in doomed ==>
              cs[i].createdAt >= d.createdAt
    ensures forall i, j :: 0 <= i < j < |doomed| ==> doomed[i].createdAt >= doomed[j].createdAt
  {
    var t, kept :| Chosen(filter, cs, keep, doomed, t, kept);
    forall d | d in doomed ensures exists i: nat :: Asked(filter, cs, i) && cs[i] == d {
      assert d in multiset(doomed);
      assert multiset(cs)[d] > 0;
      assert d in multiset(cs);
      var i :| 0 <= i < |cs| && cs[i] == d;
      AskedIsCandidate(filter, cs, t, i);
    }
    forall i: nat, d | Asked(filter, cs, i) && cs[i] !in doomed && d in doomed
      ensures cs[i].createdAt >= d.createdAt
    {
      StaysKept(filter, cs, keep, doomed, t, kept, i);
    }
  }

  lemma {:induction false} StaysKept(filter: string, cs: seq<ContainerStatus>, keep: nat, doomed: seq<ContainerStatus>,
                                     t: Target, kept: seq<ContainerStatus>, i: nat)
    requires Chosen(filter, cs, keep, doomed, t, kept) && Asked(filter, cs, i) && cs[i] !in doomed
    ensures cs[i] in kept
  {
    AskedIsCandidate(filter, cs, t, i);
    assert cs[i] in multiset(cs);
    assert cs[i] !in multiset(doomed);
    assert multiset(doomed)[cs[i]] + multiset(kept)[cs[i]] == multiset(cs)[cs[i]];
    assert cs[i] in multiset(kept);
  }

  lemma {:induction false} WithoutMembers(cs: seq<ContainerStatus>, ids: seq<string>)
    ensures forall c :: c in Without(cs, ids) <==> c in cs && c.id !in ids
  {
    forall c ensures c in Without(cs, ids) <==> c in cs && c.id !in ids {
      WithoutCount(cs, ids, c);
      assert c in Without(cs, ids) <==> c in multiset(Without(cs, ids));
      assert c in cs <==> c in multiset(cs);
    }
  }

  /** Container d is none of the doomed, by its ID. */
  ghost predicate Spared(doomed: seq<ContainerStatus>, d: ContainerStatus) {
    forall i :: 0 <= i < |doomed| ==> doomed[i].id != d.id
  }

  lemma {:induction false} SparedMembers(cs: seq<ContainerStatus>, doomed: seq<ContainerStatus>)
    ensures forall c :: c in Without(cs, Ids(doomed)) <==> c in cs && Spared(doomed, c)
  {
    WithoutMembers(cs, Ids(doomed));
    forall c: ContainerStatus ensures c.id !in Ids(doomed) <==> Spared(doomed, c) {
      assert forall i :: 0 <= i < |doomed| ==> Ids(doomed)[i] == doomed[i].id;
    }
  }

  /** The containers that stay keep their order. */
  lemma {:induction false} WithoutAppend(a: seq<ContainerStatus>, b: seq<ContainerStatus>, ids: seq<string>)
    ensures Without(a + b, ids) == Without(a, ids) + Without(b, ids)
  {
    if a == [] {
      assert a + b == b;
    } else {
      TailAppend(a, b);
      WithoutAppend(a[1..], b, ids);
      AppendAppend(if a[0].id in ids then [] else [a[0]], Without(a[1..], ids), Without(b, ids));
    }
  }

  /** The runtime: the containers it has and the deletions asked of it. */
  class Runtime {
    var containers: seq<ContainerStatus>
    var requests: seq<string>

    method DeleteContainer(id: string)
      modifies this
      ensures containers == Without(old(containers), [id]) && requests == old(requests) + [id]
      ensures forall c :: c in containers <==> c in old(containers) && c.id != id
    {
      WithoutMembers(containers, [id]);
      containers, requests := Without(containers, [id]), requests + [id];
    }
  }

  class PodContainerDeletor {
    const containersToKeep: nat
    const runtime: Runtime

    constructor (runtime: Runtime, containersToKeep: nat)
      ensures this.runtime == runtime && this.containersToKeep == containersToKeep
    {
      this.runtime, this.containersToKeep := runtime, containersToKeep;
    }

    method DeleteContainersInPod(filter: string, podStatus: seq<ContainerStatus>, removeAll: bool)
      returns (ghost doomed: seq<ContainerStatus>)
      modifies runtime
      ensures Selected(if removeAll then "" else filter, podStatus, if removeAll then 0 else containersToKeep, doomed)
      ensures runtime.requests == old(runtime.requests) + Ids(doomed)
      ensures runtime.containers == Without(old(runtime.containers), Ids(doomed))
      ensures |runtime.requests| == old(|runtime.requests|) + |doomed|
      ensures forall i :: 0 <= i < |doomed| ==> runtime.requests[old(|runtime.requests|) + i] == doomed[i].id
      ensures forall c :: c in runtime.containers <==> c in old(runtime.containers) && Spared(doomed, c)
    {
      var keep, id := containersToKeep, filter;
      if removeAll {
        keep, id := 0, "";
      }
      var toDelete := GetContainersToDeleteInPod(id, podStatus, keep);
      doomed := toDelete;
      WithoutNone(runtime.containers);
      ghost var ids := Ids(toDelete);
      for i := 0 to |toDelete|
        invariant runtime.requests == old(runtime.requests) + ids[..i]
        invariant runtime.containers == Without(old(runtime.containers), ids[..i])
      {
        WithoutOneMore(old(runtime.containers), ids[..i], ids[i]);
        assert ids[..i + 1] == ids[..i] + [ids[i]];
        runtime.DeleteContainer(toDelete[i].id);
      }
      assert ids[..|toDelete|] == ids;
      SparedMembers(old(runtime.containers), toDelete);
    }

    /** A second identical call, on the status left by the first, asks for nothing. */
    method DeleteTwice(filter: string, removeAll: bool) returns (ghost doomed: seq<ContainerStatus>)
      requires DistinctIds(runtime.containers)
      modifies runtime
      ensures Selected(if removeAll then "" else filter, old(runtime.containers),
                       if removeAll then 0 else containersToKeep, doomed)
      ensures runtime.requests == old(runtime.requests) + Ids(doomed)
      ensures runtime.containers == Without(old(runtime.containers), Ids(doomed))
      ensures removeAll ==> forall c :: c in runtime.containers ==> !c.state.Exited?
    {
      ghost var before := runtime.containers;
      doomed := DeleteContainersInPod(filter, runtime.containers, removeAll);
      ghost var more := DeleteContainersInPod(filter, runtime.containers, removeAll);
      ghost var keep := if removeAll then 0 else containersToKeep;
      RepeatDeletesNothing(if removeAll then "" else filter, before, keep, doomed, more);
      WithoutNone(Without(before, Ids(doomed)));
      forall c | removeAll && c in runtime.containers ensures !c.state.Exited? {
        NoneDeadLeft(before, doomed, c);
      }
    }
  }
}
