/** Conversion of the runtime's container records into API container statuses: the newest record of a
    container gives its state, the second newest its last termination state. */
module ContainerStatuses {
  import opened Options
  import opened Sorting
  import opened PodPhase

  datatype RuntimeState = Created | Running | Exited | UnknownState

  /** A container as the runtime remembers it; there can be several of one name. */
  datatype Record = Record(name: string, id: string, state: RuntimeState, createdAt: int, startedAt: int,
                           finishedAt: int, exitCode: int, restartCount: int, image: string, imageID: string,
                           reason: string, message: string)

  datatype Container = Container(name: string, image: string)

  /** Why a container could not be started. */
  datatype StartFailure = StartFailure(error: string, message: string)

  const NoState := ContainerState(None, None, None)

  // ----- the pieces -----

  /** A created container counts as exited. */
  function StateOf(r: Record): ContainerState {
    match r.state
    case Running => ContainerState(None, Some(r.startedAt), None)
    case UnknownState => ContainerState(Some(Waiting("", "")), None, None)
    case _ =>
      var t := Termination(r.exitCode, r.reason, r.message, r.startedAt, r.finishedAt, r.id);
      ContainerState(None, None, Some(t))
  }

  function Convert(r: Record): ContainerStatus {
    ContainerStatus(r.name, StateOf(r), NoState, r.restartCount, r.image, r.imageID, r.id)
  }

  /** The last status with the given name. */
  function LastNamed(previous: seq<ContainerStatus>, name: string): Option<ContainerStatus> {
    if previous == [] then None
    else if previous[|previous| - 1].name == name then Some(previous[|previous| - 1])
    else LastNamed(previous[..|previous| - 1], name)
  }

  function DefaultWaiting(hasInitContainers: bool): Waiting {
    Waiting(if hasInitContainers then "PodInitializing" else "ContainerCreating", "")
  }

  /** The status of a container of which the runtime knows nothing. */
  function Base(c: Container, previous: seq<ContainerStatus>, hasInitContainers: bool): ContainerStatus {
    var waiting := ContainerState(Some(DefaultWaiting(hasInitContainers)), None, None);
    var notSeen := ContainerStatus(c.name, waiting, NoState, 0, c.image, "", "");
    match LastNamed(previous, c.name)
    case None => notSeen
    case Some(o) => if o.state.terminated.Some? then o else notSeen.(restartCount := o.restartCount, last := o.last)
  }

  function Named(records: seq<Record>, name: string): seq<Record> {
    if records == [] then []
    else
      var r := records[|records| - 1];
      Named(records[..|records| - 1], name) + if r.name == name then [r] else []
  }

  /** What the records of one container, newest first, say about it. */
  function Observed(base: ContainerStatus, rs: seq<Record>): ContainerStatus {
    if rs == [] then base
    else if |rs| == 1 then Convert(rs[0])
    else Convert(rs[0]).(last := StateOf(rs[1]))
  }

  /** Whether the next sync will start the container, given its newest record. */
  predicate ShouldBeRestarted(policy: RestartPolicy, rs: seq<Record>) {
    || rs == []
    || (rs[0].state != Running
        && (rs[0].state == UnknownState || rs[0].state == Created
            || (policy != Never && !(policy == OnFailure && rs[0].exitCode == 0))))
  }

  /** An init container that succeeded will not be started again. */
  predicate InitSucceeded(isInit: bool, rs: seq<Record>) {
    isInit && rs != [] && rs[0].state == Exited && rs[0].exitCode == 0
  }

  predicate Overlaid(isInit: bool, policy: RestartPolicy, failures: map<string, StartFailure>, rs: seq<Record>,
                     name: string) {
    !InitSucceeded(isInit, rs) && ShouldBeRestarted(policy, rs) && name in failures
  }

  /** A start failure shows as waiting, and a termination before it as the last state. */
  function Overlay(s: ContainerStatus, f: StartFailure): ContainerStatus {
    s.(last := if s.state.terminated.Some? then s.state else s.last,
       state := ContainerState(Some(Waiting(f.error, f.message)), None, None))
  }

  datatype Input = Input(containers: seq<Container>, previous: seq<ContainerStatus>, hasInitContainers: bool,
                         isInit: bool, policy: RestartPolicy, failures: map<string, StartFailure>)

  /** The status of one container, given all records with the newest first. */
  function StatusOf(x: Input, c: Container, records: seq<Record>): ContainerStatus {
    var rs := Named(records, c.name);
    var s := Observed(Base(c, x.previous, x.hasInitContainers), rs);
    if Overlaid(x.isInit, x.policy, x.failures, rs, c.name) then Overlay(s, x.failures[c.name]) else s
  }

  // ----- newest and second newest -----

  predicate NewerFirst(a: Record, b: Record) {
    a.createdAt >= b.createdAt
  }

  lemma {:induction false} NewerFirstPreorder()
    ensures TotalPreorder(NewerFirst)
  {
  }

  lemma {:induction false} NamedMembers(records: seq<Record>, name: string)
    ensures forall r :: r in Named(records, name) <==> r in records && r.name == name
  {
    if records != [] {
      var front := records[..|records| - 1];
      assert records == front + [records[|records| - 1]];
      NamedMembers(front, name);
    }
  }

  lemma {:induction false} NamedSorted(records: seq<Record>, name: string)
    requires SortedBy(NewerFirst, records)
    ensures SortedBy(NewerFirst, Named(records, name))
  {
    if records != [] {
      var front, r := records[..|records| - 1], records[|records| - 1];
      assert records == front + [r] && SortedBy(NewerFirst, front);
      NamedSorted(front, name);
      NamedMembers(front, name);
      NewerThanLast(front, r, Named(front, name));
    }
  }

  lemma {:induction false} NewerThanLast(front: seq<Record>, r: Record, ns: seq<Record>)
    requires SortedBy(NewerFirst, front + [r]) && forall n :: n in ns ==> n in front
    requires SortedBy(NewerFirst, ns)
    ensures SortedBy(NewerFirst, ns + [r])
  {
    forall i | 0 <= i < |ns| ensures NewerFirst(ns[i], r) {
      assert ns[i] in front;
      var j :| 0 <= j < |front| && front[j] == ns[i];
      assert NewerFirst((front + [r])[j], (front + [r])[|front|]);
    }
  }

  lemma {:induction false} NamedMultiset(records: seq<Record>, name: string, r: Record)
    ensures multiset(Named(records, name))[r] == if r.name == name then multiset(records)[r] else 0
  {
    if records != [] {
      var front := records[..|records| - 1];
      assert records == front + [records[|records| - 1]];
      NamedMultiset(front, name, r);
    }
  }

  /** The records of one container, as a multiset, do not depend on the order of the list. */
  ghost predicate RecordsOf(original: seq<Record>, name: string, rs: multiset<Record>) {
    forall r :: rs[r] == if r.name == name then multiset(original)[r] else 0
  }

  /** Once sorted, the first record of a name is a newest one. */
  lemma {:induction false} NewestRecord(original: seq<Record>, records: seq<Record>, name: string)
    requires SortedBy(NewerFirst, records) && multiset(records) == multiset(original)
    ensures var rs := Named(records, name);
            && SortedBy(NewerFirst, rs) && RecordsOf(original, name, multiset(rs))
            && (rs != [] ==> rs[0] in original && rs[0].name == name
                             && forall r :: r in original && r.name == name ==> r.createdAt <= rs[0].createdAt)
  {
    var rs := Named(records, name);
    NamedSorted(records, name);
    NamedMembers(records, name);
    SameMembers(records, original);
    forall r: Record ensures multiset(rs)[r] == if r.name == name then multiset(original)[r] else 0 {
      NamedMultiset(records, name, r);
    }
    if rs != [] {
      assert rs[0] in rs;
      forall r | r in original && r.name == name ensures r.createdAt <= rs[0].createdAt {
        assert r in rs;
        var i :| 0 <= i < |rs| && rs[i] == r;
        assert i == 0 || NewerFirst(rs[0], rs[i]);
      }
    }
  }

  /** Where no start failure overlays it, the state of a container comes from a newest record of its
      name, and its last termination state from a second newest one when there are two or more. */
  lemma {:induction false} NewestGivesState(x: Input, c: Container, original: seq<Record>, records: seq<Record>)
    requires SortedBy(NewerFirst, records) && multiset(records) == multiset(original)
    requires !Overlaid(x.isInit, x.policy, x.failures, Named(records, c.name), c.name)
    ensures var s, rs := StatusOf(x, c, records), Named(records, c.name);
            && RecordsOf(original, c.name, multiset(rs))
            && (rs == [] ==> s == Base(c, x.previous, x.hasInitContainers))
            && (|rs| >= 1 ==> s.state == StateOf(rs[0]) && s.restartCount == rs[0].restartCount
                              && s.containerID == rs[0].id && rs[0] in original
                              && (forall r :: r in original && r.name == c.name ==> r.createdAt <= rs[0].createdAt))
            && (|rs| == 1 ==> s.last == NoState)
            && (|rs| >= 2 ==> s.last == StateOf(rs[1])
                              && (forall r :: r in multiset(rs) - multiset{rs[0]} ==> r.createdAt <= rs[1].createdAt))
  {
    var rs := Named(records, c.name);
    NewestRecord(original, records, c.name);
    if |rs| >= 2 { SecondNewest(rs); }
  }

  lemma {:induction false} SecondNewest(rs: seq<Record>)
    requires |rs| >= 2 && SortedBy(NewerFirst, rs)
    ensures forall r :: r in multiset(rs) - multiset{rs[0]} ==> r.createdAt <= rs[1].createdAt
  {
    assert rs == [rs[0]] + rs[1..];
    assert multiset(rs) - multiset{rs[0]} == multiset(rs[1..]);
    forall r | r in multiset(rs[1..]) ensures r.createdAt <= rs[1].createdAt {
      assert r in rs[1..];
      var i :| 1 <= i < |rs| && rs[i] == r;
    }
  }

  // ----- the status of one container, field by field -----

  lemma {:induction false} NamedAppend(a: seq<Record>, b: seq<Record>, name: string)
    ensures Named(a + b, name) == Named(a, name) + Named(b, name)
  {
    if b == [] {
      assert a + b == a;
    } else {
      var front := b[..|b| - 1];
      assert (a + b)[..|a + b| - 1] == a + front;
      NamedAppend(a, front, name);
    }
  }

  lemma {:induction false} NamedNone(records: seq<Record>, name: string)
    requires forall k :: 0 <= k < |records| ==> records[k].name != name
    ensures Named(records, name) == []
  {
    if records != [] {
      NamedNone(records[..|records| - 1], name);
    }
  }

  /** Record i is the first one of the name. */
  ghost predicate FirstRecord(records: seq<Record>, name: string, i: nat) {
    i < |records| && records[i].name == name && forall k :: 0 <= k < i ==> records[k].name != name
  }

  lemma {:induction false} NamedFrom(records: seq<Record>, name: string, i: nat)
    requires FirstRecord(records, name, i)
    ensures Named(records, name) == [records[i]] + Named(records[i + 1..], name)
  {
    var before, here, after := records[..i], [records[i]], records[i + 1..];
    assert records == before + (here + after);
    NamedNone(before, name);
    NamedAppend(before, here + after, name);
    NamedAppend(here, after, name);
    assert here[..0] == [];
  }

  /** The container whose newest record is n failed to start and is due to be started again. */
  predicate StartFailed(x: Input, n: Record) {
    && n.name in x.failures && n.state != Running
    && (n.state == Exited ==>
          if n.exitCode == 0 then x.policy == Always && !x.isInit else x.policy == Always || x.policy == OnFailure)
  }

  /** The termination that a record of a created or exited container stands for. */
  predicate TerminatedAs(s: ContainerState, n: Record) {
    && s.running == None && s.waiting == None && s.terminated.Some?
    && var t := s.terminated.value;
       && t.exitCode == n.exitCode && t.reason == n.reason && t.message == n.message
       && t.startedAt == n.startedAt && t.finishedAt == n.finishedAt && t.containerID == n.id
  }

  /** The state of a record, by its runtime state. */
  predicate StateShows(s: ContainerState, n: Record) {
    match n.state
    case Created => TerminatedAs(s, n)
    case Exited => TerminatedAs(s, n)
    case Running => s.running == Some(n.startedAt) && s.waiting == None && s.terminated == None
    case UnknownState => s.running == None && s.waiting == Some(Waiting("", "")) && s.terminated == None
  }

  /** A container with records: its fields are those of the first record, which gives its state unless a failed start
      shows instead, and a termination of it then becomes the last state. */
  lemma {:induction false} SeenStatus(x: Input, c: Container, records: seq<Record>, i: nat)
    requires FirstRecord(records, c.name, i)
    ensures var s, n := StatusOf(x, c, records), records[i];
            && s.name == n.name && s.restartCount == n.restartCount && s.image == n.image
            && s.imageID == n.imageID && s.containerID == n.id
            && (if StartFailed(x, n)
                then s.state == ContainerState(Some(Waiting(x.failures[c.name].error, x.failures[c.name].message)),
                                               None, None)
                else StateShows(s.state, n))
            && (StartFailed(x, n) && n.state != UnknownState ==> TerminatedAs(s.last, n))
  {
    NamedFrom(records, c.name, i);
  }

  /** Otherwise the last state is that of the second record of the name. */
  lemma {:induction false} SeenTwice(x: Input, c: Container, records: seq<Record>, i: nat, j: nat)
    requires FirstRecord(records, c.name, i) && FirstRecord(records[i + 1..], c.name, j)
    requires !StartFailed(x, records[i]) || records[i].state == UnknownState
    ensures StateShows(StatusOf(x, c, records).last, records[i + 1 + j])
  {
    NamedFrom(records, c.name, i);
    NamedFrom(records[i + 1..], c.name, j);
  }

  /** If there is no second record, the last state is empty. */
  lemma {:induction false} SeenOnce(x: Input, c: Container, records: seq<Record>, i: nat)
    requires FirstRecord(records, c.name, i) && forall k :: i < k < |records| ==> records[k].name != c.name
    requires !StartFailed(x, records[i]) || records[i].state == UnknownState
    ensures StatusOf(x, c, records).last == ContainerState(None, None, None)
  {
    NamedFrom(records, c.name, i);
    NamedNone(records[i + 1..], c.name);
  }

  /** Status k is the last one of the name. */
  ghost predicate LastStatus(previous: seq<ContainerStatus>, name: string, k: nat) {
    && k < |previous| && previous[k].name == name
    && forall j :: k < j < |previous| ==> previous[j].name != name
  }

  lemma {:induction false} LastNamedIs(previous: seq<ContainerStatus>, name: string, k: nat)
    ensures LastStatus(previous, name, k) ==> LastNamed(previous, name) == Some(previous[k])
    ensures (forall j :: 0 <= j < |previous| ==> previous[j].name != name) ==> LastNamed(previous, name) == None
  {
    if previous != [] && previous[|previous| - 1].name != name {
      LastNamedIs(previous[..|previous| - 1], name, k);
    }
  }

  /** A container without records: a terminated status of before is kept, and otherwise it waits for its first start,
      or for its init containers, with the restart count and last state of before. A failed start shows over that. */
  lemma {:induction false} UnseenStatus(x: Input, c: Container, records: seq<Record>, k: nat)
    requires forall i :: 0 <= i < |records| ==> records[i].name != c.name
    ensures c.name in x.failures ==>
              var s, f := StatusOf(x, c, records), x.failures[c.name];
              && s.state == ContainerState(Some(Waiting(f.error, f.message)), None, None)
              && (LastStatus(x.previous, c.name, k) ==>
                    var o := x.previous[k];
                    && s.last == (if o.state.terminated.Some? then o.state else o.last)
                    && s.restartCount == o.restartCount)
    ensures c.name !in x.failures && LastStatus(x.previous, c.name, k) && x.previous[k].state.terminated.Some? ==>
              StatusOf(x, c, records) == x.previous[k]
    ensures c.name !in x.failures && LastStatus(x.previous, c.name, k) && x.previous[k].state.terminated.None? ==>
              StatusOf(x, c, records) == FirstStart(x, c, x.previous[k].restartCount, x.previous[k].last)
    ensures c.name !in x.failures && (forall j :: 0 <= j < |x.previous| ==> x.previous[j].name != c.name) ==>
              StatusOf(x, c, records) == FirstStart(x, c, 0, ContainerState(None, None, None))
  {
    NamedNone(records, c.name);
    LastNamedIs(x.previous, c.name, k);
  }

  function FirstStart(x: Input, c: Container, restarts: int, last: ContainerState): ContainerStatus {
    var reason := if x.hasInitContainers then "PodInitializing" else "ContainerCreating";
    ContainerStatus(c.name, ContainerState(Some(Waiting(reason, "")), None, None), last, restarts, c.image, "", "")
  }

  // ----- the conversion -----

  /** The pod status as the kubelet holds it; converting reorders its records in place. */
  class PodStatus {
    var records: seq<Record>

    constructor (records: seq<Record>)
      ensures this.records == records
    {
      this.records := records;
    }

    method FindByName(name: string) returns (r: Option<Record>)
      ensures r == if Named(records, name) == [] then None else Some(Named(records, name)[0])
    {
      for i := 0 to |records|
        invariant Named(records[..i], name) == []
      {
        assert records[..i + 1][..i] == records[..i];
        if records[i].name == name {
          NamedPrefix(records, name, i + 1);
          return Some(records[i]);
        }
      }
      assert records[..|records|] == records;
      r := None;
    }
  }

  lemma {:induction false} NamedPrefix(records: seq<Record>, name: string, k: nat)
    requires k <= |records| && Named(records[..k], name) != []
    ensures Named(records, name) != [] && Named(records, name)[0] == Named(records[..k], name)[0]
  {
    if k == |records| {
      assert records[..k] == records;
    } else {
      var front := records[..|records| - 1];
      assert front[..k] == records[..k];
      NamedPrefix(front, name, k);
    }
  }

  ghost predicate DistinctNames(cs: seq<Container>) {
    forall i, j :: 0 <= i < j < |cs| ==> cs[i].name != cs[j].name
  }

  ghost function Names(cs: seq<Container>): set<string> {
    set c | c in cs :: c.name
  }

  method PreviousByName(previous: seq<ContainerStatus>) returns (m: map<string, ContainerStatus>)
    ensures forall n :: LastNamed(previous, n) == if n in m then Some(m[n]) else None
  {
    m := map[];
    for i := 0 to |previous|
      invariant forall n :: LastNamed(previous[..i], n) == if n in m then Some(m[n]) else None
    {
      assert previous[..i + 1][..i] == previous[..i];
      m := m[previous[i].name := previous[i]];
    }
    assert previous[..|previous|] == previous;
  }

  lemma {:induction false} NamesNext(cs: seq<Container>, i: nat)
    requires i < |cs|
    ensures Names(cs[..i + 1]) == Names(cs[..i]) + {cs[i].name}
    ensures DistinctNames(cs) ==> cs[i].name !in Names(cs[..i])
  {
    assert cs[..i + 1] == cs[..i] + [cs[i]];
    assert forall c :: c in cs[..i] ==> exists j :: 0 <= j < i && cs[j] == c;
  }

  method BaseStatus(c: Container, oldStatuses: map<string, ContainerStatus>, x: Input) returns (status: ContainerStatus)
    requires LastNamed(x.previous, c.name) == if c.name in oldStatuses then Some(oldStatuses[c.name]) else None
    ensures status == Base(c, x.previous, x.hasInitContainers)
  {
    var waiting := ContainerState(Some(DefaultWaiting(x.hasInitContainers)), None, None);
    status := ContainerStatus(c.name, waiting, NoState, 0, c.image, "", "");
    if c.name in oldStatuses {
      var o := oldStatuses[c.name];
      if o.state.terminated.Some? {
        status := o;
      } else {
        status := status.(restartCount := o.restartCount, last := o.last);
      }
    }
  }

  /** The map has the names of the containers and gives each one the status that f gives it. */
  ghost predicate Gives(cs: seq<Container>, f: Container -> ContainerStatus, statuses: map<string, ContainerStatus>) {
    statuses.Keys == Names(cs) && forall c :: c in cs ==> statuses[c.name] == f(c)
  }

  lemma {:induction false} GivesNext(cs: seq<Container>, i: nat, f: Container -> ContainerStatus,
                                     statuses: map<string, ContainerStatus>)
    requires i < |cs| && DistinctNames(cs) && Gives(cs[..i], f, statuses)
    ensures Gives(cs[..i + 1], f, statuses[cs[i].name := f(cs[i])])
  {
    NamesNext(cs, i);
    assert cs[..i + 1] == cs[..i] + [cs[i]];
    forall c | c in cs[..i] ensures c.name != cs[i].name { assert c.name in Names(cs[..i]); }
  }

  method BaseStatuses(x: Input) returns (statuses: map<string, ContainerStatus>)
    requires DistinctNames(x.containers)
    ensures Gives(x.containers, c => Base(c, x.previous, x.hasInitContainers), statuses)
  {
    var oldStatuses := PreviousByName(x.previous);
    statuses := map[];
    ghost var f := (c: Container) => Base(c, x.previous, x.hasInitContainers);
    for i := 0 to |x.containers|
      invariant Gives(x.containers[..i], f, statuses)
    {
      var status := BaseStatus(x.containers[i], oldStatuses, x);
      GivesNext(x.containers, i, f, statuses);
      statuses := statuses[x.containers[i].name := status];
    }
    assert x.containers[..|x.containers|] == x.containers;
  }

  lemma {:induction false} NamedNext(records: seq<Record>, i: nat, n: string)
    requires i < |records|
    ensures Named(records[..i + 1], n) == Named(records[..i], n) + if records[i].name == n then [records[i]] else []
  {
    assert records[..i + 1][..i] == records[..i];
  }

  lemma {:induction false} ObservedNext(b: ContainerStatus, rs: seq<Record>, r: Record)
    ensures Observed(b, rs + [r]) == if rs == [] then Convert(r)
                                     else if |rs| == 1 then Observed(b, rs).(last := StateOf(r))
                                     else Observed(b, rs)
  {
  }

  function Capped(n: nat): nat {
    if n >= 2 then 2 else n
  }

  /** A name that was not seen counts 0. */
  function Seen(m: map<string, nat>, n: string): nat {
    if n in m then m[n] else 0
  }

  /** After the records rs of one name: the status shows them, and they were counted up to two. */
  ghost predicate ShowsOne(b: ContainerStatus, rs: seq<Record>, status: ContainerStatus, seen: nat) {
    status == Observed(b, rs) && seen == Capped(|rs|)
  }

  ghost predicate Shows(base: map<string, ContainerStatus>, records: seq<Record>,
                        statuses: map<string, ContainerStatus>, seen: map<string, nat>) {
    && statuses.Keys == base.Keys
    && (forall n :: n in base ==> ShowsOne(base[n], Named(records, n), statuses[n], Seen(seen, n)))
  }

  lemma {:induction false} ShowsOneNext(b: ContainerStatus, rs: seq<Record>, r: Record, status: ContainerStatus,
                                        seen: nat)
    requires ShowsOne(b, rs, status, seen)
    ensures seen >= 2 ==> ShowsOne(b, rs + [r], status, seen)
    ensures seen == 0 ==> ShowsOne(b, rs + [r], Convert(r), 1)
    ensures seen == 1 ==> ShowsOne(b, rs + [r], status.(last := StateOf(r)), 2)
  {
    ObservedNext(b, rs, r);
  }

  /** One more record changes what is shown for its own name only. */
  lemma {:induction false} ShowsNext(base: map<string, ContainerStatus>, records: seq<Record>, i: nat,
                                     statuses: map<string, ContainerStatus>, seen: map<string, nat>,
                                     statuses': map<string, ContainerStatus>, seen': map<string, nat>)
    requires i < |records| && Shows(base, records[..i], statuses, seen) && statuses'.Keys == base.Keys
    requires forall n :: n in base && n != records[i].name ==>
               statuses'[n] == statuses[n] && Seen(seen', n) == Seen(seen, n)
    requires var n := records[i].name;
             n in base ==> ShowsOne(base[n], Named(records[..i], n) + [records[i]], statuses'[n], Seen(seen', n))
    ensures Shows(base, records[..i + 1], statuses', seen')
  {
    forall n | n in base ensures ShowsOne(base[n], Named(records[..i + 1], n), statuses'[n], Seen(seen', n)) {
      NamedNext(records, i, n);
      assert ShowsOne(base[n], Named(records[..i], n), statuses[n], Seen(seen, n));
      if n != records[i].name { assert Named(records[..i + 1], n) == Named(records[..i], n); }
    }
  }

  /** Walks the records newest first: the first of a name replaces the status, the second gives its last
      termination state, later ones are ignored, and so are containers that are not declared. */
  method ObserveRecords(base: map<string, ContainerStatus>, records: seq<Record>)
    returns (statuses: map<string, ContainerStatus>)
    ensures statuses.Keys == base.Keys
    ensures forall n :: n in base ==> statuses[n] == Observed(base[n], Named(records, n))
  {
    statuses := base;
    var containerSeen: map<string, nat> := map[];
    for i := 0 to |records|
      invariant Shows(base, records[..i], statuses, containerSeen)
    {
      var r := records[i];
      ghost var statuses0, seen0 := statuses, containerSeen;
      if r.name in statuses {
        ShowsOneNext(base[r.name], Named(records[..i], r.name), r, statuses[r.name], Seen(containerSeen, r.name));
        if Seen(containerSeen, r.name) < 2 {
          var status := Convert(r);
          if Seen(containerSeen, r.name) == 0 {
            statuses := statuses[r.name := status];
          } else {
            statuses := statuses[r.name := statuses[r.name].(last := status.state)];
          }
          containerSeen := containerSeen[r.name := Seen(containerSeen, r.name) + 1];
        }
      }
      ShowsNext(base, records, i, statuses0, seen0, statuses, containerSeen);
    }
    assert records[..|records|] == records;
    forall n | n in base ensures statuses[n] == Observed(base[n], Named(records, n)) {
      assert ShowsOne(base[n], Named(records, n), statuses[n], Seen(containerSeen, n));
    }
  }

  function ObservedOf(x: Input, c: Container, records: seq<Record>): ContainerStatus {
    Observed(Base(c, x.previous, x.hasInitContainers), Named(records, c.name))
  }

  ghost predicate GivesObserved(x: Input, records: seq<Record>, m: map<string, ContainerStatus>) {
    Gives(x.containers, c => ObservedOf(x, c, records), m)
  }

  ghost predicate GivesStatus(x: Input, records: seq<Record>, m: map<string, ContainerStatus>) {
    Gives(x.containers, c => StatusOf(x, c, records), m)
  }

  /** One container, its newest record and its status so far. */
  method OverlayOne(x: Input, c: Container, s: Option<Record>, status: ContainerStatus) returns (r: ContainerStatus)
    ensures r == if Overlaid(x.isInit, x.policy, x.failures, if s.Some? then [s.value] else [], c.name)
                 then Overlay(status, x.failures[c.name]) else status
  {
    if x.isInit {
      if s.Some? && s.value.state == Exited && s.value.exitCode == 0 {
        return status;
      }
    }
    var restart := RestartOf(x.policy, s);
    if !restart || c.name !in x.failures {
      return status;
    }
    r := status;
    if status.state.terminated.Some? {
      r := r.(last := status.state);
    }
    var reason := x.failures[c.name];
    r := r.(state := ContainerState(Some(Waiting(reason.error, reason.message)), None, None));
  }

  /** Only the newest record matters for the overlay. */
  lemma {:induction false} OverlaidByFirst(x: Input, c: Container, records: seq<Record>, s: Option<Record>)
    requires s == if Named(records, c.name) == [] then None else Some(Named(records, c.name)[0])
    ensures StatusOf(x, c, records)
         == if Overlaid(x.isInit, x.policy, x.failures, if s.Some? then [s.value] else [], c.name)
            then Overlay(ObservedOf(x, c, records), x.failures[c.name]) else ObservedOf(x, c, records)
  {
  }

  /** The first i containers have their final status, the others what was observed. */
  ghost predicate PartlyOverlaid(x: Input, records: seq<Record>, m: map<string, ContainerStatus>, i: nat) {
    && m.Keys == Names(x.containers)
    && (forall j :: 0 <= j < |x.containers| ==> x.containers[j].name in m)
    && (forall j :: 0 <= j < i && j < |x.containers| ==>
          m[x.containers[j].name] == StatusOf(x, x.containers[j], records))
    && (forall j :: i <= j < |x.containers| ==> m[x.containers[j].name] == ObservedOf(x, x.containers[j], records))
  }

  lemma {:induction false} PartlyNext(x: Input, records: seq<Record>, m: map<string, ContainerStatus>, i: nat,
                                      s: ContainerStatus)
    requires DistinctNames(x.containers) && i < |x.containers| && PartlyOverlaid(x, records, m, i)
    requires s == StatusOf(x, x.containers[i], records)
    ensures PartlyOverlaid(x, records, m[x.containers[i].name := s], i + 1)
  {
  }

  lemma {:induction false} PartlyFirst(x: Input, records: seq<Record>, m: map<string, ContainerStatus>)
    requires GivesObserved(x, records, m)
    ensures PartlyOverlaid(x, records, m, 0)
  {
    forall j | 0 <= j < |x.containers| ensures x.containers[j].name in m { assert x.containers[j] in x.containers; }
  }

  lemma {:induction false} PartlyLast(x: Input, records: seq<Record>, m: map<string, ContainerStatus>)
    requires PartlyOverlaid(x, records, m, |x.containers|)
    ensures GivesStatus(x, records, m)
  {
    forall c | c in x.containers ensures m[c.name] == StatusOf(x, c, records) {
      var j :| 0 <= j < |x.containers| && x.containers[j] == c;
    }
  }

  /** Containers that failed to start show as waiting. */
  method OverlayFailures(x: Input, podStatus: PodStatus, observed: map<string, ContainerStatus>)
    returns (statuses: map<string, ContainerStatus>)
    requires DistinctNames(x.containers) && GivesObserved(x, podStatus.records, observed)
    ensures GivesStatus(x, podStatus.records, statuses)
  {
    statuses := observed;
    ghost var records := podStatus.records;
    PartlyFirst(x, records, statuses);
    for i := 0 to |x.containers|
      invariant PartlyOverlaid(x, records, statuses, i)
    {
      var c := x.containers[i];
      var s := podStatus.FindByName(c.name);
      var status := OverlayOne(x, c, s, statuses[c.name]);
      OverlaidByFirst(x, c, records, s);
      PartlyNext(x, records, statuses, i, status);
      statuses := statuses[c.name := status];
    }
    PartlyLast(x, records, statuses);
  }

  /** ShouldContainerBeRestarted on the newest record of a container. */
  method RestartOf(policy: RestartPolicy, s: Option<Record>) returns (restart: bool)
    ensures restart == ShouldBeRestarted(policy, if s.Some? then [s.value] else [])
  {
    if s.None? {
      return true;
    }
    if s.value.state == Running {
      return false;
    }
    if s.value.state == UnknownState || s.value.state == Created {
      return true;
    }
    if policy == Never {
      return false;
    }
    restart := !(policy == OnFailure && s.value.exitCode == 0);
  }

  /** Each status of the map once, in an arbitrary order. */
  method Collect(statuses: map<string, ContainerStatus>) returns (list: seq<ContainerStatus>)
    requires forall n :: n in statuses ==> statuses[n].name == n
    ensures NoDuplicates(list)
    ensures forall s :: s in list <==> s.name in statuses && statuses[s.name] == s
  {
    list := [];
    var keys := statuses.Keys;
    while keys != {}
      invariant keys <= statuses.Keys && NoDuplicates(list)
      invariant forall s :: s in list <==> s.name in statuses && s.name !in keys && statuses[s.name] == s
      decreases keys
    {
      var k :| k in keys;
      list := list + [statuses[k]];
      keys := keys - {k};
    }
  }

  predicate NameLeq(a: ContainerStatus, b: ContainerStatus) {
    StringLeq(a.name, b.name)
  }

  lemma {:induction false} NameLeqPreorder()
    ensures TotalPreorder(NameLeq)
  {
    StringLeqPreorder();
    forall x, y ensures NameLeq(x, y) || NameLeq(y, x) { StringLeqTotal(x.name, y.name); }
    forall x, y, z | NameLeq(x, y) && NameLeq(y, z) ensures NameLeq(x, z) {
      StringLeqTransitive(x.name, y.name, z.name);
    }
  }

  /** How many statuses from place i on have the name. */
  function Count(s: seq<ContainerStatus>, i: nat, name: string): nat
    decreases |s| - i
  {
    if i >= |s| then 0 else (if s[i].name == name then 1 else 0) + Count(s, i + 1, name)
  }

  lemma {:induction false} CountPositive(s: seq<ContainerStatus>, i: nat, name: string)
    ensures Count(s, i, name) > 0 <==> exists k :: i <= k < |s| && s[k].name == name
    decreases |s| - i
  {
    if i < |s| {
      CountPositive(s, i + 1, name);
    }
  }

  /** One status is exchanged for another. */
  lemma {:induction false} CountReplaced(s: seq<ContainerStatus>, t: seq<ContainerStatus>, i: nat, j: nat, name: string)
    requires |s| == |t| && forall k :: i <= k < |s| && k != j ==> t[k] == s[k]
    ensures Count(t, i, name) - Count(s, i, name)
         == if i <= j < |s| then (if t[j].name == name then 1 else 0) - (if s[j].name == name then 1 else 0) else 0
    decreases |s| - i
  {
    if i < |s| {
      CountReplaced(s, t, i + 1, j, name);
    }
  }

  /** The names of the spec for which there is a status, each status used once, in the order of the spec. */
  function Placed(names: seq<string>, s: seq<ContainerStatus>): seq<string> {
    if names == [] then []
    else
      var p, n := Placed(names[..|names| - 1], s), names[|names| - 1];
      if multiset(p)[n] < Count(s, 0, n) then p + [n] else p
  }

  lemma {:induction false} PlacedAll(names: seq<string>, s: seq<ContainerStatus>)
    requires NoDuplicates(names) && forall i :: 0 <= i < |names| ==> Count(s, 0, names[i]) > 0
    ensures Placed(names, s) == names
  {
    if names != [] {
      var front, n := names[..|names| - 1], names[|names| - 1];
      assert forall i :: 0 <= i < |front| ==> front[i] == names[i];
      PlacedAll(front, s);
      assert n !in front;
      assert multiset(front)[n] == 0;
    }
  }

  ghost predicate StartsWithNames(s: seq<ContainerStatus>, names: seq<string>) {
    |names| <= |s| && forall i :: 0 <= i < |names| ==> s[i].name == names[i]
  }

  /** The first status of the name from the given place on, or the end when there is none. */
  method FindFrom(a: array<ContainerStatus>, from: nat, name: string) returns (j: nat)
    requires from <= a.Length
    ensures from <= j <= a.Length
    ensures j < a.Length ==> a[j].name == name
    ensures j < a.Length <==> Count(a[..], from, name) > 0
  {
    j := from;
    while j < a.Length && a[j].name != name
      invariant from <= j <= a.Length
      invariant forall k :: from <= k < j ==> a[k].name != name
    {
      j := j + 1;
    }
    CountPositive(a[..], from, name);
    assert j < a.Length ==> a[..][j].name == name;
  }

  function Swapped(s: seq<ContainerStatus>, i: nat, j: nat): seq<ContainerStatus>
    requires i < |s| && j < |s|
  {
    s[i := s[j]][j := s[i]]
  }

  /** The statuses s, rearranged to t, begin with the given names, and the others are behind. */
  ghost predicate BroughtToFront(s: seq<ContainerStatus>, t: seq<ContainerStatus>, names: seq<string>) {
    && multiset(t) == multiset(s) && StartsWithNames(t, names)
    && forall n :: Count(t, |names|, n) + multiset(names)[n] == Count(s, 0, n)
  }

  lemma {:induction false} SwapBrings(s: seq<ContainerStatus>, t: seq<ContainerStatus>, names: seq<string>, j: nat)
    requires BroughtToFront(s, t, names) && |names| <= j < |t|
    ensures BroughtToFront(s, Swapped(t, |names|, j), names + [t[j].name])
  {
    var t', names' := Swapped(t, |names|, j), names + [t[j].name];
    forall n ensures Count(t', |names'|, n) + multiset(names')[n] == Count(s, 0, n) {
      SwapCounts(t, |names|, j, n);
      assert Count(t, |names|, n) + multiset(names)[n] == Count(s, 0, n);
    }
  }

  lemma {:induction false} SwapCounts(t: seq<ContainerStatus>, i: nat, j: nat, n: string)
    requires i <= j < |t|
    ensures Count(Swapped(t, i, j), i + 1, n) == Count(t, i, n) - if t[j].name == n then 1 else 0
  {
    CountReplaced(t, Swapped(t, i, j), i + 1, j, n);
  }

  lemma {:induction false} PlacedNext(names: seq<string>, i: nat, s: seq<ContainerStatus>, t: seq<ContainerStatus>)
    requires i < |names| && BroughtToFront(s, t, Placed(names[..i], s))
    ensures var p := Placed(names[..i], s);
            Placed(names[..i + 1], s) == if Count(t, |p|, names[i]) > 0 then p + [names[i]] else p
  {
    assert names[..i + 1][..i] == names[..i] && names[..i + 1][i] == names[i];
  }

  /** Brings the statuses of the named containers to the front, in the order of the names, by swapping in
      place. Names without a status are passed over, and statuses without a name end up behind. */
  method SortInitContainerStatuses(names: seq<string>, a: array<ContainerStatus>)
    modifies a
    ensures multiset(a[..]) == old(multiset(a[..]))
    ensures StartsWithNames(a[..], Placed(names, old(a[..])))
  {
    var current := 0;
    ghost var s, front := a[..], [];
    for i := 0 to |names|
      invariant current == |front|
      invariant front == Placed(names[..i], s) && BroughtToFront(s, a[..], front)
    {
      PlacedNext(names, i, s, a[..]);
      var j := FindFrom(a, current, names[i]);
      if j < a.Length {
        SwapBrings(s, a[..], front, j);
        ghost var t := a[..];
        a[current], a[j] := a[j], a[current];
        assert a[..] == Swapped(t, current, j);
        front := front + [names[i]];
        current := current + 1;
      }
    }
    assert names[..|names|] == names;
  }

  /** Exactly one status per declared container, each as StatusOf says; init containers in the order of
      the spec, others by name. The records are left with the newest first. */
  method ConvertToAPIContainerStatuses(x: Input, podStatus: PodStatus) returns (result: seq<ContainerStatus>)
    requires DistinctNames(x.containers)
    modifies podStatus
    ensures SortedBy(NewerFirst, podStatus.records) && multiset(podStatus.records) == old(multiset(podStatus.records))
    ensures |result| == |x.containers|
    ensures forall s :: s in result <==> exists c :: c in x.containers && s == StatusOf(x, c, podStatus.records)
    ensures x.isInit ==> forall i :: 0 <= i < |result| ==> result[i] == StatusOf(x, x.containers[i], podStatus.records)
    ensures !x.isInit ==> SortedBy(NameLeq, result) && NamesDiffer(result)
  {
    var base := BaseStatuses(x);
    NewerFirstPreorder();
    podStatus.records := Sort(NewerFirst, podStatus.records);
    var observed := ObserveRecords(base, podStatus.records);
    ObservedGiven(x, podStatus.records, base, observed);
    var statuses := OverlayFailures(x, podStatus, observed);
    StatusNames(x, podStatus.records, statuses);
    var list := Collect(statuses);
    result := Order(x, podStatus.records, statuses, list);
    ExpectedMembers(x, podStatus.records);
    SameMembers(result, Expected(x, podStatus.records));
  }

  lemma {:induction false} ObservedGiven(x: Input, records: seq<Record>, base: map<string, ContainerStatus>,
                                         observed: map<string, ContainerStatus>)
    requires Gives(x.containers, c => Base(c, x.previous, x.hasInitContainers), base)
    requires observed.Keys == base.Keys
    requires forall n :: n in base ==> observed[n] == Observed(base[n], Named(records, n))
    ensures GivesObserved(x, records, observed)
  {
  }

  lemma {:induction false} LastNamedName(previous: seq<ContainerStatus>, n: string)
    ensures LastNamed(previous, n).Some? ==> LastNamed(previous, n).value.name == n
  {
    if previous != [] { LastNamedName(previous[..|previous| - 1], n); }
  }

  lemma {:induction false} StatusName(x: Input, c: Container, records: seq<Record>)
    ensures StatusOf(x, c, records).name == c.name
  {
    LastNamedName(x.previous, c.name);
    var rs := Named(records, c.name);
    if rs != [] {
      NamedMultiset(records, c.name, rs[0]);
      assert rs[0] in multiset(rs);
    }
  }

  lemma {:induction false} StatusNames(x: Input, records: seq<Record>, statuses: map<string, ContainerStatus>)
    requires GivesStatus(x, records, statuses)
    ensures forall n :: n in statuses ==> statuses[n].name == n
  {
    forall n | n in statuses ensures statuses[n].name == n {
      var c :| c in x.containers && c.name == n;
      StatusName(x, c, records);
    }
  }

  /** The statuses of the containers in their declared order. */
  ghost function Expected(x: Input, records: seq<Record>): seq<ContainerStatus> {
    seq(|x.containers|, i requires 0 <= i < |x.containers| => StatusOf(x, x.containers[i], records))
  }

  lemma {:induction false} ExpectedMembers(x: Input, records: seq<Record>)
    requires DistinctNames(x.containers)
    ensures NoDuplicates(Expected(x, records))
    ensures forall s :: s in Expected(x, records) <==> exists c :: c in x.containers && s == StatusOf(x, c, records)
  {
    var e := Expected(x, records);
    forall i, j | 0 <= i < j < |e| ensures e[i] != e[j] {
      StatusName(x, x.containers[i], records);
      StatusName(x, x.containers[j], records);
    }
    forall s ensures s in e <==> exists c :: c in x.containers && s == StatusOf(x, c, records) {
      if s in e {
        var i :| 0 <= i < |e| && e[i] == s;
        assert x.containers[i] in x.containers;
      }
      if c :| c in x.containers && s == StatusOf(x, c, records) {
        var i :| 0 <= i < |x.containers| && x.containers[i] == c;
        assert e[i] == s;
      }
    }
  }

  lemma {:induction false} ListedStatuses(x: Input, records: seq<Record>, statuses: map<string, ContainerStatus>,
                                          list: seq<ContainerStatus>)
    requires DistinctNames(x.containers) && GivesStatus(x, records, statuses) && NoDuplicates(list)
    requires forall s :: s in list <==> s.name in statuses && statuses[s.name] == s
    ensures |list| == |x.containers| && multiset(list) == multiset(Expected(x, records))
  {
    ExpectedMembers(x, records);
    forall s ensures s in list <==> s in Expected(x, records) {
      if s in list {
        var c :| c in x.containers && c.name == s.name;
        assert s == StatusOf(x, c, records);
      }
      if s in Expected(x, records) {
        var c :| c in x.containers && s == StatusOf(x, c, records);
        StatusName(x, c, records);
        assert c.name in Names(x.containers);
      }
    }
    SameDistinct(list, Expected(x, records));
  }

  ghost predicate NamesDiffer(s: seq<ContainerStatus>) {
    forall i, j :: 0 <= i < j < |s| ==> s[i].name != s[j].name
  }

  lemma {:induction false} ExpectedNames(x: Input, records: seq<Record>)
    ensures forall i :: 0 <= i < |x.containers| ==> Expected(x, records)[i].name == x.containers[i].name
    ensures DistinctNames(x.containers) ==> NamesDiffer(Expected(x, records))
  {
    forall i | 0 <= i < |x.containers| ensures Expected(x, records)[i].name == x.containers[i].name {
      StatusName(x, x.containers[i], records);
    }
  }

  /** A permutation with the same name in every place changes nothing. */
  lemma {:induction false} InOrder(e: seq<ContainerStatus>, result: seq<ContainerStatus>)
    requires NamesDiffer(e) && multiset(result) == multiset(e) && |result| == |e|
    requires forall i :: 0 <= i < |e| ==> result[i].name == e[i].name
    ensures result == e
  {
    SameMembers(result, e);
    forall i | 0 <= i < |result| ensures result[i] == e[i] {
      assert result[i] in e;
      var j :| 0 <= j < |e| && e[j] == result[i];
      assert e[j].name == e[i].name;
    }
  }

  lemma {:induction false} DistinctByName(e: seq<ContainerStatus>, result: seq<ContainerStatus>)
    requires NamesDiffer(e) && multiset(result) == multiset(e) && NoDuplicates(result)
    ensures NamesDiffer(result)
  {
    SameMembers(result, e);
    forall i, j | 0 <= i < j < |result| ensures result[i].name != result[j].name {
      assert result[i] in e && result[j] in e;
      var p :| 0 <= p < |e| && e[p] == result[i];
      var q :| 0 <= q < |e| && e[q] == result[j];
      assert p != q;
    }
  }

  /** Every name of the spec has its status in the list. */
  lemma {:induction false} AllHaveStatus(e: seq<ContainerStatus>, list: seq<ContainerStatus>, names: seq<string>)
    requires multiset(list) == multiset(e) && |names| == |e| && StartsWithNames(e, names)
    ensures forall i :: 0 <= i < |names| ==> Count(list, 0, names[i]) > 0
  {
    SameMembers(list, e);
    forall i | 0 <= i < |names| ensures Count(list, 0, names[i]) > 0 {
      assert e[i] in list;
      var k :| 0 <= k < |list| && list[k] == e[i];
      CountPositive(list, 0, names[i]);
    }
  }

  /** The listed statuses e in the order of their names in the spec. */
  method OrderAsDeclared(names: seq<string>, list: seq<ContainerStatus>, ghost e: seq<ContainerStatus>)
    returns (result: seq<ContainerStatus>)
    requires NamesDiffer(e) && multiset(list) == multiset(e) && |names| == |e| && StartsWithNames(e, names)
    ensures result == e
  {
    AllHaveStatus(e, list, names);
    PlacedAll(names, list);
    var a := new ContainerStatus[|list|](i requires 0 <= i < |list| => list[i]);
    assert a[..] == list;
    SortInitContainerStatuses(names, a);
    result := a[..];
    SameMembers(result, e);
    InOrder(e, result);
  }

  /** The listed statuses e by name. */
  method OrderByName(list: seq<ContainerStatus>, ghost e: seq<ContainerStatus>) returns (result: seq<ContainerStatus>)
    requires NamesDiffer(e) && NoDuplicates(list) && multiset(list) == multiset(e)
    ensures multiset(result) == multiset(e) && SortedBy(NameLeq, result) && NamesDiffer(result)
  {
    NameLeqPreorder();
    result := Sort(NameLeq, list);
    PermutedDistinct(list, result);
    DistinctByName(e, result);
  }

  /** The declared statuses, listed once each, in the order clients expect. */
  method Order(x: Input, ghost records: seq<Record>, ghost statuses: map<string, ContainerStatus>,
               list: seq<ContainerStatus>)
    returns (result: seq<ContainerStatus>)
    requires DistinctNames(x.containers) && GivesStatus(x, records, statuses) && NoDuplicates(list)
    requires forall s :: s in list <==> s.name in statuses && statuses[s.name] == s
    ensures multiset(result) == multiset(Expected(x, records))
    ensures x.isInit ==> result == Expected(x, records)
    ensures !x.isInit ==> SortedBy(NameLeq, result) && NamesDiffer(result)
  {
    ListedStatuses(x, records, statuses, list);
    ExpectedNames(x, records);
    if x.isInit {
      var names := seq(|x.containers|, i requires 0 <= i < |x.containers| => x.containers[i].name);
      result := OrderAsDeclared(names, list, Expected(x, records));
    } else {
      result := OrderByName(list, Expected(x, records));
    }
  }
}
