/** The expectation stores under concurrency: a call looks its counters up in one step and lowers them in a
    later one, and the calls that change UID sets hold a lock that the others do not take. Every such run is
    shown to be one of the sequential runs of Expectations, each call taking effect while it is under way: at
    one of its own steps, or at the step of another call that replaces the counters it has looked up. */
module ExpectationRaces {
  import opened Options
  import opened Expectations

  /** Counters in memory, with the controller they were made for. */
  datatype Object = Object(key: Key, exp: Exp)

  /** What the call that holds the lock of the UID sets has left to do. */
  datatype Holder =
    | Nobody
    | Announcing(key: Key, deleted: seq<string>, now: int)     // UIDs stored, counters not yet
    | Observing(key: Key, uid: string)                         // UID found, counters not yet looked up
    | Lowering(key: Key, uid: string, counters: Option<nat>)     // counters looked up, not yet lowered
    | Removing(key: Key, uid: string)                          // counters lowered, UID not yet removed
    | Deleting(key: Key, found: bool)                          // counters looked up, not yet deleted
    | Dropping(key: Key)                                       // counters deleted, UIDs not yet

  /** The counters ever made, the store that refers to them, the UID sets, the lock, and the observed
      creations that have looked counters up and not lowered them yet. */
  datatype Memory = Memory(objects: seq<Object>, store: map<Key, nat>, uids: map<Key, set<string>>,
                           holder: Holder, looking: multiset<nat>)

  const Empty := Memory([], map[], map[], Nobody, multiset{})

  datatype Event =
    | Announce(key: Key, adds: int, now: int)
    | Look(key: Key)
    | Lower(counters: nat)
    | Begin(holder: Holder)
    | Advance

  // ----- the steps -----

  predicate Current(m: Memory, r: nat) {
    r < |m.objects| && m.objects[r].key in m.store && m.store[m.objects[r].key] == r
  }

  function Store(m: Memory, key: Key, e: Exp): Memory {
    m.(objects := m.objects + [Object(key, e)], store := m.store[key := |m.objects|])
  }

  function LowerObject(m: Memory, r: nat, add: int, del: int): Memory
    requires r < |m.objects|
  {
    var o := m.objects[r];
    m.(objects := m.objects[r := o.(exp := o.exp.(add := o.exp.add - add, del := o.exp.del - del))])
  }

  function UIDsIn(m: Memory, key: Key): set<string> {
    if key in m.uids then m.uids[key] else {}
  }

  predicate Enabled(m: Memory, e: Event) {
    match e
    case Announce(_, _, _) => true
    case Look(_) => true
    case Lower(r) => r in m.looking && r < |m.objects|
    case Begin(h) => m.holder.Nobody? && (h.Announcing? || h.Observing? || h.Deleting?)
    case Advance => match m.holder
      case Nobody => false
      case Lowering(_, _, counters) => counters.Some? ==> counters.value < |m.objects|
      case _ => true
  }

  /** Taking the lock, with the first step under it. */
  function Start(m: Memory, h: Holder): Memory {
    match h
    case Announcing(key, deleted, _) => m.(holder := h, uids := m.uids[key := ToSet(deleted)])
    case Observing(key, uid) => if uid in UIDsIn(m, key) then m.(holder := h) else m
    case Deleting(key, _) => m.(holder := Deleting(key, key in m.store))
    case _ => m
  }

  function Proceed(m: Memory): Memory
    requires Enabled(m, Advance)
  {
    match m.holder
    case Nobody => m
    case Announcing(key, deleted, now) => Store(m, key, Exp(0, |ToSet(deleted)|, now)).(holder := Nobody)
    case Observing(key, uid) =>
      m.(holder := Lowering(key, uid, if key in m.store then Some(m.store[key]) else None))
    case Lowering(key, uid, counters) =>
      (if counters.Some? then LowerObject(m, counters.value, 0, 1) else m).(holder := Removing(key, uid))
    case Removing(key, uid) => m.(holder := Nobody, uids := m.uids[key := UIDsIn(m, key) - {uid}])
    case Deleting(key, found) => m.(holder := Dropping(key), store := if found then m.store - {key} else m.store)
    case Dropping(key) => m.(holder := Nobody, uids := m.uids - {key})
  }

  function Next(m: Memory, e: Event): Memory
    requires Enabled(m, e)
  {
    match e
    case Announce(key, adds, now) => Store(m, key, Exp(adds, 0, now))
    case Look(key) => if key in m.store then m.(looking := m.looking + multiset{m.store[key]}) else m
    case Lower(r) => LowerObject(m, r, 1, 0).(looking := m.looking - multiset{r})
    case Begin(h) => Start(m, h)
    case Advance => Proceed(m)
  }

  // ----- where calls take effect -----

  function Repeat(call: Call, n: nat): seq<Call> {
    if n == 0 then [] else Repeat(call, n - 1) + [call]
  }

  /** The observed creations and deletions that have counters of the key in hand; they take effect at the
      latest when these counters are replaced. */
  function Overtaken(m: Memory, key: Key): seq<Call> {
    if key !in m.store then []
    else
      Repeat(CreationObserved(key), m.looking[m.store[key]])
        + if m.holder.Lowering? && m.holder.counters == Some(m.store[key])
          then [DeletionObserved(m.holder.key, m.holder.uid)] else []
  }

  /** The calls that take effect at a step. */
  function Points(m: Memory, e: Event): seq<Call>
    requires Enabled(m, e)
  {
    match e
    case Announce(key, adds, now) => Overtaken(m, key) + [ExpectCreations(key, adds, now)]
    case Look(key) => if key in m.store then [] else [CreationObserved(key)]
    case Lower(r) => if Current(m, r) then [CreationObserved(m.objects[r].key)] else []
    case Begin(h) =>
      if h.Observing? && h.uid !in UIDsIn(m, h.key) then [DeletionObserved(h.key, h.uid)]
      else if h.Deleting? && h.key !in m.store then [DeleteExpectations(h.key)]
      else []
    case Advance => match m.holder
      case Announcing(key, deleted, now) => Overtaken(m, key) + [ExpectDeletions(key, deleted, now)]
      case Observing(key, uid) => if key in m.store then [] else [DeletionObserved(key, uid)]
      case Lowering(key, uid, counters) =>
        if counters.Some? && Current(m, counters.value) then [DeletionObserved(key, uid)] else []
      case Deleting(key, found) => if found then Overtaken(m, key) + [DeleteExpectations(key)] else []
      case _ => []
  }

  /** The call that an event begins. */
  function Begun(e: Event): seq<Call> {
    match e
    case Announce(key, adds, now) => [ExpectCreations(key, adds, now)]
    case Look(key) => [CreationObserved(key)]
    case Begin(Announcing(key, deleted, now)) => [ExpectDeletions(key, deleted, now)]
    case Begin(Observing(key, uid)) => [DeletionObserved(key, uid)]
    case Begin(Deleting(key, _)) => [DeleteExpectations(key)]
    case _ => []
  }

  /** A run: the memory, the calls in the order in which they took effect, and the calls begun. */
  datatype History = History(memory: Memory, calls: seq<Call>, begun: seq<Call>)

  /** Events that cannot occur are passed over. */
  function Play(es: seq<Event>): History {
    if es == [] then History(Empty, [], [])
    else
      var h, e := Play(es[..|es| - 1]), es[|es| - 1];
      if Enabled(h.memory, e) then
        History(Next(h.memory, e), h.calls + Points(h.memory, e), h.begun + Begun(e))
      else h
  }

  // ----- the memory stands for the state of the calls -----

  function View(m: Memory): map<Key, Exp>
    requires MemoryOk(m)
  {
    map k | k in m.store :: m.objects[m.store[k]].exp
  }

  predicate MemoryOk(m: Memory) {
    && (forall k :: k in m.store ==> m.store[k] < |m.objects| && m.objects[m.store[k]].key == k)
    && (forall r :: r in m.looking ==> r < |m.objects|)
    && (m.holder.Lowering? && m.holder.counters.Some? ==>
          m.holder.counters.value < |m.objects| && m.objects[m.holder.counters.value].key == m.holder.key)
    && ((m.holder.Observing? || m.holder.Lowering? || m.holder.Removing?) ==>
          m.holder.key in m.uids && m.holder.uid in m.uids[m.holder.key])
  }

  /** The UID sets without what the holder of the lock has changed ahead of its effect, and with what its
      effect has changed and it has not done yet. */
  ghost predicate SameUIDs(m: Memory, uids: map<Key, set<string>>) {
    match m.holder
    case Announcing(key, deleted, _) => m.uids == uids[key := ToSet(deleted)]
    case Lowering(key, uid, counters) =>
      key in m.uids
      && uids == if counters.Some? && Current(m, counters.value) then m.uids else m.uids[key := m.uids[key] - {uid}]
    case Removing(key, uid) => key in m.uids && uids == m.uids[key := m.uids[key] - {uid}]
    case Deleting(key, found) => uids == if found then m.uids else m.uids - {key}
    case Dropping(key) => uids == m.uids - {key}
    case _ => uids == m.uids
  }

  ghost predicate StandsFor(m: Memory, s: State) {
    MemoryOk(m) && View(m) == s.store && SameUIDs(m, s.uids)
  }

  function ApplyAll(s: State, calls: seq<Call>): State {
    if calls == [] then s else Apply(ApplyAll(s, calls[..|calls| - 1]), calls[|calls| - 1])
  }

  lemma {:induction false} ApplyAllAppend(s: State, a: seq<Call>, b: seq<Call>)
    ensures ApplyAll(s, a + b) == ApplyAll(ApplyAll(s, a), b)
  {
    if b == [] {
      assert a + b == a;
    } else {
      assert (a + b)[..|a + b| - 1] == a + b[..|b| - 1];
      ApplyAllAppend(s, a, b[..|b| - 1]);
    }
  }

  lemma {:induction false} ApplyOne(s: State, call: Call)
    ensures ApplyAll(s, [call]) == Apply(s, call)
  {
    assert [call][..0] == [];
  }

  lemma {:induction false} RunIsApplyAll(calls: seq<Call>)
    ensures Run(calls) == ApplyAll(Initial, calls)
  {
    if calls != [] { RunIsApplyAll(calls[..|calls| - 1]); }
  }

  /** The states differ at most in the counters of the key. */
  ghost predicate SameBut(s: State, t: State, key: Key) {
    && s.uids == t.uids && s.store.Keys == t.store.Keys
    && forall k :: k in s.store && k != key ==> s.store[k] == t.store[k]
  }

  lemma {:induction false} RepeatEffect(s: State, key: Key, n: nat)
    ensures SameBut(s, ApplyAll(s, Repeat(CreationObserved(key), n)), key)
  {
    if n > 0 {
      var front := Repeat(CreationObserved(key), n - 1);
      RepeatEffect(s, key, n - 1);
      ApplyAllAppend(s, front, [CreationObserved(key)]);
      ApplyOne(ApplyAll(s, front), CreationObserved(key));
    }
  }

  /** An observed deletion whose UID is there and whose counters are stored. */
  lemma {:induction false} DeletionEffect(s: State, key: Key, uid: string)
    requires key in s.store && uid in UIDs(s, key)
    ensures var t := Apply(s, DeletionObserved(key, uid));
            && t.store.Keys == s.store.Keys && (forall k :: k in s.store && k != key ==> s.store[k] == t.store[k])
            && t.uids == s.uids[key := UIDs(s, key) - {uid}]
  {
  }

  /** What the overtaken calls do before the counters of the key are replaced or deleted. */
  lemma {:induction false} OvertakenEffect(m: Memory, s: State, key: Key)
    requires StandsFor(m, s)
    ensures var t := ApplyAll(s, Overtaken(m, key));
            && t.store.Keys == s.store.Keys && (forall k :: k in s.store && k != key ==> s.store[k] == t.store[k])
            && t.uids == if key in m.store && m.holder.Lowering? && m.holder.counters == Some(m.store[key])
                         then s.uids[key := UIDs(s, key) - {m.holder.uid}] else s.uids
  {
    if key in m.store {
      var front := Repeat(CreationObserved(key), m.looking[m.store[key]]);
      RepeatEffect(s, key, m.looking[m.store[key]]);
      if m.holder.Lowering? && m.holder.counters == Some(m.store[key]) {
        var call, t := DeletionObserved(key, m.holder.uid), ApplyAll(s, front);
        assert Current(m, m.store[key]) && m.holder.key == key && s.uids == m.uids;
        assert Overtaken(m, key) == front + [call];
        ApplyAllAppend(s, front, [call]);
        ApplyOne(t, call);
        DeletionEffect(t, key, m.holder.uid);
      } else {
        assert Overtaken(m, key) == front + [];
        assert front + [] == front;
      }
    }
  }

  lemma {:induction false} UpdateSame(a: map<Key, Exp>, b: map<Key, Exp>, key: Key, e: Exp)
    requires a.Keys == b.Keys && forall k :: k in a && k != key ==> a[k] == b[k]
    ensures a[key := e] == b[key := e] && a - {key} == b - {key}
  {
  }

  /** Storing new counters for a key; those in hand are no longer current. */
  lemma {:induction false} StoreEffect(m: Memory, key: Key, e: Exp)
    requires MemoryOk(m)
    ensures MemoryOk(Store(m, key, e)) && View(Store(m, key, e)) == View(m)[key := e]
    ensures forall r: nat :: r < |m.objects| ==>
              (Current(Store(m, key, e), r) <==> Current(m, r) && m.objects[r].key != key)
  {
    var m' := Store(m, key, e);
    assert forall r: nat :: r < |m.objects| ==> m'.objects[r] == m.objects[r];
    assert MemoryOk(m');
    assert View(m') == View(m)[key := e];
  }

  lemma {:induction false} LowerEffect(m: Memory, r: nat, add: int, del: int)
    requires MemoryOk(m) && r < |m.objects|
    ensures var m', key := LowerObject(m, r, add, del), m.objects[r].key;
            && MemoryOk(m') && (forall q: nat :: Current(m', q) <==> Current(m, q))
            && View(m') == if Current(m, r)
                           then var e := View(m)[key]; View(m)[key := e.(add := e.add - add, del := e.del - del)]
                           else View(m)
  {
    var m' := LowerObject(m, r, add, del);
    assert forall q: nat :: q < |m.objects| ==> m'.objects[q].key == m.objects[q].key;
    assert MemoryOk(m');
    forall k | k in m.store && m.store[k] == r ensures Current(m, r) && k == m.objects[r].key {}
  }

  lemma {:induction false} AnnounceUIDs(m: Memory, s: State, key: Key, e: Exp, uids: map<Key, set<string>>)
    requires StandsFor(m, s)
    requires uids == if key in m.store && m.holder.Lowering? && m.holder.counters == Some(m.store[key])
                     then s.uids[key := UIDs(s, key) - {m.holder.uid}] else s.uids
    ensures SameUIDs(Store(m, key, e), uids)
  {
    StoreEffect(m, key, e);
    if m.holder.Lowering? && m.holder.counters.Some? {
      assert Current(m, m.holder.counters.value) && m.holder.key == key <==>
               key in m.store && m.holder.counters == Some(m.store[key]);
    }
  }

  lemma {:induction false} AnnounceStands(m: Memory, s: State, key: Key, adds: int, now: int)
    requires StandsFor(m, s)
    ensures var e := Announce(key, adds, now); StandsFor(Next(m, e), ApplyAll(s, Points(m, e)))
  {
    var e, t := Exp(adds, 0, now), ApplyAll(s, Overtaken(m, key));
    OvertakenEffect(m, s, key);
    ApplyAllAppend(s, Overtaken(m, key), [ExpectCreations(key, adds, now)]);
    ApplyOne(t, ExpectCreations(key, adds, now));
    StoreEffect(m, key, e);
    UpdateSame(t.store, s.store, key, e);
    AnnounceUIDs(m, s, key, e, t.uids);
  }

  lemma {:induction false} SameUIDsFrame(m: Memory, m': Memory, uids: map<Key, set<string>>)
    requires SameUIDs(m, uids) && m'.uids == m.uids && m'.holder == m.holder
    requires forall q: nat :: Current(m', q) <==> Current(m, q)
    ensures SameUIDs(m', uids)
  {
  }

  lemma {:induction false} ForgetLook(m: Memory, r: nat)
    requires MemoryOk(m)
    ensures var m' := m.(looking := m.looking - multiset{r});
            MemoryOk(m') && View(m') == View(m) && forall q: nat :: Current(m', q) <==> Current(m, q)
  {
  }

  lemma {:induction false} LowerCurrent(m: Memory, s: State, r: nat)
    requires StandsFor(m, s) && Current(m, r)
    ensures var m', t := LowerObject(m, r, 1, 0), Apply(s, CreationObserved(m.objects[r].key));
            MemoryOk(m') && View(m') == t.store && t.uids == s.uids
  {
    LowerEffect(m, r, 1, 0);
  }

  lemma {:induction false} LowerStands(m: Memory, s: State, r: nat)
    requires StandsFor(m, s) && Enabled(m, Lower(r))
    ensures StandsFor(Next(m, Lower(r)), ApplyAll(s, Points(m, Lower(r))))
  {
    var m1, call := LowerObject(m, r, 1, 0), CreationObserved(m.objects[r].key);
    LowerEffect(m, r, 1, 0);
    SameUIDsFrame(m, m1, s.uids);
    ForgetLook(m1, r);
    SameUIDsFrame(m1, m1.(looking := m1.looking - multiset{r}), s.uids);
    if Current(m, r) {
      LowerCurrent(m, s, r);
      ApplyOne(s, call);
      assert Points(m, Lower(r)) == [call];
    } else {
      assert Points(m, Lower(r)) == [];
    }
  }

  lemma {:induction false} BeginStands(m: Memory, s: State, h: Holder)
    requires StandsFor(m, s) && Enabled(m, Begin(h))
    ensures StandsFor(Next(m, Begin(h)), ApplyAll(s, Points(m, Begin(h))))
  {
    if h.Observing? {
      ApplyOne(s, DeletionObserved(h.key, h.uid));
    } else if h.Deleting? {
      ApplyOne(s, DeleteExpectations(h.key));
    }
  }

  lemma {:induction false} SetDeletionsStands(m: Memory, s: State)
    requires StandsFor(m, s) && m.holder.Announcing?
    ensures StandsFor(Proceed(m), ApplyAll(s, Points(m, Advance)))
  {
    var key, deleted, now := m.holder.key, m.holder.deleted, m.holder.now;
    var e, t := Exp(0, |ToSet(deleted)|, now), ApplyAll(s, Overtaken(m, key));
    OvertakenEffect(m, s, key);
    ApplyAllAppend(s, Overtaken(m, key), [ExpectDeletions(key, deleted, now)]);
    ApplyOne(t, ExpectDeletions(key, deleted, now));
    StoreEffect(m, key, e);
    UpdateSame(t.store, s.store, key, e);
    assert MemoryOk(Proceed(m)) && View(Proceed(m)) == View(Store(m, key, e));
  }

  lemma {:induction false} LookUpStands(m: Memory, s: State)
    requires StandsFor(m, s) && Enabled(m, Advance) && m.holder.Observing?
    ensures StandsFor(Proceed(m), ApplyAll(s, Points(m, Advance)))
  {
    ApplyOne(s, DeletionObserved(m.holder.key, m.holder.uid));
    assert View(Proceed(m)) == View(m);
  }

  lemma {:induction false} LoweredStands(m: Memory, s: State)
    requires StandsFor(m, s) && Enabled(m, Advance) && m.holder.Lowering?
    ensures StandsFor(Proceed(m), ApplyAll(s, Points(m, Advance)))
  {
    var key, uid, m' := m.holder.key, m.holder.uid, Proceed(m);
    ApplyOne(s, DeletionObserved(key, uid));
    if m.holder.counters.Some? {
      LowerEffect(m, m.holder.counters.value, 0, 1);
      assert View(m') == View(LowerObject(m, m.holder.counters.value, 0, 1));
    } else {
      assert View(m') == View(m);
    }
  }

  lemma {:induction false} DeleteStands(m: Memory, s: State)
    requires StandsFor(m, s) && Enabled(m, Advance) && m.holder.Deleting? && m.holder.found
    ensures StandsFor(Proceed(m), ApplyAll(s, Points(m, Advance)))
  {
    var key := m.holder.key;
    var t := ApplyAll(s, Overtaken(m, key));
    OvertakenEffect(m, s, key);
    ApplyAllAppend(s, Overtaken(m, key), [DeleteExpectations(key)]);
    ApplyOne(t, DeleteExpectations(key));
    UpdateSame(t.store, s.store, key, Exp(0, 0, 0));
    assert View(Proceed(m)) == View(m) - {key};
  }

  lemma {:induction false} FinishStands(m: Memory, s: State)
    requires StandsFor(m, s) && Enabled(m, Advance)
    requires m.holder.Removing? || m.holder.Dropping? || (m.holder.Deleting? && !m.holder.found)
    ensures StandsFor(Proceed(m), ApplyAll(s, Points(m, Advance)))
  {
    assert View(Proceed(m)) == View(m);
  }

  lemma {:induction false} StepStands(m: Memory, s: State, e: Event)
    requires StandsFor(m, s) && Enabled(m, e)
    ensures StandsFor(Next(m, e), ApplyAll(s, Points(m, e)))
  {
    match e
    case Announce(key, adds, now) => AnnounceStands(m, s, key, adds, now);
    case Look(key) => ApplyOne(s, CreationObserved(key));
    case Lower(r) => LowerStands(m, s, r);
    case Begin(h) => BeginStands(m, s, h);
    case Advance =>
      match m.holder {
        case Announcing(_, _, _) => SetDeletionsStands(m, s);
        case Observing(_, _) => LookUpStands(m, s);
        case Lowering(_, _, _) => LoweredStands(m, s);
        case Deleting(_, true) => DeleteStands(m, s);
        case _ => FinishStands(m, s);
      }
  }

  /** In every interleaving the counters are those of a sequential run of the calls, in the order in which
      they took effect, and so are the UID sets but for the unfinished work of the holder of the lock. */
  lemma {:induction false} Linearizable(es: seq<Event>)
    ensures StandsFor(Play(es).memory, Run(Play(es).calls))
  {
    if es != [] {
      var front, e := es[..|es| - 1], es[|es| - 1];
      Linearizable(front);
      var h := Play(front);
      if Enabled(h.memory, e) {
        StepStands(h.memory, Run(h.calls), e);
        RunIsApplyAll(h.calls);
        RunIsApplyAll(h.calls + Points(h.memory, e));
        ApplyAllAppend(Initial, h.calls, Points(h.memory, e));
      }
    }
  }

  // ----- every call takes effect once -----

  /** The call under the lock that has begun and not taken effect. */
  function Held(m: Memory): Option<Call> {
    match m.holder
    case Announcing(key, deleted, now) => Some(ExpectDeletions(key, deleted, now))
    case Observing(key, uid) => Some(DeletionObserved(key, uid))
    case Lowering(key, uid, counters) =>
      if counters.Some? && Current(m, counters.value) then Some(DeletionObserved(key, uid)) else None
    case Deleting(key, found) => if found then Some(DeleteExpectations(key)) else None
    case _ => None
  }

  /** How many times the call has begun and not taken effect. */
  function Open(m: Memory, x: Call): nat {
    if x.CreationObserved? then (if x.key in m.store then m.looking[m.store[x.key]] else 0)
    else if Held(m) == Some(x) then 1 else 0
  }

  lemma {:induction false} RepeatCount(call: Call, n: nat, x: Call)
    ensures multiset(Repeat(call, n))[x] == if x == call then n else 0
  {
    if n > 0 { RepeatCount(call, n - 1, x); }
  }

  lemma {:induction false} OvertakenCount(m: Memory, key: Key, x: Call)
    requires MemoryOk(m)
    ensures multiset(Overtaken(m, key))[x]
         == if x.CreationObserved? then (if x.key == key then Open(m, x) else 0)
            else if key in m.store && m.holder.Lowering? && m.holder.counters == Some(m.store[key])
                    && x == DeletionObserved(m.holder.key, m.holder.uid) then 1 else 0
  {
    if key in m.store { RepeatCount(CreationObserved(key), m.looking[m.store[key]], x); }
  }

  /** Points, begun and open calls of a step add up. */
  ghost predicate Counts(m: Memory, e: Event, x: Call)
    requires Enabled(m, e)
  {
    multiset(Points(m, e))[x] + Open(Next(m, e), x) == Open(m, x) + multiset(Begun(e))[x]
  }

  function One(call: Call, x: Call): nat {
    if x == call then 1 else 0
  }

  lemma {:induction false} CountAppend(calls: seq<Call>, call: Call, x: Call)
    ensures multiset(calls + [call])[x] == multiset(calls)[x] + One(call, x)
  {
  }

  lemma {:induction false} StoreHeld(m: Memory, key: Key, e: Exp)
    requires MemoryOk(m)
    ensures Held(Store(m, key, e)) == if key in m.store && m.holder.Lowering? && m.holder.counters == Some(m.store[key])
                                      then None else Held(m)
  {
    StoreEffect(m, key, e);
    if m.holder.Lowering? && m.holder.counters.Some? {
      assert Current(m, m.holder.counters.value) && m.holder.key == key <==>
               key in m.store && m.holder.counters == Some(m.store[key]);
    }
  }

  /** Storing new counters for a key closes what was open on the old ones. */
  lemma {:induction false} StoreOpen(m: Memory, key: Key, e: Exp, x: Call)
    requires MemoryOk(m)
    ensures Open(Store(m, key, e), x) + multiset(Overtaken(m, key))[x] == Open(m, x)
  {
    OvertakenCount(m, key, x);
    if x.CreationObserved? {
      assert |m.objects| !in m.looking;
    } else {
      StoreHeld(m, key, e);
    }
  }

  lemma {:induction false} AnnounceCounts(m: Memory, key: Key, adds: int, now: int, x: Call)
    requires MemoryOk(m)
    ensures Counts(m, Announce(key, adds, now), x)
  {
    var call := ExpectCreations(key, adds, now);
    CountAppend(Overtaken(m, key), call, x);
    assert multiset([call])[x] == One(call, x);
    StoreOpen(m, key, Exp(adds, 0, now), x);
    assert Next(m, Announce(key, adds, now)) == Store(m, key, Exp(adds, 0, now));
  }

  lemma {:induction false} LookCounts(m: Memory, key: Key, x: Call)
    requires MemoryOk(m)
    ensures Counts(m, Look(key), x)
  {
    var m', call := Next(m, Look(key)), CreationObserved(key);
    assert multiset([call])[x] == One(call, x);
    assert m'.store == m.store && m'.holder == m.holder && m'.objects == m.objects;
    assert Held(m') == Held(m);
    if x.CreationObserved? && key in m.store && x.key in m.store {
      assert m.store[x.key] == m.store[key] ==> x.key == key;
    }
  }

  lemma {:induction false} LowerCounts(m: Memory, r: nat, x: Call)
    requires MemoryOk(m) && Enabled(m, Lower(r))
    ensures Counts(m, Lower(r), x)
  {
    LowerEffect(m, r, 1, 0);
    var m' := Next(m, Lower(r));
    assert forall q: nat :: Current(m', q) <==> Current(m, q);
    assert Held(m') == Held(m);
    var call := CreationObserved(m.objects[r].key);
    assert multiset([call])[x] == One(call, x);
    LowerOpen(m, r, x);
  }

  lemma {:induction false} LowerOpen(m: Memory, r: nat, x: Call)
    requires MemoryOk(m) && Enabled(m, Lower(r)) && Held(Next(m, Lower(r))) == Held(m)
    ensures Open(m, x) == Open(Next(m, Lower(r)), x)
                          + if Current(m, r) then One(CreationObserved(m.objects[r].key), x) else 0
  {
  }

  lemma {:induction false} BeginCounts(m: Memory, h: Holder, x: Call)
    requires MemoryOk(m) && Enabled(m, Begin(h))
    ensures Counts(m, Begin(h), x)
  {
    var calls := Begun(Begin(h));
    assert |calls| == 1 && calls == [calls[0]];
    assert multiset([calls[0]])[x] == One(calls[0], x);
    assert multiset(Points(m, Begin(h)))[x] == if Points(m, Begin(h)) == [] then 0 else One(calls[0], x);
    assert x.CreationObserved? ==> Open(Next(m, Begin(h)), x) == Open(m, x);
  }

  lemma {:induction false} SetDeletionsCounts(m: Memory, x: Call)
    requires MemoryOk(m) && m.holder.Announcing?
    ensures Counts(m, Advance, x)
  {
    var key, call := m.holder.key, ExpectDeletions(m.holder.key, m.holder.deleted, m.holder.now);
    CountAppend(Overtaken(m, key), call, x);
    OvertakenCount(m, key, x);
    if x.CreationObserved? {
      assert |m.objects| !in m.looking;
      assert x.key != key ==> Open(Proceed(m), x) == Open(m, x);
    }
  }

  lemma {:induction false} ObservedCounts(m: Memory, x: Call)
    requires MemoryOk(m) && Enabled(m, Advance) && (m.holder.Observing? || m.holder.Lowering?)
    ensures Counts(m, Advance, x)
  {
    var call := DeletionObserved(m.holder.key, m.holder.uid);
    assert multiset([call])[x] == One(call, x);
    if m.holder.Lowering? && m.holder.counters.Some? { LowerEffect(m, m.holder.counters.value, 0, 1); }
    assert x.CreationObserved? ==> Open(Proceed(m), x) == Open(m, x);
  }

  lemma {:induction false} DeleteCounts(m: Memory, x: Call)
    requires MemoryOk(m) && Enabled(m, Advance) && m.holder.Deleting?
    ensures Counts(m, Advance, x)
  {
    OvertakenCount(m, m.holder.key, x);
    CountAppend(Overtaken(m, m.holder.key), DeleteExpectations(m.holder.key), x);
  }

  lemma {:induction false} FinishCounts(m: Memory, x: Call)
    requires MemoryOk(m) && Enabled(m, Advance) && (m.holder.Removing? || m.holder.Dropping?)
    ensures Counts(m, Advance, x)
  {
  }

  lemma {:induction false} StepCounts(m: Memory, e: Event, x: Call)
    requires MemoryOk(m) && Enabled(m, e)
    ensures Counts(m, e, x)
  {
    match e
    case Announce(key, adds, now) => AnnounceCounts(m, key, adds, now, x);
    case Look(key) => LookCounts(m, key, x);
    case Lower(r) => LowerCounts(m, r, x);
    case Begin(h) => BeginCounts(m, h, x);
    case Advance =>
      match m.holder {
        case Announcing(_, _, _) => SetDeletionsCounts(m, x);
        case Observing(_, _) => ObservedCounts(m, x);
        case Lowering(_, _, _) => ObservedCounts(m, x);
        case Deleting(_, _) => DeleteCounts(m, x);
        case _ => FinishCounts(m, x);
      }
  }

  /** In every interleaving each call begun has taken effect once, or is still open. */
  lemma {:induction false} EachOnce(es: seq<Event>, x: Call)
    ensures var h := Play(es); multiset(h.calls)[x] + Open(h.memory, x) == multiset(h.begun)[x]
  {
    if es != [] {
      var front, e := es[..|es| - 1], es[|es| - 1];
      EachOnce(front, x);
      Linearizable(front);
      if Enabled(Play(front).memory, e) { StepCounts(Play(front).memory, e, x); }
    }
  }

  /** Once no call is under way, the stores are exactly what a sequential run leaves of the calls made. */
  lemma {:induction false} QuietRun(es: seq<Event>)
    requires Play(es).memory.holder.Nobody? && Play(es).memory.looking == multiset{}
    ensures var h := Play(es);
            && multiset(h.calls) == multiset(h.begun)
            && MemoryOk(h.memory) && State(View(h.memory), h.memory.uids) == Run(h.calls)
  {
    Linearizable(es);
    var h := Play(es);
    forall x ensures multiset(h.calls)[x] == multiset(h.begun)[x] { EachOnce(es, x); }
  }

  /** At every moment the deletion counter that a reader finds is the number of deletions awaited after the
      calls that took effect, less what the last announcement of creations made it forget. */
  lemma {:induction false} CountersAgreeAlways(es: seq<Event>, key: Key)
    ensures var h := Play(es);
            && MemoryOk(h.memory)
            && (key in h.memory.store ==>
                  View(h.memory)[key].del == |Awaited(h.calls, key)| - Forgotten(h.calls, key))
  {
    Linearizable(es);
    CountersAgree(Play(es).calls, key);
  }

  // ----- reading the two counters one after the other -----

  /** The counters in memory that r refers to have come down, or stayed, from m to n. */
  predicate Lowered(m: Memory, n: Memory, r: nat) {
    && r < |m.objects| && r < |n.objects|
    && n.objects[r].key == m.objects[r].key && n.objects[r].exp.timestamp == m.objects[r].exp.timestamp
    && n.objects[r].exp.add <= m.objects[r].exp.add && n.objects[r].exp.del <= m.objects[r].exp.del
  }

  lemma {:induction false} StepLowers(m: Memory, e: Event, r: nat)
    requires Enabled(m, e) && r < |m.objects|
    ensures Lowered(m, Next(m, e), r)
  {
  }

  lemma {:induction false} CountersFall(es: seq<Event>, more: seq<Event>, r: nat)
    requires r < |Play(es).memory.objects|
    ensures Lowered(Play(es).memory, Play(es + more).memory, r)
  {
    if more == [] {
      assert es + more == es;
    } else {
      var front, e := more[..|more| - 1], more[|more| - 1];
      CountersFall(es, front, r);
      assert (es + more)[..|es + more| - 1] == es + front;
      var m := Play(es + front).memory;
      if Enabled(m, e) { StepLowers(m, e, r); }
    }
  }

  predicate Down(e: Exp) {
    e.add <= 0 && e.del <= 0
  }

  /** The two loads of a reader that has looked counters up: the creations first and, if none are out, the
      deletions later. */
  function TwoLoads(first: Exp, second: Exp): bool {
    first.add <= 0 && second.del <= 0
  }

  /** A reader that loads the two counters at different moments answers as one that loads both at once, at
      the moment of its last load, whatever happens in between; and if the counters are still stored then, it
      answers as a sequential run of the calls that have taken effect would. */
  lemma {:induction false} TwoLoadsSuffice(es: seq<Event>, more: seq<Event>, r: nat)
    requires r < |Play(es).memory.objects|
    ensures var m, n := Play(es).memory, Play(es + more).memory;
            && r < |n.objects|
            && (m.objects[r].exp.add > 0 ==> !Down(m.objects[r].exp))
            && (m.objects[r].exp.add <= 0 ==>
                  (TwoLoads(m.objects[r].exp, n.objects[r].exp) <==> Down(n.objects[r].exp)))
            && (Current(n, r) ==> (Down(n.objects[r].exp) <==> Fulfilled(Run(Play(es + more).calls), n.objects[r].key)))
  {
    CountersFall(es, more, r);
    Linearizable(es + more);
    var n := Play(es + more).memory;
    if Current(n, r) { assert View(n)[n.objects[r].key] == n.objects[r].exp; }
  }
}
