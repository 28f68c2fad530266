/** Controller expectations: per controller a pair of counters, and for deletions the set of UIDs still
    awaited. The counters are proved against what a trace of calls says is still to be seen. */
module Expectations {
  import opened Options

  type Key = string

  /** What one controller waits for, and since when. */
  datatype Exp = Exp(add: int, del: int, timestamp: int)

  datatype State = State(store: map<Key, Exp>, uids: map<Key, set<string>>)

  const Initial := State(map[], map[])

  datatype Call =
    | ExpectCreations(key: Key, adds: int, now: int)
    | ExpectDeletions(key: Key, deleted: seq<string>, now: int)
    | CreationObserved(key: Key)
    | DeletionObserved(key: Key, uid: string)
    | DeleteExpectations(key: Key)

  // ----- the calls -----

  function Set(s: State, key: Key, e: Exp): State {
    s.(store := s.store[key := e])
  }

  function Lower(s: State, key: Key, add: int, del: int): State {
    if key in s.store then
      var e := s.store[key];
      Set(s, key, e.(add := e.add - add, del := e.del - del))
    else s
  }

  function UIDs(s: State, key: Key): set<string> {
    if key in s.uids then s.uids[key] else {}
  }

  function ToSet(s: seq<string>): set<string> {
    set x | x in s
  }

  function Apply(s: State, call: Call): State {
    match call
    case ExpectCreations(key, adds, now) => Set(s, key, Exp(adds, 0, now))
    case ExpectDeletions(key, deleted, now) =>
      Set(s.(uids := s.uids[key := ToSet(deleted)]), key, Exp(0, |ToSet(deleted)|, now))
    case CreationObserved(key) => Lower(s, key, 1, 0)
    case DeletionObserved(key, uid) =>
      if uid in UIDs(s, key) then
        var s1 := Lower(s, key, 0, 1);
        s1.(uids := s1.uids[key := s1.uids[key] - {uid}])
      else s
    case DeleteExpectations(key) => s.(store := s.store - {key}, uids := s.uids - {key})
  }

  function Run(calls: seq<Call>): State {
    if calls == [] then Initial else Apply(Run(calls[..|calls| - 1]), calls[|calls| - 1])
  }

  predicate Fulfilled(s: State, key: Key) {
    key in s.store ==> s.store[key].add <= 0 && s.store[key].del <= 0
  }

  const EXPECTATIONS_TIMEOUT := 300_000_000_000

  /** Whether the controller should be synced. */
  predicate Satisfied(s: State, key: Key, now: int) {
    Fulfilled(s, key) || now - s.store[key].timestamp > EXPECTATIONS_TIMEOUT
  }

  // ----- what the trace says -----

  /** The UIDs whose deletion was announced last and not seen since. */
  function Awaited(calls: seq<Call>, key: Key): set<string> {
    if calls == [] then {}
    else
      var before, call := Awaited(calls[..|calls| - 1], key), calls[|calls| - 1];
      if call.key != key then before
      else match call
        case ExpectDeletions(_, deleted, _) => ToSet(deleted)
        case DeletionObserved(_, uid) => before - {uid}
        case DeleteExpectations(_) => {}
        case _ => before
  }

  /** How many deletions the last announcement of creations made the counter forget. */
  function Forgotten(calls: seq<Call>, key: Key): nat {
    if calls == [] then 0
    else
      var front, call := calls[..|calls| - 1], calls[|calls| - 1];
      if call.key != key then Forgotten(front, key)
      else match call
        case ExpectCreations(_, _, _) => |Awaited(front, key)|
        case ExpectDeletions(_, _, _) => 0
        case DeleteExpectations(_) => 0
        case _ => Forgotten(front, key)
  }

  /** The creations announced and not seen, if anything is recorded for the key. */
  function Creations(calls: seq<Call>, key: Key): int {
    if calls == [] then 0
    else
      var before, call := Creations(calls[..|calls| - 1], key), calls[|calls| - 1];
      if call.key != key then before
      else match call
        case ExpectCreations(_, adds, _) => adds
        case ExpectDeletions(_, _, _) => 0
        case CreationObserved(_) => before - 1
        case DeleteExpectations(_) => 0
        case DeletionObserved(_, _) => before
  }

  predicate Recorded(calls: seq<Call>, key: Key) {
    calls != [] &&
    var front, call := calls[..|calls| - 1], calls[|calls| - 1];
    if call.key != key then Recorded(front, key)
    else match call
      case ExpectCreations(_, _, _) => true
      case ExpectDeletions(_, _, _) => true
      case DeleteExpectations(_) => false
      case _ => Recorded(front, key)
  }

  // ----- the counters agree with the trace -----

  ghost predicate Agrees(s: State, calls: seq<Call>, key: Key) {
    && UIDs(s, key) == Awaited(calls, key)
    && (key in s.store <==> Recorded(calls, key))
    && (key in s.store ==> s.store[key].add == Creations(calls, key))
    && (key in s.store ==> s.store[key].del == |Awaited(calls, key)| - Forgotten(calls, key))
    && (key !in s.store ==> Awaited(calls, key) == {})
    && (key in s.uids ==> key in s.store)
  }

  lemma {:induction false} StepAgrees(s: State, calls: seq<Call>, call: Call, key: Key)
    requires Agrees(s, calls, key) && Agrees(s, calls, call.key)
    ensures Agrees(Apply(s, call), calls + [call], key)
  {
    var calls' := calls + [call];
    assert calls'[..|calls|] == calls;
    assert Awaited(calls', key) == (if call.key != key then Awaited(calls, key)
                                    else match call
                                      case ExpectDeletions(_, deleted, _) => ToSet(deleted)
                                      case DeletionObserved(_, uid) => Awaited(calls, key) - {uid}
                                      case DeleteExpectations(_) => {}
                                      case _ => Awaited(calls, key));
  }

  /** After every sequence of calls, for every controller: the UID set is exactly the deletions still
      awaited, and the deletion counter is their number less what the last announcement of creations
      made it forget. */
  lemma {:induction false} CountersAgree(calls: seq<Call>, key: Key)
    ensures Agrees(Run(calls), calls, key)
  {
    if calls != [] {
      var front, call := calls[..|calls| - 1], calls[|calls| - 1];
      CountersAgree(front, key);
      CountersAgree(front, call.key);
      assert calls == front + [call];
      StepAgrees(Run(front), front, call, key);
    }
  }

  function Del(s: State, key: Key): int {
    if key in s.store then s.store[key].del else 0
  }

  lemma {:induction false} NothingForgotten(calls: seq<Call>, key: Key)
    requires forall i :: 0 <= i < |calls| ==> !(calls[i].ExpectCreations? && calls[i].key == key)
    ensures Forgotten(calls, key) == 0
  {
    if calls != [] {
      var front := calls[..|calls| - 1];
      assert forall i :: 0 <= i < |front| ==> front[i] == calls[i];
      NothingForgotten(front, key);
    }
  }

  /** Without announced creations the counter is the number of deletions awaited. With them it never
      exceeds that number, and it equals it exactly when none was awaited at the last announcement of
      creations. */
  lemma {:induction false} DeletionsCounted(calls: seq<Call>, key: Key)
    ensures Del(Run(calls), key) <= |Awaited(calls, key)|
    ensures Recorded(calls, key) ==>
              (Del(Run(calls), key) == |Awaited(calls, key)| <==> Forgotten(calls, key) == 0)
    ensures (forall i :: 0 <= i < |calls| ==> !(calls[i].ExpectCreations? && calls[i].key == key)) ==>
              Del(Run(calls), key) == |Awaited(calls, key)|
  {
    CountersAgree(calls, key);
    if forall i :: 0 <= i < |calls| ==> !(calls[i].ExpectCreations? && calls[i].key == key) {
      NothingForgotten(calls, key);
    }
  }

  /** A controller counts as done exactly when its creations were seen and at most the forgotten number
      of deletions is still out; so nothing is missed unless creations were announced over awaited
      deletions. */
  lemma {:induction false} FulfilledMeansSeen(calls: seq<Call>, key: Key)
    requires Recorded(calls, key)
    ensures Fulfilled(Run(calls), key) <==>
              Creations(calls, key) <= 0 && |Awaited(calls, key)| <= Forgotten(calls, key)
    ensures Fulfilled(Run(calls), key) && Forgotten(calls, key) == 0 ==> Awaited(calls, key) == {}
  {
    CountersAgree(calls, key);
  }

  /** When the expectations of the key were last announced, unless they were deleted since. */
  function Announced(calls: seq<Call>, key: Key): Option<int> {
    if calls == [] then None
    else
      var before, call := Announced(calls[..|calls| - 1], key), calls[|calls| - 1];
      if call.key != key then before
      else match call
        case ExpectCreations(_, _, now) => Some(now)
        case ExpectDeletions(_, _, now) => Some(now)
        case DeleteExpectations(_) => None
        case _ => before
  }

  /** The time stored with the counters is that of the last announcement. */
  lemma {:induction false} TimestampAgrees(calls: seq<Call>, key: Key)
    ensures Announced(calls, key) == if key in Run(calls).store then Some(Run(calls).store[key].timestamp) else None
  {
    if calls != [] {
      TimestampAgrees(calls[..|calls| - 1], key);
    }
  }

  /** After every sequence of calls, a controller is held back exactly when its expectations are announced, were
      announced at most five minutes ago, and creations are not all seen or more deletions are out than the counter
      forgot. */
  lemma {:induction false} HeldBackExactly(calls: seq<Call>, key: Key, now: int)
    ensures !Satisfied(Run(calls), key, now) <==>
              && Announced(calls, key).Some?
              && now - Announced(calls, key).value <= 300_000_000_000
              && (Creations(calls, key) > 0 || |Awaited(calls, key)| > Forgotten(calls, key))
  {
    TimestampAgrees(calls, key);
    CountersAgree(calls, key);
  }

  /** Announcing creations over an awaited deletion can end the wait too early: once the creation is seen,
      the controller counts as done while the deletion is still out. */
  lemma {:induction false} EarlyWake()
    ensures var calls := [ExpectDeletions("rs", ["a"], 0), ExpectCreations("rs", 1, 1), CreationObserved("rs")];
            Fulfilled(Run(calls), "rs") && Awaited(calls, "rs") == {"a"}
  {
    var c1 := [ExpectDeletions("rs", ["a"], 0)];
    var c2 := [ExpectDeletions("rs", ["a"], 0), ExpectCreations("rs", 1, 1)];
    var calls := [ExpectDeletions("rs", ["a"], 0), ExpectCreations("rs", 1, 1), CreationObserved("rs")];
    assert calls[..2] == c2 && c2[..1] == c1 && c1[..0] == [];
    assert ToSet(["a"]) == {"a"};
    assert Awaited(c1, "rs") == {"a"};
    assert Awaited(c2, "rs") == {"a"};
  }
}
