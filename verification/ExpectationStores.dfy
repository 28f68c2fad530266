/** The expectation stores as objects: counters that are lowered in place behind a map, and the UID sets
    kept beside them. Each method is proved against the corresponding call of Expectations. */
module ExpectationStores {
  import opened Expectations

  class ControlleeExpectations {
    var add: int
    var del: int
    const timestamp: int

    constructor (add: int, del: int, timestamp: int)
      ensures Value() == Exp(add, del, timestamp)
    {
      this.add, this.del, this.timestamp := add, del, timestamp;
    }

    function Value(): Exp
      reads this
    {
      Exp(add, del, timestamp)
    }

    method Add(add: int, del: int)
      modifies this
      ensures Value() == Exp(old(this.add) + add, old(this.del) + del, timestamp)
    {
      this.add := this.add + add;
      this.del := this.del + del;
    }

    method IsFulfilled() returns (b: bool)
      ensures b <==> add <= 0 && del <= 0
    {
      b := add <= 0 && del <= 0;
    }
  }

  class UIDTrackingControllerExpectations {
    var store: map<Key, ControlleeExpectations>
    var uidStore: map<Key, set<string>>

    /** No two controllers share counters. */
    ghost predicate Valid()
      reads this
    {
      forall k, m :: k in store && m in store && k != m ==> store[k] != store[m]
    }

    ghost function Counters(): set<object>
      reads this
    {
      set k | k in store :: store[k]
    }

    ghost function View(): State
      reads this, Counters()
    {
      State(map k | k in store :: store[k].Value(), uidStore)
    }

    constructor ()
      ensures Valid() && View() == Initial && Counters() == {}
    {
      store, uidStore := map[], map[];
    }

    method SetExpectations(key: Key, add: int, del: int, now: int)
      requires Valid()
      modifies this`store
      ensures Valid() && fresh(Counters() - old(Counters()))
      ensures View() == Set(old(View()), key, Exp(add, del, now))
    {
      var exp := new ControlleeExpectations(add, del, now);
      assert exp !in Counters();
      forall k | k in store ensures store[k] != exp { assert store[k] in Counters(); }
      store := store[key := exp];
      assert View().store == Set(old(View()), key, Exp(add, del, now)).store;
    }

    method LowerExpectations(key: Key, add: int, del: int)
      requires Valid()
      modifies Counters()
      ensures Valid() && View() == Lower(old(View()), key, add, del)
    {
      if key in store {
        assert store[key] in Counters();
        store[key].Add(-add, -del);
        assert View().store == Lower(old(View()), key, add, del).store;
      }
    }

    method ExpectCreations(key: Key, adds: int, now: int)
      requires Valid()
      modifies this`store
      ensures Valid() && fresh(Counters() - old(Counters()))
      ensures View() == Apply(old(View()), Call.ExpectCreations(key, adds, now))
    {
      SetExpectations(key, adds, 0, now);
    }

    method ExpectDeletions(rcKey: Key, deletedKeys: seq<string>, now: int)
      requires Valid()
      modifies this
      ensures Valid() && fresh(Counters() - old(Counters()))
      ensures View() == Apply(old(View()), Call.ExpectDeletions(rcKey, deletedKeys, now))
    {
      var expectedUIDs := {};
      for i := 0 to |deletedKeys|
        invariant expectedUIDs == ToSet(deletedKeys[..i])
        invariant unchanged(this)
      {
        assert deletedKeys[..i + 1] == deletedKeys[..i] + [deletedKeys[i]];
        expectedUIDs := expectedUIDs + {deletedKeys[i]};
      }
      assert deletedKeys[..|deletedKeys|] == deletedKeys;
      uidStore := uidStore[rcKey := expectedUIDs];
      SetExpectations(rcKey, 0, |expectedUIDs|, now);
    }

    method CreationObserved(key: Key)
      requires Valid()
      modifies Counters()
      ensures Valid() && View() == Apply(old(View()), Call.CreationObserved(key))
    {
      LowerExpectations(key, 1, 0);
    }

    method DeletionObserved(rcKey: Key, deleteKey: string)
      requires Valid()
      modifies this`uidStore, Counters()
      ensures Valid() && View() == Apply(old(View()), Call.DeletionObserved(rcKey, deleteKey))
    {
      if rcKey in uidStore && deleteKey in uidStore[rcKey] {
        LowerExpectations(rcKey, 0, 1);
        uidStore := uidStore[rcKey := uidStore[rcKey] - {deleteKey}];
      }
    }

    method DeleteExpectations(rcKey: Key)
      requires Valid()
      modifies this
      ensures Valid() && Counters() <= old(Counters())
      ensures View() == Apply(old(View()), Call.DeleteExpectations(rcKey))
    {
      store := store - {rcKey};
      uidStore := uidStore - {rcKey};
      assert View().store == Apply(old(View()), Call.DeleteExpectations(rcKey)).store;
    }

    method SatisfiedExpectations(key: Key, now: int) returns (b: bool)
      requires Valid()
      ensures b <==> Satisfied(View(), key, now)
      ensures !b <==> key in store && (store[key].add > 0 || store[key].del > 0)
                      && now <= store[key].timestamp + 300_000_000_000
    {
      if key in store {
        b := store[key].IsFulfilled();
        if !b {
          b := now - store[key].timestamp > EXPECTATIONS_TIMEOUT;
        }
      } else {
        b := true;
      }
    }
  }
}
