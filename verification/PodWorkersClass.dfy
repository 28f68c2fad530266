/** The pod workers as the kubelet runs them: a locked object whose methods update three maps, proved
    step by step against the protocol. The channels and goroutines are kept in the object, as the
    runtime would keep them. */
module PodWorkers {
  import opened Options
  import opened PodWorkerProtocol

  class PodWorkers {
    var podUpdates: map<UID, nat>
    var isWorking: map<UID, bool>
    var lastUndeliveredWorkUpdate: map<UID, Update>
    var channels: seq<Channel>

    function View(): State
      reads this
    {
      State(podUpdates, isWorking, lastUndeliveredWorkUpdate, channels)
    }

    ghost predicate Valid()
      reads this
    {
      Inv(View())
    }

    constructor ()
      ensures Valid() && View() == Initial
    {
      podUpdates := map[];
      isWorking := map[];
      lastUndeliveredWorkUpdate := map[];
      channels := [];
      new;
      InitialInv();
    }

    /** A send that goes through at once: the channel is open and empty. */
    method Send(ch: nat, u: Update)
      requires ch < |channels| && !channels[ch].closed && channels[ch].buffer.None?
      modifies this`channels
      ensures channels == old(channels)[ch := old(channels)[ch].(buffer := Some(u))]
    {
      channels := channels[ch := channels[ch].(buffer := Some(u))];
    }

    /** Closing an open channel. */
    method Close(ch: nat)
      requires ch < |channels| && !channels[ch].closed
      modifies this`channels
      ensures channels == old(channels)[ch := old(channels)[ch].(closed := true)]
    {
      channels := channels[ch := channels[ch].(closed := true)];
    }

    method UpdatePod(options: Update)
      requires Valid()
      modifies this
      ensures Valid() && Step(old(View()), Event.UpdatePod(options)) == Next(View())
    {
      AcceptSafe(View(), options);
      WithWorkerSafe(View(), options.uid);
      var uid := options.uid;
      if uid !in podUpdates {
        podUpdates := podUpdates[uid := |channels|];
        channels := channels + [Channel(uid, None, false, Waiting)];
      }
      assert View() == WithWorker(old(View()), uid);
      var idle := uid !in isWorking || !isWorking[uid];
      if idle {
        assert OneTokenFor(View(), uid) && !Holder(View(), uid, podUpdates[uid]);
        isWorking := isWorking[uid := true];
        Send(podUpdates[uid], options);
      } else if uid !in lastUndeliveredWorkUpdate || lastUndeliveredWorkUpdate[uid].kind != SyncPodKill {
        lastUndeliveredWorkUpdate := lastUndeliveredWorkUpdate[uid := options];
      }
    }

    method RemoveWorker(uid: UID)
      requires Valid()
      modifies this
      ensures Valid() && View() == Forget(old(View()), {uid})
    {
      ForgetSafe(View(), {uid});
      ForgetOne(View(), uid);
      if uid in podUpdates {
        Close(podUpdates[uid]);
        podUpdates := podUpdates - {uid};
        if uid in lastUndeliveredWorkUpdate {
          lastUndeliveredWorkUpdate := lastUndeliveredWorkUpdate - {uid};
        }
        assert lastUndeliveredWorkUpdate == old(lastUndeliveredWorkUpdate) - {uid};
      }
    }

    method ForgetWorker(uid: UID)
      requires Valid()
      modifies this
      ensures Valid() && Step(old(View()), Event.ForgetWorker(uid)) == Next(View())
      ensures podUpdates.Keys == old(podUpdates.Keys) - {uid}
      ensures forall c :: 0 <= c < |old(channels)| ==>
                |channels| == |old(channels)|
                && (channels[c].closed <==> old(channels)[c].closed || old(channels)[c].uid == uid)
    {
      ForgetsOne(View(), uid);
      ForgetSafe(View(), {uid});
      RemoveWorker(uid);
    }

    /** The keys are visited in an arbitrary order. */
    method ForgetNonExistingPodWorkers(desiredPods: set<UID>)
      requires Valid()
      modifies this
      ensures Valid() && Step(old(View()), Event.ForgetNonExistingPodWorkers(desiredPods)) == Next(View())
      ensures podUpdates.Keys == old(podUpdates.Keys) * desiredPods
      ensures forall u :: u in podUpdates ==> podUpdates[u] == old(podUpdates)[u]
      ensures forall c :: 0 <= c < |old(channels)| ==>
                |channels| == |old(channels)|
                && (channels[c].closed <==> old(channels)[c].closed || old(channels)[c].uid !in desiredPods)
    {
      ghost var s0 := View();
      var keys := podUpdates.Keys;
      ghost var gone: set<UID> := {};
      ForgetNone(s0);
      while keys != {}
        invariant Valid() && View() == Forget(s0, gone)
        invariant keys + gone <= s0.podUpdates.Keys && keys !! gone
        invariant keys + gone >= s0.podUpdates.Keys - desiredPods && gone !! desiredPods
        decreases keys
      {
        var key :| key in keys;
        if key !in desiredPods {
          RemoveWorker(key);
          ForgetMore(s0, gone, key);
          gone := gone + {key};
        }
        keys := keys - {key};
      }
      assert gone == s0.podUpdates.Keys - desiredPods;
      UndesiredForgotten(s0, desiredPods, View());
    }

    /** The range loop of managePodLoop takes the next update, also from a closed channel. */
    method Receive(c: nat) returns (update: Update)
      requires Valid() && Enabled(View(), Event.Receive(c))
      modifies this`channels
      ensures Valid() && Step(old(View()), Event.Receive(c)) == Next(View())
      ensures old(channels)[c].buffer == Some(update) && channels[c].worker == Syncing(update)
    {
      WorkerStepSafe(View(), Event.Receive(c));
      update := channels[c].buffer.value;
      channels := channels[c := channels[c].(buffer := None, worker := Syncing(update))];
    }

    /** The sync returned and the callback of the update was invoked. */
    method Finish(c: nat)
      requires Valid() && Enabled(View(), Event.Finish(c))
      modifies this`channels
      ensures Valid() && Step(old(View()), Event.Finish(c)) == Next(View())
    {
      WorkerStepSafe(View(), Event.Finish(c));
      channels := channels[c := channels[c].(worker := WrappingUp(channels[c].worker.update))];
    }

    /** The end of one turn of managePodLoop. */
    method WrapUp(c: nat)
      requires Valid() && Enabled(View(), Event.CheckForUpdates(c))
      modifies this
      ensures Valid() && Step(old(View()), Event.CheckForUpdates(c)) == Next(View())
    {
      GiveUpToken(View(), c);
      var uid := channels[c].worker.update.uid;
      channels := channels[c := channels[c].(worker := Waiting)];
      CheckForUpdates(uid);
    }

    method CheckForUpdates(uid: UID)
      requires ChannelsOk(View()) && RegistryOk(View()) && SlotsOk(View())
      requires Busy(View(), uid) && !SomeHolder(View(), uid)
      requires forall v :: v != uid ==> OneTokenFor(View(), v)
      modifies this
      ensures Valid() && Check(old(View()), uid) == Next(View())
    {
      if uid in lastUndeliveredWorkUpdate {
        DeliverSafe(View(), uid);
        assert !Holder(View(), uid, podUpdates[uid]);
        Send(podUpdates[uid], lastUndeliveredWorkUpdate[uid]);
        lastUndeliveredWorkUpdate := lastUndeliveredWorkUpdate - {uid};
      } else {
        BecomeIdleSafe(View(), uid);
        isWorking := isWorking[uid := false];
      }
    }
  }

  lemma {:induction false} ForgetOne(s: State, uid: UID)
    requires RegistryOk(s)
    ensures uid !in s.podUpdates ==> Forget(s, {uid}) == s
    ensures uid in s.podUpdates ==>
              var c := s.podUpdates[uid];
              Forget(s, {uid}) == s.(podUpdates := s.podUpdates - {uid},
                                     undelivered := s.undelivered - {uid},
                                     channels := s.channels[c := s.channels[c].(closed := true)])
  {
    var s' := Forget(s, {uid});
    if uid in s.podUpdates {
      var c := s.podUpdates[uid];
      assert s'.channels == s.channels[c := s.channels[c].(closed := true)];
      assert {uid} * s.podUpdates.Keys == {uid};
    } else {
      assert s'.channels == s.channels;
      assert {uid} * s.podUpdates.Keys == {};
      assert s'.podUpdates == s.podUpdates;
    }
  }

  lemma {:induction false} ForgetNone(s: State)
    ensures Forget(s, {}) == s
  {
  }

  lemma {:induction false} ForgetMore(s: State, gone: set<UID>, key: UID)
    requires RegistryOk(s) && key !in gone
    ensures Forget(Forget(s, gone), {key}) == Forget(s, gone + {key})
  {
    var a, b := Forget(Forget(s, gone), {key}), Forget(s, gone + {key});
    assert a.podUpdates == b.podUpdates;
    assert a.undelivered == b.undelivered;
    assert a.channels == b.channels;
  }
}
