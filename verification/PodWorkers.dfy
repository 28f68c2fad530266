/** The pod worker protocol: one goroutine and one one-slot channel per registered pod, a busy flag,
    and one slot for the update that waits for the worker. This file defines the protocol as a
    state machine whose sends and closes can block or panic, and proves that they never do. */
module PodWorkerProtocol {
  import opened Options

  type UID = string

  datatype SyncPodType = SyncPodSync | SyncPodUpdate | SyncPodCreate | SyncPodKill | SyncPodAction

  /** A request made with UpdatePod; the number stands for the options it carries. */
  datatype Update = Update(uid: UID, kind: SyncPodType, request: nat)

  /** What the goroutine that reads a channel is doing. */
  datatype Worker = Waiting | Syncing(update: Update) | WrappingUp(update: Update) | Exited

  /** A channel, the goroutine that reads it and the pod both were made for. */
  datatype Channel = Channel(uid: UID, buffer: Option<Update>, closed: bool, worker: Worker)

  /** The three maps, and every channel ever made, forgotten ones included. */
  datatype State = State(podUpdates: map<UID, nat>,
                         isWorking: map<UID, bool>,
                         undelivered: map<UID, Update>,
                         channels: seq<Channel>)

  /** Blocked: an operation under the lock that never returns. Disabled: the event cannot occur. */
  datatype Outcome = Next(state: State) | Blocked | Panicked | Disabled

  datatype Event =
    | UpdatePod(update: Update)
    | ForgetWorker(uid: UID)
    | ForgetNonExistingPodWorkers(desired: set<UID>)
    | Receive(c: nat)
    | Finish(c: nat)
    | CheckForUpdates(c: nat)
    | Exit(c: nat)

  const Initial := State(map[], map[], map[], [])

  // ----- operations -----

  /** A missing map entry reads as false. */
  predicate Busy(s: State, uid: UID) {
    uid in s.isWorking && s.isWorking[uid]
  }

  function Registered(s: State, uid: UID): Option<nat> {
    if uid in s.podUpdates then Some(s.podUpdates[uid]) else None
  }

  /** A send to a one-slot channel; a nil channel and a full one block, a closed one panics. */
  function Send(s: State, ch: Option<nat>, u: Update): Outcome {
    if ch.None? || |s.channels| <= ch.value then Blocked
    else if s.channels[ch.value].closed then Panicked
    else if s.channels[ch.value].buffer.Some? then Blocked
    else Next(s.(channels := s.channels[ch.value := s.channels[ch.value].(buffer := Some(u))]))
  }

  function WithWorker(s: State, uid: UID): State {
    if uid in s.podUpdates then s
    else s.(podUpdates := s.podUpdates[uid := |s.channels|],
            channels := s.channels + [Channel(uid, None, false, Waiting)])
  }

  predicate KillPending(s: State, uid: UID) {
    uid in s.undelivered && s.undelivered[uid].kind == SyncPodKill
  }

  function Accept(s: State, u: Update): Outcome {
    var s1 := WithWorker(s, u.uid);
    if !Busy(s1, u.uid) then
      Send(s1.(isWorking := s1.isWorking[u.uid := true]), Registered(s1, u.uid), u)
    else if KillPending(s1, u.uid) then Next(s1)
    else Next(s1.(undelivered := s1.undelivered[u.uid := u]))
  }

  /** Channel i is the one registered for a pod in gone. */
  predicate RegisteredFor(s: State, gone: set<UID>, i: nat)
    requires i < |s.channels|
  {
    s.channels[i].uid in gone && Registered(s, s.channels[i].uid) == Some(i)
  }

  /** Closes and unregisters the channels of the given pods and drops what waits for them. */
  function Forget(s: State, gone: set<UID>): State {
    s.(podUpdates := s.podUpdates - gone,
       undelivered := s.undelivered - (gone * s.podUpdates.Keys),
       channels := seq(|s.channels|, i requires 0 <= i < |s.channels| =>
         if RegisteredFor(s, gone, i) then s.channels[i].(closed := true) else s.channels[i]))
  }

  /** Closing a channel twice panics. */
  function TryForget(s: State, gone: set<UID>): Outcome {
    if exists i :: 0 <= i < |s.channels| && RegisteredFor(s, gone, i) && s.channels[i].closed then Panicked
    else Next(Forget(s, gone))
  }

  function SetWorker(s: State, c: nat, w: Worker): State
    requires c < |s.channels|
  {
    s.(channels := s.channels[c := s.channels[c].(worker := w)])
  }

  /** The last step of a sync of pod uid: hand over the waiting update, or become idle. */
  function Check(s: State, uid: UID): Outcome {
    if uid in s.undelivered then
      match Send(s, Registered(s, uid), s.undelivered[uid])
      case Next(s1) => Next(s1.(undelivered := s1.undelivered - {uid}))
      case o => o
    else Next(s.(isWorking := s.isWorking[uid := false]))
  }

  predicate Enabled(s: State, e: Event) {
    match e
    case UpdatePod(_) => true
    case ForgetWorker(_) => true
    case ForgetNonExistingPodWorkers(_) => true
    case Receive(c) => c < |s.channels| && s.channels[c].worker.Waiting? && s.channels[c].buffer.Some?
    case Finish(c) => c < |s.channels| && s.channels[c].worker.Syncing?
    case CheckForUpdates(c) => c < |s.channels| && s.channels[c].worker.WrappingUp?
    case Exit(c) => c < |s.channels| && s.channels[c].worker.Waiting? && s.channels[c].buffer.None?
                    && s.channels[c].closed
  }

  function Step(s: State, e: Event): Outcome {
    if !Enabled(s, e) then Disabled
    else match e
      case UpdatePod(u) => Accept(s, u)
      case ForgetWorker(uid) => TryForget(s, {uid})
      case ForgetNonExistingPodWorkers(desired) => TryForget(s, s.podUpdates.Keys - desired)
      case Receive(c) =>
        var ch := s.channels[c];
        Next(s.(channels := s.channels[c := ch.(buffer := None, worker := Syncing(ch.buffer.value))]))
      case Finish(c) => Next(SetWorker(s, c, WrappingUp(s.channels[c].worker.update)))
      case CheckForUpdates(c) => Check(SetWorker(s, c, Waiting), s.channels[c].worker.update.uid)
      case Exit(c) => Next(SetWorker(s, c, Exited))
  }

  function Exec(s: State, es: seq<Event>): Outcome {
    if es == [] then Next(s)
    else
      match Exec(s, es[..|es| - 1])
      case Next(s1) => Step(s1, es[|es| - 1])
      case o => o
  }

  // ----- the invariant -----

  /** The channel or its goroutine holds an update that is not wrapped up. */
  predicate HasToken(ch: Channel) {
    ch.buffer.Some? || ch.worker.Syncing? || ch.worker.WrappingUp?
  }

  predicate Holder(s: State, uid: UID, c: nat) {
    c < |s.channels| && s.channels[c].uid == uid && HasToken(s.channels[c])
  }

  predicate ChannelOk(ch: Channel) {
    && (ch.buffer.Some? ==> ch.buffer.value.uid == ch.uid && ch.worker.Waiting?)
    && (ch.worker.Syncing? || ch.worker.WrappingUp? ==> ch.worker.update.uid == ch.uid)
    && (ch.worker.Exited? ==> ch.closed)
  }

  /** The registered channels are exactly the open ones. */
  ghost predicate RegistryOk(s: State) {
    && (forall uid :: uid in s.podUpdates ==>
          && s.podUpdates[uid] < |s.channels|
          && s.channels[s.podUpdates[uid]].uid == uid
          && !s.channels[s.podUpdates[uid]].closed)
    && (forall c :: 0 <= c < |s.channels| && !s.channels[c].closed ==>
          Registered(s, s.channels[c].uid) == Some(c))
  }

  ghost predicate SomeHolder(s: State, uid: UID) {
    exists c :: Holder(s, uid, c)
  }

  /** The pod is busy exactly when one channel holds its token. */
  ghost predicate OneTokenFor(s: State, uid: UID) {
    && (forall c, d :: Holder(s, uid, c) && Holder(s, uid, d) ==> c == d)
    && (Busy(s, uid) <==> SomeHolder(s, uid))
  }

  ghost predicate OneToken(s: State) {
    forall uid :: OneTokenFor(s, uid)
  }

  ghost predicate SlotsOk(s: State) {
    forall uid :: uid in s.undelivered ==>
      uid in s.podUpdates && Busy(s, uid) && s.undelivered[uid].uid == uid
  }

  ghost predicate ChannelsOk(s: State) {
    forall c :: 0 <= c < |s.channels| ==> ChannelOk(s.channels[c])
  }

  ghost predicate Inv(s: State) {
    && ChannelsOk(s)
    && RegistryOk(s)
    && OneToken(s)
    && SlotsOk(s)
  }

  // ----- every step keeps it, and no send or close goes wrong -----

  /** Pods whose holders and busy flags do not change keep their one token. */
  lemma {:induction false} TokenFrame(s: State, s': State, uid: UID)
    requires OneTokenFor(s, uid)
    requires Busy(s', uid) == Busy(s, uid)
    requires forall c :: Holder(s', uid, c) <==> Holder(s, uid, c)
    ensures OneTokenFor(s', uid)
  {
    if SomeHolder(s, uid) {
      var c :| Holder(s, uid, c);
      assert Holder(s', uid, c);
    }
  }

  /** A send to the registered channel of a pod that is marked busy but whose token is nowhere: it
      goes through, and puts the token there. */
  lemma {:induction false} SendSafe(s: State, uid: UID, u: Update)
    requires ChannelsOk(s) && RegistryOk(s)
    requires uid in s.podUpdates && u.uid == uid && Busy(s, uid)
    requires !SomeHolder(s, uid) && forall v :: v != uid ==> OneTokenFor(s, v)
    ensures var o := Send(s, Registered(s, uid), u);
            o.Next? && ChannelsOk(o.state) && RegistryOk(o.state) && OneToken(o.state)
            && s.(channels := o.state.channels) == o.state
  {
    var c := s.podUpdates[uid];
    assert !Holder(s, uid, c);
    assert ChannelOk(s.channels[c]);
    var s' := Send(s, Registered(s, uid), u).state;
    forall v ensures OneTokenFor(s', v) {
      if v == uid {
        forall d | Holder(s', uid, d) ensures d == c {
          assert d == c || Holder(s, uid, d);
        }
        assert Holder(s', uid, c);
      } else {
        TokenFrame(s, s', v);
      }
    }
  }

  lemma {:induction false} WithWorkerSafe(s: State, uid: UID)
    requires Inv(s)
    ensures Inv(WithWorker(s, uid))
  {
    if uid !in s.podUpdates {
      var s1 := WithWorker(s, uid);
      NewChannelRegistered(s, uid);
      forall v ensures OneTokenFor(s1, v) { TokenFrame(s, s1, v); }
    }
  }

  lemma {:induction false} NewChannelRegistered(s: State, uid: UID)
    requires RegistryOk(s) && uid !in s.podUpdates
    ensures RegistryOk(WithWorker(s, uid))
  {
  }

  lemma {:induction false} AcceptIdleSafe(s1: State, u: Update)
    requires Inv(s1) && u.uid in s1.podUpdates && !Busy(s1, u.uid)
    ensures var o := Send(s1.(isWorking := s1.isWorking[u.uid := true]), Registered(s1, u.uid), u);
            o.Next? && Inv(o.state)
  {
    var s2 := s1.(isWorking := s1.isWorking[u.uid := true]);
    assert OneTokenFor(s1, u.uid);
    forall v | v != u.uid ensures OneTokenFor(s2, v) { TokenFrame(s1, s2, v); }
    forall c ensures !Holder(s2, u.uid, c) { assert !Holder(s1, u.uid, c); }
    SendSafe(s2, u.uid, u);
  }

  /** Nothing but the waiting slots changes. */
  lemma {:induction false} SlotChangeSafe(s: State, s': State)
    requires Inv(s) && s' == s.(undelivered := s'.undelivered) && SlotsOk(s')
    ensures Inv(s')
  {
    forall v ensures OneTokenFor(s', v) { TokenFrame(s, s', v); }
  }

  lemma {:induction false} AcceptSafe(s: State, u: Update)
    requires Inv(s)
    ensures Accept(s, u).Next? && Inv(Accept(s, u).state)
  {
    WithWorkerSafe(s, u.uid);
    var s1 := WithWorker(s, u.uid);
    if !Busy(s1, u.uid) {
      AcceptIdleSafe(s1, u);
    } else {
      SlotChangeSafe(s1, Accept(s, u).state);
    }
  }

  lemma {:induction false} ForgetSafe(s: State, gone: set<UID>)
    requires Inv(s)
    ensures TryForget(s, gone).Next? && Inv(Forget(s, gone))
  {
    var s' := Forget(s, gone);
    forall v ensures OneTokenFor(s', v) { TokenFrame(s, s', v); }
  }

  /** One channel changes, but neither its pod, nor whether it is closed, nor whether it has the token. */
  lemma {:induction false} ChannelChangeSafe(s: State, c: nat, ch: Channel)
    requires Inv(s) && c < |s.channels| && ChannelOk(ch)
    requires ch.uid == s.channels[c].uid && ch.closed == s.channels[c].closed && HasToken(ch) == HasToken(s.channels[c])
    ensures Inv(s.(channels := s.channels[c := ch]))
  {
    var s' := s.(channels := s.channels[c := ch]);
    forall v ensures OneTokenFor(s', v) { TokenFrame(s, s', v); }
  }

  lemma {:induction false} WorkerStepSafe(s: State, e: Event)
    requires Inv(s) && Enabled(s, e) && (e.Receive? || e.Finish? || e.Exit?)
    ensures Step(s, e).Next? && Inv(Step(s, e).state)
  {
    assert ChannelOk(s.channels[e.c]);
    ChannelChangeSafe(s, e.c, Step(s, e).state.channels[e.c]);
    assert Step(s, e).state == s.(channels := s.channels[e.c := Step(s, e).state.channels[e.c]]);
  }

  /** Between receiving and checking the goroutine holds the token; giving it up leaves none. */
  lemma {:induction false} GiveUpToken(s: State, c: nat)
    requires Inv(s) && Enabled(s, CheckForUpdates(c))
    ensures var s1 := SetWorker(s, c, Waiting);
            && ChannelsOk(s1) && RegistryOk(s1) && SlotsOk(s1)
            && s.channels[c].worker.update.uid == s.channels[c].uid
            && Busy(s1, s.channels[c].uid) && !SomeHolder(s1, s.channels[c].uid)
            && forall v :: v != s.channels[c].uid ==> OneTokenFor(s1, v)
  {
    var uid, s1 := s.channels[c].uid, SetWorker(s, c, Waiting);
    assert ChannelOk(s.channels[c]);
    assert Holder(s, uid, c) && OneTokenFor(s, uid);
    forall d ensures !Holder(s1, uid, d) {
      assert Holder(s1, uid, d) ==> Holder(s, uid, d);
    }
    forall v | v != uid ensures OneTokenFor(s1, v) { TokenFrame(s, s1, v); }
  }

  lemma {:induction false} DeliverSafe(s1: State, uid: UID)
    requires ChannelsOk(s1) && RegistryOk(s1) && SlotsOk(s1) && uid in s1.undelivered
    requires !SomeHolder(s1, uid) && forall v :: v != uid ==> OneTokenFor(s1, v)
    ensures Check(s1, uid).Next? && Inv(Check(s1, uid).state)
  {
    SendSafe(s1, uid, s1.undelivered[uid]);
    var s2 := Send(s1, Registered(s1, uid), s1.undelivered[uid]).state;
    SlotChangeSafe(s2, Check(s1, uid).state);
  }

  lemma {:induction false} BecomeIdleSafe(s1: State, uid: UID)
    requires ChannelsOk(s1) && RegistryOk(s1) && SlotsOk(s1) && uid !in s1.undelivered
    requires !SomeHolder(s1, uid) && forall v :: v != uid ==> OneTokenFor(s1, v)
    ensures Check(s1, uid).Next? && Inv(Check(s1, uid).state)
  {
    var s' := Check(s1, uid).state;
    forall v ensures OneTokenFor(s', v) {
      if v == uid {
        forall d ensures !Holder(s', v, d) { assert !Holder(s1, v, d); }
      } else {
        TokenFrame(s1, s', v);
      }
    }
  }

  lemma {:induction false} CheckSafe(s: State, c: nat)
    requires Inv(s) && Enabled(s, CheckForUpdates(c))
    ensures Step(s, CheckForUpdates(c)).Next? && Inv(Step(s, CheckForUpdates(c)).state)
  {
    GiveUpToken(s, c);
    var uid, s1 := s.channels[c].uid, SetWorker(s, c, Waiting);
    if uid in s1.undelivered { DeliverSafe(s1, uid); } else { BecomeIdleSafe(s1, uid); }
  }

  lemma {:induction false} StepSafe(s: State, e: Event)
    requires Inv(s)
    ensures !Step(s, e).Blocked? && !Step(s, e).Panicked?
    ensures Step(s, e).Next? ==> Inv(Step(s, e).state)
  {
    if Enabled(s, e) {
      match e
      case UpdatePod(u) => AcceptSafe(s, u);
      case ForgetWorker(uid) => ForgetSafe(s, {uid});
      case ForgetNonExistingPodWorkers(desired) => ForgetSafe(s, s.podUpdates.Keys - desired);
      case CheckForUpdates(c) => CheckSafe(s, c);
      case _ => WorkerStepSafe(s, e);
    }
  }

  /** In every interleaving no send or close under the lock blocks or panics, and the invariant holds
      in every state passed through. */
  lemma {:induction false} ExecSafe(s: State, es: seq<Event>)
    requires Inv(s)
    ensures !Exec(s, es).Blocked? && !Exec(s, es).Panicked?
    ensures Exec(s, es).Next? ==> Inv(Exec(s, es).state)
  {
    if es != [] {
      ExecSafe(s, es[..|es| - 1]);
      if Exec(s, es[..|es| - 1]).Next? {
        StepSafe(Exec(s, es[..|es| - 1]).state, es[|es| - 1]);
      }
    }
  }

  // ----- what the invariant says about tokens and overlap -----

  /** The places that hold work of one pod: buffers, and goroutines between receiving an update and
      checking for the next one. */
  ghost function BufferPlaces(s: State, uid: UID): set<nat> {
    set c | 0 <= c < |s.channels| && s.channels[c].uid == uid && s.channels[c].buffer.Some?
  }

  ghost function RunningPlaces(s: State, uid: UID): set<nat> {
    set c | 0 <= c < |s.channels| && s.channels[c].uid == uid
            && (s.channels[c].worker.Syncing? || s.channels[c].worker.WrappingUp?)
  }

  lemma {:induction false} PlacesCount(s: State, uid: UID)
    requires ChannelsOk(s) && OneTokenFor(s, uid)
    ensures |BufferPlaces(s, uid)| + |RunningPlaces(s, uid)| == if Busy(s, uid) then 1 else 0
  {
    var b, r := BufferPlaces(s, uid), RunningPlaces(s, uid);
    forall c ensures c in b || c in r <==> Holder(s, uid, c) { }
    if Busy(s, uid) {
      var c: nat :| Holder(s, uid, c);
      assert ChannelOk(s.channels[c]);
      if s.channels[c].buffer.Some? {
        assert b == {c} && r == {};
      } else {
        assert b == {} && r == {c};
      }
    } else {
      assert b == {} && r == {};
    }
  }

  /** In every reachable state a pod is marked busy exactly when one unit of its work exists across
      open buffers, closed buffers not yet drained, and running syncs; otherwise there is none. */
  lemma {:induction false} TokenCount(es: seq<Event>, uid: UID)
    requires Exec(Initial, es).Next?
    ensures var s := Exec(Initial, es).state;
            |BufferPlaces(s, uid)| + |RunningPlaces(s, uid)| == if Busy(s, uid) then 1 else 0
  {
    InitialInv();
    ExecSafe(Initial, es);
    PlacesCount(Exec(Initial, es).state, uid);
  }

  lemma {:induction false} InitialInv()
    ensures Inv(Initial)
  {
    forall uid ensures OneTokenFor(Initial, uid) { assert !SomeHolder(Initial, uid); }
  }

  /** Two goroutines never sync the same pod at once, not even when a worker is forgotten in the
      middle of a sync and made again. */
  lemma {:induction false} NoOverlap(es: seq<Event>, c: nat, d: nat)
    requires Exec(Initial, es).Next?
    requires c < d < |Exec(Initial, es).state.channels|
    ensures var s := Exec(Initial, es).state;
            s.channels[c].worker.Syncing? && s.channels[d].worker.Syncing? ==>
              s.channels[c].worker.update.uid != s.channels[d].worker.update.uid
  {
    InitialInv();
    ExecSafe(Initial, es);
    var s := Exec(Initial, es).state;
    assert OneTokenFor(s, s.channels[c].uid);
    if s.channels[c].worker.Syncing? && s.channels[d].worker.Syncing? {
      assert ChannelOk(s.channels[c]) && ChannelOk(s.channels[d]);
      assert Holder(s, s.channels[c].uid, c) && Holder(s, s.channels[d].uid, d);
    }
  }

  // ----- what the events do to the registry and the channels -----

  /** From s to t exactly the pods in kept stay registered and keep what waits for them, the open channels of all
      others are closed, and nothing else changes. */
  ghost predicate KeepsOnly(s: State, t: State, kept: set<UID>) {
    && t.podUpdates.Keys == s.podUpdates.Keys * kept
    && (forall u :: u in t.podUpdates ==> t.podUpdates[u] == s.podUpdates[u])
    && t.undelivered.Keys == s.undelivered.Keys * kept
    && (forall u :: u in t.undelivered ==> t.undelivered[u] == s.undelivered[u])
    && t.isWorking == s.isWorking && |t.channels| == |s.channels|
    && (forall c :: 0 <= c < |s.channels| ==>
          && (t.channels[c].closed <==> s.channels[c].closed || s.channels[c].uid !in kept)
          && t.channels[c] == s.channels[c].(closed := t.channels[c].closed))
  }

  /** Forgetting the workers of pods that do not exist keeps exactly the registered pods that are desired, and
      closes exactly the channels of pods that are not. */
  lemma {:induction false} ForgetsUndesired(s: State, desired: set<UID>)
    requires Inv(s)
    ensures var o := Step(s, ForgetNonExistingPodWorkers(desired)); o.Next? && KeepsOnly(s, o.state, desired)
  {
    ForgetSafe(s, s.podUpdates.Keys - desired);
    var t := Step(s, ForgetNonExistingPodWorkers(desired)).state;
    forall c | 0 <= c < |s.channels|
      ensures t.channels[c].closed <==> s.channels[c].closed || s.channels[c].uid !in desired
    {
      assert !s.channels[c].closed ==> Registered(s, s.channels[c].uid) == Some(c);
    }
  }

  lemma {:induction false} UndesiredForgotten(s: State, desired: set<UID>, t: State)
    requires Inv(s) && t == Forget(s, s.podUpdates.Keys - desired)
    ensures Step(s, ForgetNonExistingPodWorkers(desired)) == Next(t) && KeepsOnly(s, t, desired)
  {
    ForgetsUndesired(s, desired);
  }

  /** Forgetting one worker unregisters its pod, drops what waits for it, and closes its open channel. */
  lemma {:induction false} ForgetsOne(s: State, uid: UID)
    requires Inv(s)
    ensures var o := Step(s, ForgetWorker(uid));
            o.Next? && KeepsOnly(s, o.state, s.podUpdates.Keys + ChannelPods(s) - {uid})
  {
    ForgetSafe(s, {uid});
    var t, kept := Step(s, ForgetWorker(uid)).state, s.podUpdates.Keys + ChannelPods(s) - {uid};
    forall c | 0 <= c < |s.channels|
      ensures t.channels[c].closed <==> s.channels[c].closed || s.channels[c].uid !in kept
    {
      assert s.channels[c].uid in ChannelPods(s);
      assert !s.channels[c].closed ==> Registered(s, s.channels[c].uid) == Some(c);
    }
  }

  /** The pods that a channel was ever made for. */
  ghost function ChannelPods(s: State): set<UID> {
    set c | 0 <= c < |s.channels| :: s.channels[c].uid
  }

  /** An update registers its pod with an open channel of its own, and no other. */
  lemma {:induction false} UpdateRegisters(s: State, u: Update)
    requires Inv(s)
    ensures var o := Step(s, UpdatePod(u));
            && o.Next? && o.state.podUpdates.Keys == s.podUpdates.Keys + {u.uid}
            && (forall v :: v in s.podUpdates ==> o.state.podUpdates[v] == s.podUpdates[v])
            && o.state.podUpdates[u.uid] < |o.state.channels| && !o.state.channels[o.state.podUpdates[u.uid]].closed
            && o.state.channels[o.state.podUpdates[u.uid]].uid == u.uid
  {
    AcceptSafe(s, u);
    RegistersOne(s, u);
  }

  lemma {:induction false} RegistersOne(s: State, u: Update)
    requires Accept(s, u).Next?
    ensures var t := Accept(s, u).state;
            && t.podUpdates.Keys == s.podUpdates.Keys + {u.uid}
            && forall v :: v in s.podUpdates ==> t.podUpdates[v] == s.podUpdates[v]
  {
  }

  /** An update for an idle pod makes it busy and is in its channel. */
  lemma {:induction false} UpdateIdle(s: State, u: Update)
    requires Inv(s) && !(u.uid in s.isWorking && s.isWorking[u.uid])
    ensures var o := Step(s, UpdatePod(u));
            && o.Next? && u.uid in o.state.podUpdates && o.state.podUpdates[u.uid] < |o.state.channels|
            && o.state.channels[o.state.podUpdates[u.uid]].buffer == Some(u)
            && o.state.isWorking == s.isWorking[u.uid := true] && o.state.undelivered == s.undelivered
  {
    UpdateRegisters(s, u);
  }

  /** An update for a busy pod waits in its slot, unless a kill does; no channel gets it. */
  lemma {:induction false} UpdateBusy(s: State, u: Update)
    requires Inv(s) && u.uid in s.isWorking && s.isWorking[u.uid]
    ensures var o := Step(s, UpdatePod(u));
            && o.Next? && o.state.isWorking == s.isWorking && s.channels <= o.state.channels
            && o.state.undelivered == if u.uid in s.undelivered && s.undelivered[u.uid].kind == SyncPodKill
                                      then s.undelivered else s.undelivered[u.uid := u]
  {
    UpdateRegisters(s, u);
  }

  /** A goroutine exits exactly when its channel is closed and it has nothing left to do: the goroutine of a
      forgotten pod that is idle can exit at once, and one whose pod is registered never does. */
  lemma {:induction false} ExitsExactly(s: State, c: nat)
    requires Inv(s) && c < |s.channels|
    ensures Step(s, Exit(c)).Next? <==>
              s.channels[c].closed && s.channels[c].buffer.None? && s.channels[c].worker == Waiting
    ensures Step(s, Exit(c)).Next? ==> Step(s, Exit(c)).state.channels[c].worker == Exited
    ensures s.channels[c].closed && !Busy(s, s.channels[c].uid) && s.channels[c].worker != Exited ==>
              Step(s, Exit(c)).Next?
    ensures s.channels[c].uid in s.podUpdates && s.podUpdates[s.channels[c].uid] == c ==> !Step(s, Exit(c)).Next?
  {
    assert OneTokenFor(s, s.channels[c].uid);
    assert Holder(s, s.channels[c].uid, c) <==> HasToken(s.channels[c]);
  }
}
