/** What becomes of every request made to the pod workers: a ledger per pod over whole runs, the rule
    that picks the update a busy worker runs next, and how work in flight drains. */
module PodWorkerLedger {
  import opened Options
  import opened PodWorkerProtocol

  /** The requests of one pod: made, completed, overtaken by another request, dropped by a forget, and
      those that arrived since the worker was last handed one. */
  datatype Ledger = Ledger(submitted: seq<Update>,
                           completed: seq<Update>,
                           superseded: seq<Update>,
                           discarded: seq<Update>,
                           window: seq<Update>)

  function Opening(s: State, uid: UID): Ledger {
    Ledger([], [], [], [], if uid in s.undelivered then [s.undelivered[uid]] else [])
  }

  function Drop(l: Ledger, s: State, uid: UID): Ledger {
    if uid in s.podUpdates && uid in s.undelivered then
      l.(discarded := l.discarded + [s.undelivered[uid]], window := [])
    else l
  }

  /** The event is a forget that reaches pod uid. */
  predicate Forgets(e: Event, uid: UID) {
    (e.ForgetWorker? && e.uid == uid) || (e.ForgetNonExistingPodWorkers? && uid !in e.desired)
  }

  /** A registered pod is unregistered by exactly these events. */
  lemma {:induction false} ForgetsMeans(s: State, e: Event, uid: UID)
    requires Inv(s) && uid in s.podUpdates && Step(s, e).Next?
    ensures uid !in Step(s, e).state.podUpdates <==>
              e == ForgetWorker(uid) || (e.ForgetNonExistingPodWorkers? && uid !in e.desired)
    ensures uid !in Step(s, e).state.podUpdates <==> Forgets(e, uid)
  {
    match e
    case UpdatePod(u) => UpdateRegisters(s, u);
    case ForgetWorker(v) => ForgetsOne(s, v);
    case ForgetNonExistingPodWorkers(desired) => ForgetsUndesired(s, desired);
    case _ =>
  }

  /** The event is a step of a goroutine on pod uid. */
  predicate WorksOn(s: State, e: Event, uid: UID) {
    (e.Receive? || e.Finish? || e.CheckForUpdates?) && e.c < |s.channels| && s.channels[e.c].uid == uid
  }

  function Record(l: Ledger, s: State, e: Event, uid: UID): Ledger
    requires Enabled(s, e)
  {
    if Forgets(e, uid) then Drop(l, s, uid)
    else if e.UpdatePod? && e.update.uid == uid then
      var l1 := l.(submitted := l.submitted + [e.update]);
      if !Busy(s, uid) then l1
      else l1.(window := l.window + [e.update],
               superseded := l.superseded + if uid !in s.undelivered then []
                                            else if KillPending(s, uid) then [e.update]
                                            else [s.undelivered[uid]])
    else if e.Finish? && WorksOn(s, e, uid) then
      l.(completed := l.completed + [s.channels[e.c].worker.update])
    else if e.CheckForUpdates? && WorksOn(s, e, uid) then l.(window := [])
    else l
  }

  /** The ledger of pod uid over a run from s. */
  function Account(s: State, es: seq<Event>, uid: UID): Ledger {
    if es == [] then Opening(s, uid)
    else
      var front, e := es[..|es| - 1], es[|es| - 1];
      var l := Account(s, front, uid);
      if Exec(s, front).Next? && Enabled(Exec(s, front).state, e) then Record(l, Exec(s, front).state, e, uid)
      else l
  }

  // ----- the update that waits -----

  function FirstKill(w: seq<Update>): (k: nat)
    ensures k <= |w|
    ensures forall i :: 0 <= i < k ==> w[i].kind != SyncPodKill
    ensures k < |w| ==> w[k].kind == SyncPodKill
  {
    if w == [] || w[0].kind == SyncPodKill then 0 else 1 + FirstKill(w[1..])
  }

  /** The first kill if there is one, otherwise the latest request. */
  function Chosen(w: seq<Update>): Update
    requires w != []
  {
    if FirstKill(w) < |w| then w[FirstKill(w)] else w[|w| - 1]
  }

  ghost predicate SlotIsChosen(s: State, l: Ledger, uid: UID) {
    && (uid in s.undelivered <==> l.window != [])
    && (uid in s.undelivered ==> s.undelivered[uid] == Chosen(l.window))
  }

  lemma {:induction false} FirstKillUnique(w: seq<Update>, k: nat)
    requires k <= |w|
    requires forall i :: 0 <= i < k ==> w[i].kind != SyncPodKill
    requires k < |w| ==> w[k].kind == SyncPodKill
    ensures FirstKill(w) == k
  {
  }

  lemma {:induction false} ChosenSnoc(w: seq<Update>, u: Update)
    ensures w == [] ==> Chosen(w + [u]) == u
    ensures w != [] && Chosen(w).kind == SyncPodKill ==> Chosen(w + [u]) == Chosen(w)
    ensures w != [] && Chosen(w).kind != SyncPodKill ==> Chosen(w + [u]) == u
  {
    var k := FirstKill(w);
    if k < |w| {
      FirstKillUnique(w + [u], k);
    } else {
      FirstKillUnique(w + [u], if u.kind == SyncPodKill then |w| else |w| + 1);
    }
  }

  lemma {:induction false} SlotAccept(s: State, l: Ledger, u: Update, uid: UID)
    requires Inv(s) && SlotIsChosen(s, l, uid) && Accept(s, u).Next?
    ensures SlotIsChosen(Accept(s, u).state, Record(l, s, UpdatePod(u), uid), uid)
  {
    ChosenSnoc(l.window, u);
    var s' := Accept(s, u).state;
    if u.uid == uid && Busy(s, uid) && !KillPending(s, uid) {
      assert s'.undelivered == s.undelivered[uid := u];
    } else if u.uid != uid && Busy(s, u.uid) {
      assert uid in s'.undelivered <==> uid in s.undelivered;
    } else {
      assert s'.undelivered == s.undelivered;
    }
  }

  /** A check takes the waiting update of its pod and leaves those of others. */
  lemma {:induction false} CheckSlots(s: State, c: nat)
    requires Inv(s) && Enabled(s, CheckForUpdates(c))
    ensures Step(s, CheckForUpdates(c)).Next?
    ensures Step(s, CheckForUpdates(c)).state.undelivered == s.undelivered - {s.channels[c].uid}
  {
    CheckSafe(s, c);
    assert ChannelOk(s.channels[c]);
    CheckTakes(SetWorker(s, c, Waiting), s.channels[c].uid);
  }

  lemma {:induction false} CheckTakes(s: State, uid: UID)
    requires Check(s, uid).Next?
    ensures Check(s, uid).state.undelivered == s.undelivered - {uid}
  {
    assert uid !in s.undelivered ==> s.undelivered - {uid} == s.undelivered;
  }

  lemma {:induction false} SlotCheck(s: State, l: Ledger, c: nat, uid: UID)
    requires Inv(s) && SlotIsChosen(s, l, uid) && Enabled(s, CheckForUpdates(c))
    ensures Step(s, CheckForUpdates(c)).Next?
    ensures SlotIsChosen(Step(s, CheckForUpdates(c)).state, Record(l, s, CheckForUpdates(c), uid), uid)
  {
    CheckSlots(s, c);
    SlotGone(s, l, c, uid, Step(s, CheckForUpdates(c)).state);
  }

  lemma {:induction false} SlotGone(s: State, l: Ledger, c: nat, uid: UID, s': State)
    requires c < |s.channels| && Enabled(s, CheckForUpdates(c)) && SlotIsChosen(s, l, uid)
    requires s'.undelivered == s.undelivered - {s.channels[c].uid}
    ensures SlotIsChosen(s', Record(l, s, CheckForUpdates(c), uid), uid)
  {
  }

  lemma {:induction false} SlotStep(s: State, l: Ledger, e: Event, uid: UID)
    requires Inv(s) && SlotIsChosen(s, l, uid) && Step(s, e).Next?
    ensures SlotIsChosen(Step(s, e).state, Record(l, s, e, uid), uid)
  {
    match e
    case UpdatePod(u) => SlotAccept(s, l, u, uid);
    case CheckForUpdates(c) => SlotCheck(s, l, c, uid);
    case _ =>
  }

  /** In every run the update kept for a busy worker is the first kill requested since its last
      delivery if there was one, otherwise the most recent request; and none is kept exactly when
      none arrived since. */
  lemma {:induction false} SlotAlwaysChosen(s: State, es: seq<Event>, uid: UID)
    requires Inv(s) && Exec(s, es).Next?
    ensures SlotIsChosen(Exec(s, es).state, Account(s, es, uid), uid)
  {
    if es != [] {
      var front, e := es[..|es| - 1], es[|es| - 1];
      ExecSafe(s, front);
      SlotAlwaysChosen(s, front, uid);
      SlotStep(Exec(s, front).state, Account(s, front, uid), e, uid);
    } else {
      FirstKillUnique([], 0);
      if uid in s.undelivered {
        var u := s.undelivered[uid];
        FirstKillUnique([u], if u.kind == SyncPodKill then 0 else 1);
      }
    }
  }

  /** What a check with something waiting puts into the registered channel is that choice. */
  lemma {:induction false} DeliversChosen(s: State, es: seq<Event>, c: nat)
    requires Inv(s) && Exec(s, es).Next? && Enabled(Exec(s, es).state, CheckForUpdates(c))
    ensures var s1 := Exec(s, es).state;
            var uid, o := s1.channels[c].uid, Step(s1, CheckForUpdates(c));
            var w := Account(s, es, uid).window;
            && o.Next?
            && (w == [] ==> !Busy(o.state, uid))
            && (w != [] ==> uid in s1.podUpdates && s1.podUpdates[uid] < |o.state.channels|
                            && o.state.channels[s1.podUpdates[uid]].buffer == Some(Chosen(w)))
  {
    ExecSafe(s, es);
    var s1 := Exec(s, es).state;
    SlotAlwaysChosen(s, es, s1.channels[c].uid);
    GiveUpToken(s1, c);
    CheckSafe(s1, c);
  }

  // ----- conservation -----

  function Held(ch: Channel): multiset<Update> {
    if ch.buffer.Some? then multiset{ch.buffer.value}
    else if ch.worker.Syncing? then multiset{ch.worker.update}
    else multiset{}
  }

  ghost function InFlight(s: State, uid: UID): multiset<Update> {
    if SomeHolder(s, uid) then
      var c: nat :| Holder(s, uid, c);
      Held(s.channels[c])
    else multiset{}
  }

  function InSlot(s: State, uid: UID): multiset<Update> {
    if uid in s.undelivered then multiset{s.undelivered[uid]} else multiset{}
  }

  /** Buffered, running or waiting. */
  ghost function Outstanding(s: State, uid: UID): multiset<Update> {
    InFlight(s, uid) + InSlot(s, uid)
  }

  function Settled(l: Ledger): multiset<Update> {
    multiset(l.completed) + multiset(l.superseded) + multiset(l.discarded)
  }

  lemma {:induction false} InFlightAt(s: State, uid: UID, c: nat)
    requires OneTokenFor(s, uid) && Holder(s, uid, c)
    ensures InFlight(s, uid) == Held(s.channels[c])
  {
  }

  lemma {:induction false} InFlightFrame(s: State, s': State, uid: UID)
    requires OneTokenFor(s, uid) && OneTokenFor(s', uid)
    requires forall c: nat :: Holder(s, uid, c) <==> Holder(s', uid, c)
    requires forall c: nat :: Holder(s, uid, c) ==> Held(s.channels[c]) == Held(s'.channels[c])
    ensures InFlight(s, uid) == InFlight(s', uid)
  {
    if SomeHolder(s, uid) {
      var c: nat :| Holder(s, uid, c);
      InFlightAt(s, uid, c);
      InFlightAt(s', uid, c);
    } else {
      forall c ensures !Holder(s', uid, c) { assert !Holder(s, uid, c); }
    }
  }

  /** What was made or owed before is settled or owed after. */
  ghost predicate Balance(l: Ledger, owed: multiset<Update>, l': Ledger, owed': multiset<Update>) {
    Settled(l') + owed' + multiset(l.submitted) == Settled(l) + owed + multiset(l'.submitted)
  }

  ghost predicate Balanced(s: State, l: Ledger, s': State, l': Ledger, uid: UID) {
    Balance(l, Outstanding(s, uid), l', Outstanding(s', uid))
  }

  lemma {:induction false} SettleOne(l: Ledger, u: Update)
    ensures Settled(l.(completed := l.completed + [u])) == Settled(l) + multiset{u}
    ensures Settled(l.(superseded := l.superseded + [u])) == Settled(l) + multiset{u}
    ensures Settled(l.(discarded := l.discarded + [u])) == Settled(l) + multiset{u}
  {
  }

  /** Updates of pod uid stay where they are when neither its holders nor what they hold change. */
  lemma {:induction false} FlightForget(s: State, gone: set<UID>, uid: UID)
    requires Inv(s)
    ensures InFlight(Forget(s, gone), uid) == InFlight(s, uid)
  {
    ForgetSafe(s, gone);
    var s' := Forget(s, gone);
    assert OneTokenFor(s, uid) && OneTokenFor(s', uid);
    InFlightFrame(s, s', uid);
  }

  lemma {:induction false} AcceptHolders(s: State, u: Update, uid: UID)
    requires Inv(s) && Accept(s, u).Next? && !(u.uid == uid && !Busy(s, uid))
    ensures var s' := Accept(s, u).state;
            && (forall c: nat :: Holder(s, uid, c) <==> Holder(s', uid, c))
            && (forall c: nat :: Holder(s, uid, c) ==> s.channels[c] == s'.channels[c])
  {
  }

  lemma {:induction false} FlightAccept(s: State, u: Update, uid: UID)
    requires Inv(s)
    ensures Accept(s, u).Next?
    ensures InFlight(Accept(s, u).state, uid)
              == if u.uid == uid && !Busy(s, uid) then multiset{u} else InFlight(s, uid)
  {
    AcceptSafe(s, u);
    var s' := Accept(s, u).state;
    assert OneTokenFor(s, uid) && OneTokenFor(s', uid);
    if u.uid == uid && !Busy(s, uid) {
      FlightAcceptIdle(s, u);
    } else {
      AcceptHolders(s, u, uid);
      InFlightFrame(s, s', uid);
    }
  }

  lemma {:induction false} FlightAcceptIdle(s: State, u: Update)
    requires !Busy(s, u.uid) && Accept(s, u).Next? && OneTokenFor(Accept(s, u).state, u.uid)
    requires forall v :: v in s.podUpdates ==> s.podUpdates[v] < |s.channels| && s.channels[s.podUpdates[v]].uid == v
    ensures InFlight(Accept(s, u).state, u.uid) == multiset{u}
  {
    var s' := Accept(s, u).state;
    assert Holder(s', u.uid, s'.podUpdates[u.uid]);
    InFlightAt(s', u.uid, s'.podUpdates[u.uid]);
  }

  /** A goroutine step on a channel leaves the channel with its pod and its token, and other channels alone. */
  lemma {:induction false} WorkerMoves(s: State, e: Event)
    requires Inv(s) && Step(s, e).Next? && (e.Receive? || e.Finish? || e.Exit?)
    ensures var s' := Step(s, e).state;
            && e.c < |s.channels| == |s'.channels|
            && s'.channels == s.channels[e.c := s'.channels[e.c]]
            && s'.channels[e.c].uid == s.channels[e.c].uid && HasToken(s'.channels[e.c]) == HasToken(s.channels[e.c])
            && (!e.Exit? ==> HasToken(s.channels[e.c]))
            && Held(s.channels[e.c]) == Held(s'.channels[e.c])
                 + if e.Finish? then multiset{s.channels[e.c].worker.update} else multiset{}
  {
    assert ChannelOk(s.channels[e.c]);
  }

  /** One channel gives up what it has done and keeps its token. */
  lemma {:induction false} FlightOneChannel(s: State, s': State, c: nat, done: multiset<Update>, uid: UID)
    requires OneTokenFor(s, uid) && OneTokenFor(s', uid)
    requires c < |s.channels| == |s'.channels| && s'.channels == s.channels[c := s'.channels[c]]
    requires s'.channels[c].uid == s.channels[c].uid && HasToken(s'.channels[c]) == HasToken(s.channels[c])
    requires Held(s.channels[c]) == Held(s'.channels[c]) + done
    requires done != multiset{} ==> HasToken(s.channels[c])
    ensures InFlight(s, uid) == InFlight(s', uid) + if s.channels[c].uid == uid then done else multiset{}
  {
    if Holder(s, uid, c) {
      InFlightAt(s, uid, c);
      InFlightAt(s', uid, c);
    } else {
      InFlightFrame(s, s', uid);
    }
  }

  lemma {:induction false} FlightWorker(s: State, e: Event, uid: UID)
    requires Inv(s) && Step(s, e).Next? && (e.Receive? || e.Finish? || e.Exit?)
    ensures var s' := Step(s, e).state;
            InFlight(s, uid) == InFlight(s', uid)
              + if e.Finish? && WorksOn(s, e, uid) then multiset{s.channels[e.c].worker.update} else multiset{}
  {
    WorkerStepSafe(s, e);
    WorkerMoves(s, e);
    var s' := Step(s, e).state;
    assert OneTokenFor(s, uid) && OneTokenFor(s', uid);
    FlightOneChannel(s, s', e.c, if e.Finish? then multiset{s.channels[e.c].worker.update} else multiset{}, uid);
  }

  /** A check of another pod changes nothing for this one; a check of this pod moves its slot into
      the registered channel. */
  lemma {:induction false} CheckMoves(s: State, c: nat, uid: UID)
    requires Inv(s) && Enabled(s, CheckForUpdates(c)) && Step(s, CheckForUpdates(c)).Next?
    ensures var s' := Step(s, CheckForUpdates(c)).state;
            && s'.undelivered == s.undelivered - {s.channels[c].uid}
            && (s.channels[c].uid != uid ==> forall d: nat :: Holder(s, uid, d) <==> Holder(s', uid, d))
            && (s.channels[c].uid != uid ==> forall d: nat :: Holder(s, uid, d) ==> s.channels[d] == s'.channels[d])
            && (s.channels[c].uid in s.undelivered ==>
                  var v := s.channels[c].uid;
                  v in s.podUpdates && Holder(s', v, s.podUpdates[v])
                  && s'.channels[s.podUpdates[v]].buffer == Some(s.undelivered[v]))
  {
    assert ChannelOk(s.channels[c]);
    assert s.channels[c].uid !in s.undelivered ==> s.undelivered - {s.channels[c].uid} == s.undelivered;
  }

  lemma {:induction false} FlightCheck(s: State, c: nat, uid: UID)
    requires Inv(s) && Enabled(s, CheckForUpdates(c))
    ensures Step(s, CheckForUpdates(c)).Next?
    ensures var s' := Step(s, CheckForUpdates(c)).state;
            if s.channels[c].uid == uid
            then InFlight(s, uid) == multiset{} && InFlight(s', uid) == InSlot(s, uid) && uid !in s'.undelivered
            else InFlight(s, uid) == InFlight(s', uid) && InSlot(s, uid) == InSlot(s', uid)
  {
    CheckSafe(s, c);
    CheckMoves(s, c, uid);
    var s' := Step(s, CheckForUpdates(c)).state;
    assert OneTokenFor(s, uid) && OneTokenFor(s', uid);
    if s.channels[c].uid == uid {
      assert ChannelOk(s.channels[c]);
      InFlightAt(s, uid, c);
      if uid in s.undelivered {
        InFlightAt(s', uid, s.podUpdates[uid]);
      } else {
        GiveUpToken(s, c);
        assert !Busy(s', uid);
      }
    } else {
      InFlightFrame(s, s', uid);
    }
  }

  /** Balance, from what a step settles, makes, and moves. */
  lemma {:induction false} BalanceFrom(l: Ledger, owed: multiset<Update>, l': Ledger, owed': multiset<Update>,
                                       settled: multiset<Update>, made: multiset<Update>)
    requires Settled(l') == Settled(l) + settled
    requires multiset(l'.submitted) == multiset(l.submitted) + made
    requires owed + made == owed' + settled
    ensures Balance(l, owed, l', owed')
  {
    forall u ensures (Settled(l') + owed' + multiset(l.submitted))[u]
                  == (Settled(l) + owed + multiset(l'.submitted))[u] {
      assert (owed + made)[u] == (owed' + settled)[u];
    }
  }

  lemma {:induction false} ForgetBalanced(s: State, l: Ledger, e: Event, gone: set<UID>, uid: UID)
    requires Inv(s) && Step(s, e).Next?
    requires (e.ForgetWorker? && gone == {e.uid})
             || (e.ForgetNonExistingPodWorkers? && gone == s.podUpdates.Keys - e.desired)
    ensures Balanced(s, l, Step(s, e).state, Record(l, s, e, uid), uid)
  {
    assert Step(s, e).state == Forget(s, gone);
    FlightForget(s, gone, uid);
    ForgetRecord(s, l, e, gone, InFlight(s, uid), uid);
  }

  lemma {:induction false} ForgetRecord(s: State, l: Ledger, e: Event, gone: set<UID>, f: multiset<Update>, uid: UID)
    requires uid in s.undelivered ==> uid in s.podUpdates
    requires (e.ForgetWorker? && gone == {e.uid})
             || (e.ForgetNonExistingPodWorkers? && gone == s.podUpdates.Keys - e.desired)
    ensures Balance(l, f + InSlot(s, uid), Record(l, s, e, uid), f + InSlot(Forget(s, gone), uid))
  {
    var l', s' := Record(l, s, e, uid), Forget(s, gone);
    if Forgets(e, uid) && uid in s.undelivered {
      SettleOne(l, s.undelivered[uid]);
      assert l' == l.(discarded := l.discarded + [s.undelivered[uid]], window := []);
      BalanceFrom(l, f + InSlot(s, uid), l', f + InSlot(s', uid), multiset{s.undelivered[uid]}, multiset{});
    } else {
      assert l' == l && InSlot(s', uid) == InSlot(s, uid);
    }
  }

  lemma {:induction false} AcceptBalanced(s: State, l: Ledger, u: Update, uid: UID)
    requires Inv(s)
    ensures Step(s, UpdatePod(u)).Next?
    ensures Balanced(s, l, Step(s, UpdatePod(u)).state, Record(l, s, UpdatePod(u), uid), uid)
  {
    FlightAccept(s, u, uid);
    AcceptSlot(s, u, uid);
    assert OneTokenFor(s, uid);
    var s' := Accept(s, u).state;
    AcceptRecord(s, l, u, InFlight(s, uid), InFlight(s', uid), InSlot(s', uid), uid);
  }

  lemma {:induction false} AcceptSlot(s: State, u: Update, uid: UID)
    requires Accept(s, u).Next? && SlotsOk(s)
    ensures InSlot(Accept(s, u).state, uid)
              == if u.uid == uid && Busy(s, uid) && !KillPending(s, uid) then multiset{u} else InSlot(s, uid)
  {
  }

  lemma {:induction false} AcceptRecord(s: State, l: Ledger, u: Update, f: multiset<Update>, f': multiset<Update>,
                                        g': multiset<Update>, uid: UID)
    requires uid in s.undelivered ==> Busy(s, uid)
    requires !Busy(s, uid) ==> f == multiset{}
    requires f' == if u.uid == uid && !Busy(s, uid) then multiset{u} else f
    requires g' == if u.uid == uid && Busy(s, uid) && !KillPending(s, uid) then multiset{u} else InSlot(s, uid)
    ensures Balance(l, f + InSlot(s, uid), Record(l, s, UpdatePod(u), uid), f' + g')
  {
    if u.uid == uid {
      if Busy(s, uid) && uid in s.undelivered {
        AcceptOvertaking(s, l, u, f);
      } else {
        AcceptFresh(s, l, u, f, f' + g');
      }
    }
  }

  lemma {:induction false} AcceptOvertaking(s: State, l: Ledger, u: Update, f: multiset<Update>)
    requires Busy(s, u.uid) && u.uid in s.undelivered
    ensures var x := s.undelivered[u.uid];
            Balance(l, f + multiset{x}, Record(l, s, UpdatePod(u), u.uid),
                    f + if KillPending(s, u.uid) then multiset{x} else multiset{u})
  {
    var l', x := Record(l, s, UpdatePod(u), u.uid), s.undelivered[u.uid];
    var loser, winner := if KillPending(s, u.uid) then u else x, if KillPending(s, u.uid) then x else u;
    SettleOne(l, loser);
    assert Settled(l') == Settled(l.(superseded := l.superseded + [loser]));
    assert f + multiset{x} + multiset{u} == f + multiset{winner} + multiset{loser};
    BalanceFrom(l, f + multiset{x}, l', f + multiset{winner}, multiset{loser}, multiset{u});
  }

  lemma {:induction false} AcceptFresh(s: State, l: Ledger, u: Update, f: multiset<Update>, owed': multiset<Update>)
    requires u.uid !in s.undelivered && owed' == f + multiset{u}
    ensures Balance(l, f + multiset{}, Record(l, s, UpdatePod(u), u.uid), owed')
  {
    var l' := Record(l, s, UpdatePod(u), u.uid);
    assert Settled(l') == Settled(l) + multiset{};
    assert f + multiset{} + multiset{u} == owed' + multiset{};
    BalanceFrom(l, f + multiset{}, l', owed', multiset{}, multiset{u});
  }

  lemma {:induction false} WorkerBalanced(s: State, l: Ledger, e: Event, uid: UID)
    requires Inv(s) && Step(s, e).Next? && (e.Receive? || e.Finish? || e.Exit?)
    ensures Balanced(s, l, Step(s, e).state, Record(l, s, e, uid), uid)
  {
    FlightWorker(s, e, uid);
    var s' := Step(s, e).state;
    WorkerRecord(s, l, e, InFlight(s, uid), InFlight(s', uid), uid);
    assert InSlot(s', uid) == InSlot(s, uid);
  }

  lemma {:induction false} WorkerRecord(s: State, l: Ledger, e: Event, f: multiset<Update>, f': multiset<Update>,
                                        uid: UID)
    requires Enabled(s, e) && (e.Receive? || e.Finish? || e.Exit?)
    requires f == f' + if e.Finish? && WorksOn(s, e, uid) then multiset{s.channels[e.c].worker.update} else multiset{}
    ensures Balance(l, f + InSlot(s, uid), Record(l, s, e, uid), f' + InSlot(s, uid))
  {
    if e.Finish? && WorksOn(s, e, uid) {
      FinishRecord(l, s.channels[e.c].worker.update, f', InSlot(s, uid));
      assert Record(l, s, e, uid) == l.(completed := l.completed + [s.channels[e.c].worker.update]);
    } else {
      assert Record(l, s, e, uid) == l && f == f';
    }
  }

  lemma {:induction false} FinishRecord(l: Ledger, u: Update, f: multiset<Update>, g: multiset<Update>)
    ensures Balance(l, f + multiset{u} + g, l.(completed := l.completed + [u]), f + g)
  {
    SettleOne(l, u);
    assert f + multiset{u} + g + multiset{} == f + g + multiset{u};
    BalanceFrom(l, f + multiset{u} + g, l.(completed := l.completed + [u]), f + g, multiset{u}, multiset{});
  }

  lemma {:induction false} CheckBalanced(s: State, l: Ledger, c: nat, uid: UID)
    requires Inv(s) && Enabled(s, CheckForUpdates(c))
    ensures Step(s, CheckForUpdates(c)).Next?
    ensures Balanced(s, l, Step(s, CheckForUpdates(c)).state, Record(l, s, CheckForUpdates(c), uid), uid)
  {
    FlightCheck(s, c, uid);
  }

  lemma {:induction false} StepBalanced(s: State, l: Ledger, e: Event, uid: UID)
    requires Inv(s) && Step(s, e).Next?
    ensures Balanced(s, l, Step(s, e).state, Record(l, s, e, uid), uid)
  {
    match e
    case UpdatePod(u) => AcceptBalanced(s, l, u, uid);
    case ForgetWorker(v) => ForgetBalanced(s, l, e, {v}, uid);
    case ForgetNonExistingPodWorkers(desired) => ForgetBalanced(s, l, e, s.podUpdates.Keys - desired, uid);
    case CheckForUpdates(c) => CheckBalanced(s, l, c, uid);
    case _ => WorkerBalanced(s, l, e, uid);
  }

  /** Over every run, each request made or owed at the start is exactly one of completed, overtaken,
      discarded by a forget, buffered, running or waiting at the end. */
  lemma {:induction false} Conservation(s: State, es: seq<Event>, uid: UID)
    requires Inv(s) && Exec(s, es).Next?
    ensures var l := Account(s, es, uid);
            Outstanding(s, uid) + multiset(l.submitted)
              == Settled(l) + Outstanding(Exec(s, es).state, uid)
  {
    if es != [] {
      var front, e := es[..|es| - 1], es[|es| - 1];
      ExecSafe(s, front);
      Conservation(s, front, uid);
      var s1, s2 := Exec(s, front).state, Exec(s, es).state;
      var l1, l2 := Account(s, front, uid), Account(s, es, uid);
      StepBalanced(s1, l1, e, uid);
      Chain(Outstanding(s, uid), Outstanding(s1, uid), Outstanding(s2, uid),
            Settled(l1), Settled(l2), multiset(l1.submitted), multiset(l2.submitted));
    }
  }

  lemma {:induction false} Chain(owed0: multiset<Update>, owed1: multiset<Update>, owed2: multiset<Update>,
                                 settled1: multiset<Update>, settled2: multiset<Update>, made1: multiset<Update>,
                                 made2: multiset<Update>)
    requires owed0 + made1 == settled1 + owed1
    requires settled2 + owed2 + made1 == settled1 + owed1 + made2
    ensures owed0 + made2 == settled2 + owed2
  {
    forall u ensures (owed0 + made2)[u] == (settled2 + owed2)[u] {
      assert (owed0 + made1)[u] == (settled1 + owed1)[u];
      assert (settled2 + owed2 + made1)[u] == (settled1 + owed1 + made2)[u];
    }
  }

  // ----- draining -----

  predicate Internal(e: Event) {
    e.Receive? || e.Finish? || e.CheckForUpdates? || e.Exit?
  }

  function StageOf(ch: Channel): nat {
    if ch.buffer.Some? then 3 else if ch.worker.Syncing? then 2 else if ch.worker.WrappingUp? then 1 else 0
  }

  ghost function Stage(s: State, uid: UID): nat {
    if SomeHolder(s, uid) then
      var c: nat :| Holder(s, uid, c);
      StageOf(s.channels[c])
    else 0
  }

  /** How many goroutine steps pod uid is away from being idle. */
  ghost function Rank(s: State, uid: UID): nat {
    Stage(s, uid) + if uid in s.undelivered then 3 else 0
  }

  lemma {:induction false} StageAt(s: State, uid: UID, c: nat)
    requires OneTokenFor(s, uid) && Holder(s, uid, c)
    ensures Stage(s, uid) == StageOf(s.channels[c])
  {
  }

  lemma {:induction false} StageFrame(s: State, s': State, uid: UID)
    requires OneTokenFor(s, uid) && OneTokenFor(s', uid)
    requires forall c: nat :: Holder(s, uid, c) <==> Holder(s', uid, c)
    requires forall c: nat :: Holder(s, uid, c) ==> s.channels[c] == s'.channels[c]
    ensures Stage(s, uid) == Stage(s', uid)
  {
    if SomeHolder(s, uid) {
      var c: nat :| Holder(s, uid, c);
      StageAt(s, uid, c);
      StageAt(s', uid, c);
    } else {
      forall c ensures !Holder(s', uid, c) { assert !Holder(s, uid, c); }
    }
  }

  lemma {:induction false} WorkerRank(s: State, e: Event, uid: UID)
    requires Inv(s) && Step(s, e).Next? && (e.Receive? || e.Finish? || e.Exit?)
    ensures Rank(Step(s, e).state, uid) + (if WorksOn(s, e, uid) then 1 else 0) == Rank(s, uid)
  {
    WorkerStepSafe(s, e);
    var s' := Step(s, e).state;
    assert OneTokenFor(s, uid) && OneTokenFor(s', uid);
    assert ChannelOk(s.channels[e.c]);
    if WorksOn(s, e, uid) {
      assert Holder(s, uid, e.c) && Holder(s', uid, e.c);
      StageAt(s, uid, e.c);
      StageAt(s', uid, e.c);
    } else {
      StageFrame(s, s', uid);
    }
  }

  lemma {:induction false} CheckRank(s: State, c: nat, uid: UID)
    requires Inv(s) && Enabled(s, CheckForUpdates(c))
    ensures Step(s, CheckForUpdates(c)).Next?
    ensures Rank(Step(s, CheckForUpdates(c)).state, uid) + (if s.channels[c].uid == uid then 1 else 0) == Rank(s, uid)
  {
    CheckSafe(s, c);
    CheckMoves(s, c, uid);
    var s' := Step(s, CheckForUpdates(c)).state;
    assert OneTokenFor(s, uid) && OneTokenFor(s', uid);
    if s.channels[c].uid == uid {
      assert ChannelOk(s.channels[c]);
      StageAt(s, uid, c);
      if uid in s.undelivered {
        StageAt(s', uid, s.podUpdates[uid]);
      } else {
        GiveUpToken(s, c);
        assert !Busy(s', uid);
      }
    } else {
      StageFrame(s, s', uid);
    }
  }

  /** Each goroutine step on a pod brings it one step closer to idle, and leaves other pods alone. */
  lemma {:induction false} RankStep(s: State, e: Event, uid: UID)
    requires Inv(s) && Internal(e) && Step(s, e).Next?
    ensures Rank(Step(s, e).state, uid) + (if WorksOn(s, e, uid) then 1 else 0) == Rank(s, uid)
  {
    if e.CheckForUpdates? { CheckRank(s, e.c, uid); } else { WorkerRank(s, e, uid); }
  }

  /** A pod that is not idle always has a goroutine that can take a step on it; in particular an update
      that waits has a token in flight that will pick it up. */
  lemma {:induction false} CanWork(s: State, uid: UID)
    requires Inv(s) && (Busy(s, uid) || uid in s.undelivered)
    ensures exists e :: Internal(e) && WorksOn(s, e, uid) && Enabled(s, e)
  {
    assert OneTokenFor(s, uid);
    var c: nat :| Holder(s, uid, c);
    var ch := s.channels[c];
    assert ChannelOk(ch);
    var e := if ch.buffer.Some? then Receive(c) else if ch.worker.Syncing? then Finish(c) else CheckForUpdates(c);
    assert Internal(e) && WorksOn(s, e, uid) && Enabled(s, e);
  }

  /** The number of goroutine steps on pod uid in a run. */
  function WorkCount(s: State, es: seq<Event>, uid: UID): nat {
    if es == [] then 0
    else
      var front, e := es[..|es| - 1], es[|es| - 1];
      WorkCount(s, front, uid)
        + if Exec(s, front).Next? && WorksOn(Exec(s, front).state, e, uid) then 1 else 0
  }

  lemma {:induction false} InternalLedger(s: State, es: seq<Event>, uid: UID)
    requires Inv(s) && Exec(s, es).Next? && forall i :: 0 <= i < |es| ==> Internal(es[i])
    ensures Rank(Exec(s, es).state, uid) + WorkCount(s, es, uid) == Rank(s, uid)
    ensures var l := Account(s, es, uid); l.submitted == [] && l.superseded == [] && l.discarded == []
  {
    if es != [] {
      var front, e := es[..|es| - 1], es[|es| - 1];
      ExecSafe(s, front);
      InternalLedger(s, front, uid);
      RankStep(Exec(s, front).state, e, uid);
    }
  }

  lemma {:induction false} StageBounds(s: State, uid: UID)
    requires OneTokenFor(s, uid)
    ensures Stage(s, uid) <= 3
    ensures Stage(s, uid) == 0 <==> !SomeHolder(s, uid)
  {
  }

  lemma {:induction false} IdleOwesNothing(s: State, uid: UID)
    requires Inv(s) && Rank(s, uid) == 0
    ensures !Busy(s, uid) && uid !in s.undelivered && Outstanding(s, uid) == multiset{}
  {
    assert OneTokenFor(s, uid);
    StageBounds(s, uid);
  }

  lemma {:induction false} OnlyCompleted(l: Ledger)
    requires l.superseded == [] && l.discarded == []
    ensures Settled(l) == multiset(l.completed)
  {
  }

  /** Left alone by callers, a pod becomes idle after exactly Rank goroutine steps of its own, however
      they interleave with other pods; and then everything it owed has been completed, the kill or the
      latest request that was waiting included. */
  lemma {:induction false} Drains(s: State, es: seq<Event>, uid: UID)
    requires Inv(s) && Exec(s, es).Next? && forall i :: 0 <= i < |es| ==> Internal(es[i])
    ensures WorkCount(s, es, uid) <= Rank(s, uid) <= 6
    ensures WorkCount(s, es, uid) == Rank(s, uid) ==>
              && !Busy(Exec(s, es).state, uid)
              && multiset(Account(s, es, uid).completed) == Outstanding(s, uid)
  {
    InternalLedger(s, es, uid);
    assert OneTokenFor(s, uid);
    StageBounds(s, uid);
    if WorkCount(s, es, uid) == Rank(s, uid) { DrainedCompletes(s, es, uid); }
  }

  lemma {:induction false} DrainedCompletes(s: State, es: seq<Event>, uid: UID)
    requires Inv(s) && Exec(s, es).Next? && Rank(Exec(s, es).state, uid) == 0
    requires var l := Account(s, es, uid); l.submitted == [] && l.superseded == [] && l.discarded == []
    ensures !Busy(Exec(s, es).state, uid)
    ensures multiset(Account(s, es, uid).completed) == Outstanding(s, uid)
  {
    ExecSafe(s, es);
    IdleOwesNothing(Exec(s, es).state, uid);
    Conservation(s, es, uid);
    OnlyCompleted(Account(s, es, uid));
  }
}
