/** The promise that a kill request is never dropped: when it holds and when it does not. */
module PodWorkerKills {
  import opened PodWorkerProtocol
  import opened PodWorkerLedger

  /** What became of an update that was waiting for pod uid at the start of a run, read off the events
      alone: the first forget of the pod drops it, the first check of the pod hands it over. */
  datatype Fate = StillWaiting | HandedOver | Dropped

  function FateOf(s: State, es: seq<Event>, uid: UID): Fate {
    if es == [] then StillWaiting
    else
      var front, e := es[..|es| - 1], es[|es| - 1];
      var f := FateOf(s, front, uid);
      if f != StillWaiting then f
      else if Forgets(e, uid) then Dropped
      else if e.CheckForUpdates? && Exec(s, front).Next? && WorksOn(Exec(s, front).state, e, uid) then HandedOver
      else StillWaiting
  }

  /** Once in flight an update is completed before it leaves, whatever else happens. */
  ghost predicate Safe(s: State, l: Ledger, u: Update) {
    u in l.completed || u in InFlight(s, u.uid)
  }

  lemma {:induction false} SafeStep(s: State, l: Ledger, e: Event, u: Update)
    requires Inv(s) && Safe(s, l, u) && Step(s, e).Next?
    ensures Safe(Step(s, e).state, Record(l, s, e, u.uid), u)
  {
    FlightKept(s, e, u);
    assert e.Finish? && WorksOn(s, e, u.uid) ==> s.channels[e.c].worker.update in Record(l, s, e, u.uid).completed;
    assert u in l.completed ==> u in Record(l, s, e, u.uid).completed;
  }

  /** An update in flight stays in flight until it is finished. */
  lemma {:induction false} FlightKept(s: State, e: Event, u: Update)
    requires Inv(s) && Step(s, e).Next?
    ensures u in InFlight(s, u.uid) ==>
              u in InFlight(Step(s, e).state, u.uid)
              || (e.Finish? && WorksOn(s, e, u.uid) && s.channels[e.c].worker.update == u)
  {
    var uid := u.uid;
    match e
    case UpdatePod(v) =>
      FlightAccept(s, v, uid);
      assert OneTokenFor(s, uid);
    case ForgetWorker(v) => FlightForget(s, {v}, uid);
    case ForgetNonExistingPodWorkers(desired) => FlightForget(s, s.podUpdates.Keys - desired, uid);
    case CheckForUpdates(c) => FlightCheck(s, c, uid);
    case _ => FlightWorker(s, e, uid);
  }

  lemma {:induction false} SafeRun(s: State, es: seq<Event>, u: Update)
    requires Inv(s) && u in InFlight(s, u.uid) && Exec(s, es).Next?
    ensures Safe(Exec(s, es).state, Account(s, es, u.uid), u)
  {
    if es != [] {
      var front, e := es[..|es| - 1], es[|es| - 1];
      ExecSafe(s, front);
      SafeRun(s, front, u);
      SafeStep(Exec(s, front).state, Account(s, front, u.uid), e, u);
    }
  }

  ghost predicate FateHolds(s: State, l: Ledger, f: Fate, u: Update) {
    match f
    case StillWaiting => u.uid in s.undelivered && s.undelivered[u.uid] == u
    case HandedOver => Safe(s, l, u)
    case Dropped => u in l.discarded
  }

  lemma {:induction false} WaitingKillStep(s: State, l: Ledger, e: Event, u: Update)
    requires Inv(s) && u.kind == SyncPodKill && u.uid in s.undelivered && s.undelivered[u.uid] == u
    requires Step(s, e).Next?
    ensures FateHolds(Step(s, e).state, Record(l, s, e, u.uid),
                      if Forgets(e, u.uid) then Dropped
                      else if e.CheckForUpdates? && WorksOn(s, e, u.uid) then HandedOver
                      else StillWaiting, u)
  {
    match e
    case CheckForUpdates(c) =>
      FlightCheck(s, c, u.uid);
      CheckMoves(s, c, u.uid);
    case _ =>
  }

  /** A kill that waits for a busy worker stays the one that waits until the first forget of its pod
      discards it or the first check of its pod hands it over; from then on it is never lost. */
  lemma {:induction false} KillFate(s: State, es: seq<Event>, u: Update)
    requires Inv(s) && u.kind == SyncPodKill && u.uid in s.undelivered && s.undelivered[u.uid] == u
    requires Exec(s, es).Next?
    ensures FateHolds(Exec(s, es).state, Account(s, es, u.uid), FateOf(s, es, u.uid), u)
  {
    if es != [] {
      var front, e := es[..|es| - 1], es[|es| - 1];
      ExecSafe(s, front);
      KillFate(s, front, u);
      var s1, l1 := Exec(s, front).state, Account(s, front, u.uid);
      match FateOf(s, front, u.uid)
      case StillWaiting => WaitingKillStep(s1, l1, e, u);
      case HandedOver => SafeStep(s1, l1, e, u);
      case Dropped =>
    }
  }

  // ----- how soon a waiting kill is handed over -----

  lemma {:induction false} ForgetStage(s: State, gone: set<UID>, uid: UID)
    requires Inv(s)
    ensures Stage(Forget(s, gone), uid) == Stage(s, uid) || uid in gone
  {
    ForgetSafe(s, gone);
    var s' := Forget(s, gone);
    assert OneTokenFor(s, uid) && OneTokenFor(s', uid);
    if uid !in gone { StageFrame(s, s', uid); }
  }

  lemma {:induction false} AcceptStage(s: State, v: Update, uid: UID)
    requires Inv(s) && Busy(s, uid)
    ensures Accept(s, v).Next? && Stage(Accept(s, v).state, uid) == Stage(s, uid)
  {
    AcceptSafe(s, v);
    var s' := Accept(s, v).state;
    assert OneTokenFor(s, uid) && OneTokenFor(s', uid);
    AcceptHolders(s, v, uid);
    StageFrame(s, s', uid);
  }

  /** As long as the kill waits, each event either leaves the work in flight as it is or advances it. */
  lemma {:induction false} WaitingStage(s: State, e: Event, u: Update)
    requires Inv(s) && u.uid in s.undelivered && Step(s, e).Next? && !Forgets(e, u.uid)
    requires u.uid in Step(s, e).state.undelivered
    ensures Stage(Step(s, e).state, u.uid) + (if WorksOn(s, e, u.uid) then 1 else 0) == Stage(s, u.uid)
  {
    match e
    case UpdatePod(v) => AcceptStage(s, v, u.uid);
    case ForgetWorker(v) => ForgetStage(s, {v}, u.uid);
    case ForgetNonExistingPodWorkers(desired) => ForgetStage(s, s.podUpdates.Keys - desired, u.uid);
    case _ => RankStep(s, e, u.uid);
  }

  /** However callers interfere, a waiting kill meets the first forget or is handed over after at most three
      goroutine steps on its pod. */
  lemma {:induction false} KillHandedOverSoon(s: State, es: seq<Event>, u: Update)
    requires Inv(s) && u.kind == SyncPodKill && u.uid in s.undelivered && s.undelivered[u.uid] == u
    requires Exec(s, es).Next?
    ensures FateOf(s, es, u.uid) == StillWaiting ==>
              WorkCount(s, es, u.uid) + Stage(Exec(s, es).state, u.uid) == Stage(s, u.uid)
    ensures FateOf(s, es, u.uid) == StillWaiting ==> WorkCount(s, es, u.uid) < Stage(s, u.uid) <= 3
  {
    KillFate(s, es, u);
    ExecSafe(s, es);
    assert OneTokenFor(s, u.uid) && OneTokenFor(Exec(s, es).state, u.uid);
    StageBounds(s, u.uid);
    StageBounds(Exec(s, es).state, u.uid);
    if es != [] {
      var front, e := es[..|es| - 1], es[|es| - 1];
      ExecSafe(s, front);
      KillHandedOverSoon(s, front, u);
      if FateOf(s, es, u.uid) == StillWaiting {
        KillFate(s, front, u);
        WaitingStage(Exec(s, front).state, e, u);
      }
    }
  }

  // ----- exactly when a kill is lost -----

  /** The request is overtaken when made, or overtaken or discarded later in the run es. */
  ghost predicate Lost(s: State, u: Update, es: seq<Event>)
    requires Accept(s, u).Next?
  {
    var l := Account(Accept(s, u).state, es, u.uid);
    || u in Record(Opening(s, u.uid), s, UpdatePod(u), u.uid).superseded
    || u in l.superseded
    || u in l.discarded
  }

  lemma {:induction false} NotSubmitted(s: State, es: seq<Event>, u: Update)
    requires forall i :: 0 <= i < |es| ==> es[i] != UpdatePod(u)
    ensures u !in Account(s, es, u.uid).submitted
  {
    if es != [] {
      NotSubmitted(s, es[..|es| - 1], u);
      assert es[|es| - 1] != UpdatePod(u);
    }
  }

  /** The request is owed once after it was made, unless a kill was already waiting. */
  lemma {:induction false} OwedOnce(s: State, u: Update)
    requires Inv(s) && !KillPending(s, u.uid) && Outstanding(s, u.uid)[u] == 0
    ensures Accept(s, u).Next? && Outstanding(Accept(s, u).state, u.uid)[u] == 1
    ensures !Busy(s, u.uid) ==> u in InFlight(Accept(s, u).state, u.uid)
    ensures Busy(s, u.uid) ==> var s1 := Accept(s, u).state; u.uid in s1.undelivered && s1.undelivered[u.uid] == u
    ensures u !in Record(Opening(s, u.uid), s, UpdatePod(u), u.uid).superseded
  {
    FlightAccept(s, u, u.uid);
    AcceptSlot(s, u, u.uid);
    if u.uid in s.undelivered { assert s.undelivered[u.uid] in Outstanding(s, u.uid); }
  }

  lemma {:induction false} CountsFrom(l: Ledger, made: multiset<Update>, owed: multiset<Update>,
                                      owed': multiset<Update>, u: Update)
    requires owed + made == Settled(l) + owed' && owed[u] == 1 && made[u] == 0
    ensures u in l.completed || u in owed' ==> u !in l.superseded && u !in l.discarded
  {
    assert (owed + made)[u] == 1;
    assert (Settled(l) + owed')[u] == 1;
    assert Settled(l)[u] == multiset(l.completed)[u] + multiset(l.superseded)[u] + multiset(l.discarded)[u];
  }

  /** A kill is lost exactly when another kill was already waiting for the pod at the call, or the
      worker was busy and the pod is forgotten before the worker next checks for updates. So the
      documented promise that a kill request is never dropped holds only outside these two cases. */
  lemma {:induction false} KillLostExactly(s: State, u: Update, es: seq<Event>)
    requires Inv(s) && u.kind == SyncPodKill && Outstanding(s, u.uid)[u] == 0
    requires Accept(s, u).Next? && Exec(Accept(s, u).state, es).Next?
    requires forall i :: 0 <= i < |es| ==> es[i] != UpdatePod(u)
    ensures Lost(s, u, es) <==>
              KillPending(s, u.uid) || (Busy(s, u.uid) && FateOf(Accept(s, u).state, es, u.uid) == Dropped)
  {
    var uid := u.uid;
    if KillPending(s, uid) {
      assert Record(Opening(s, uid), s, UpdatePod(u), uid).superseded == [u];
    } else {
      OwedOnce(s, u);
      KillKeptAfter(s, u, es);
    }
  }

  lemma {:induction false} KillKeptAfter(s: State, u: Update, es: seq<Event>)
    requires Inv(s) && u.kind == SyncPodKill && Outstanding(s, u.uid)[u] == 0 && !KillPending(s, u.uid)
    requires Accept(s, u).Next? && Exec(Accept(s, u).state, es).Next?
    requires forall i :: 0 <= i < |es| ==> es[i] != UpdatePod(u)
    ensures var s1 := Accept(s, u).state;
            var l := Account(s1, es, u.uid);
            u in l.superseded || u in l.discarded <==> Busy(s, u.uid) && FateOf(s1, es, u.uid) == Dropped
  {
    var uid, s1 := u.uid, Accept(s, u).state;
    OwedOnce(s, u);
    AcceptSafe(s, u);
    NotSubmitted(s1, es, u);
    Conservation(s1, es, uid);
    var s', l := Exec(s1, es).state, Account(s1, es, uid);
    CountsFrom(l, multiset(l.submitted), Outstanding(s1, uid), Outstanding(s', uid), u);
    if Busy(s, uid) {
      KillFate(s1, es, u);
    } else {
      SafeRun(s1, es, u);
    }
  }

  /** Both ways of losing a kill are reachable: a pod is created and, before its worker gets to it, killed
      and forgotten, or killed twice. */
  lemma {:induction false} KillsGetLost()
    ensures var kill, again := Update("pod", SyncPodKill, 1), Update("pod", SyncPodKill, 2);
            var one := Exec(Initial, [UpdatePod(Update("pod", SyncPodCreate, 0))]);
            var two := Exec(Initial, [UpdatePod(Update("pod", SyncPodCreate, 0)), UpdatePod(kill)]);
            && one.Next? && Accept(one.state, kill).Next? && Lost(one.state, kill, [ForgetWorker("pod")])
            && two.Next? && Accept(two.state, again).Next? && Lost(two.state, again, [])
  {
    var create, kill := Update("pod", SyncPodCreate, 0), Update("pod", SyncPodKill, 1);
    var e1, e2 := [UpdatePod(create)], [UpdatePod(create), UpdatePod(kill)];
    assert e1[..0] == [] && e2[..1] == e1;
    assert Exec(Initial, e1) == Step(Initial, UpdatePod(create));
    var s1 := Exec(Initial, e1).state;
    assert Exec(Initial, e2) == Step(s1, UpdatePod(kill));
    var s2 := Exec(Initial, e2).state;
    assert KillPending(s2, "pod") && "pod" in s2.podUpdates;
    ForgottenKill(s2, kill);
  }

  lemma {:induction false} ForgottenKill(s: State, u: Update)
    requires u.uid in s.podUpdates && u.uid in s.undelivered && s.undelivered[u.uid] == u
    ensures u in Account(s, [ForgetWorker(u.uid)], u.uid).discarded
  {
    var es := [ForgetWorker(u.uid)];
    assert es[..0] == [];
    assert Account(s, es, u.uid) == Record(Opening(s, u.uid), s, ForgetWorker(u.uid), u.uid);
  }
}
