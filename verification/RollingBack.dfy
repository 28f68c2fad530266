/** Turning a rolling update around: aborting with a configuration, and rolling back by name. When it works, and
    what it restores. */
module RollingBack {
  import opened Options
  import opened RollingUpdate
  import opened RollingUpdater

  // ----- aborting -----

  /** The controller o as the target of an update that replaces n. */
  function Aborted(o: Controller, n: Controller): Controller {
    o.(sourceID := Some(SourceOf(n)), desired := o.original)
  }

  lemma {:induction false} AbortedMeans(o: Controller, n: Controller)
    ensures var a := Aborted(o, n);
            && a.name == o.name && a.uid == o.uid && a.replicas == o.replicas && a.original == o.original
            && a.desired == o.original && a.sourceID == Some(n.name + ":" + n.uid)
  {
  }

  /** Turns the configuration around: the controller that was being replaced becomes the target, at
      its recorded original size. Without that record the swap has happened but an error is returned. */
  method AbortRollingUpdate(c: RollingUpdaterConfig) returns (ok: bool)
    requires c.oldRc != c.newRc
    modifies c, c.oldRc`sourceID, c.oldRc`desiredReplicas
    ensures c.oldRc == old(c.newRc) && c.newRc == old(c.oldRc)
    ensures ok <==> !c.newRc.originalReplicas.Missing?
    ensures ok ==> c.newRc.Value() == Aborted(old(c.oldRc.Value()), c.oldRc.Value()) && c.cleanupPolicy == DeleteOld
    ensures !ok ==> c.cleanupPolicy == old(c.cleanupPolicy)
                    && c.newRc.Value() == old(c.oldRc.Value()).(sourceID := Some(SourceOf(c.oldRc.Value())))
  {
    var tmp := c.oldRc;
    c.oldRc := c.newRc;
    c.newRc := tmp;
    c.newRc.sourceID := Some(c.oldRc.name + ":" + c.oldRc.uid);
    if tmp.originalReplicas.Missing? {
      return false;
    }
    c.newRc.desiredReplicas := tmp.originalReplicas;
    c.cleanupPolicy := DeleteOld;
    ok := true;
  }

  /** Aborting with the configuration that was passed to Update succeeds exactly when its own copy of the old
      controller came with a record of the original size: Update makes the record on the server only. */
  method UpdateThenAbort(server: Server, config: RollingUpdaterConfig, q: Request)
    returns (error: Option<UpdateError>, status: Status, ok: bool)
    requires server.Valid() && config.oldRc.name != config.newRc.name && config.oldRc.name in server.controllers
    modifies server, config, config.newRc, config.oldRc
    ensures var p := Prepare(old(server.controllers), old(config.oldRc.Value()), old(config.newRc.Value()), q);
            && (error.None? <==> p.Ready?)
            && (p.Ready? ==> status == UpdateRun(p.limits, q, p.view).status)
    ensures ok <==> !old(config.oldRc.originalReplicas).Missing?
    ensures error.None? && status != Done && !ok ==>
              && config.newRc.name in server.controllers
              && server.controllers[config.newRc.name].original
                   == Number(SizeOf(old(server.controllers[config.oldRc.name])))
  {
    ghost var o, n, s := config.oldRc.Value(), config.newRc.Value(), server.controllers;
    var reports;
    ghost var stopped;
    error, status, reports, stopped := Update(server, config, q);
    if error.None? && o.original.Missing? {
      RecordMade(s, o, n, q);
    }
    ok := AbortRollingUpdate(config);
  }

  /** The record after the setup is the size at that time whenever the copy lacks it. So a record on the
      server survives another update exactly when the copy has one or the size is still the recorded one. */
  lemma {:induction false} RecordMade(s: Cluster, o: Controller, n: Controller, q: Request)
    requires o.name in s && o.name != n.name && Prepare(s, o, n, q).Ready?
    ensures var t := Prepare(s, o, n, q).cluster;
            && o.name in t && n.name in t
            && (o.original.Missing? ==> t[o.name].original == Number(SizeOf(s[o.name])))
            && (t[o.name].original == s[o.name].original <==>
                  !o.original.Missing? || s[o.name].original == Number(SizeOf(s[o.name])))
            && t[o.name] == s[o.name].(original := t[o.name].original)
  {
  }

  /** A server with one controller of two pods, and a configuration that replaces it by another of two. */
  method Example() returns (server: Server, config: RollingUpdaterConfig)
    ensures fresh(server) && fresh(config) && fresh(config.oldRc) && fresh(config.newRc) && server.Valid()
    ensures server.controllers == map["a" := Controller("a", "1", Some(2), Missing, Missing, None)]
    ensures config.oldRc.Value() == server.controllers["a"] && config.cleanupPolicy == DeleteOld
    ensures config.newRc.Value() == Controller("b", "", Some(2), Missing, Missing, None)
  {
    server := new Server(map["a" := Controller("a", "1", Some(2), Missing, Missing, None)]);
    var oldRc := server.Get("a");
    var newRc := new ReplicationController(Controller("b", "", Some(2), Missing, Missing, None));
    config := new RollingUpdaterConfig(oldRc, newRc, DeleteOld);
  }

  /** The failure at one input: a fetched controller without a record is updated, the caller stops the update
      after its first scale-up, and then cannot abort it. */
  method AbortFails() returns (status: Status, ok: bool)
    ensures status == Failed(StopAfterUp) && !ok
  {
    var server, config := Example();
    var q := Request("2", "3", 1, 0, 60, 0, None, [Observation(0, 0, Some(StopAfterUp))]);
    var error;
    error, status, ok := UpdateThenAbort(server, config, q);
  }

  /** The record lost at one input: the caller stops the update after its first scale-down and calls it again
      with the same configuration; the recorded size goes from 2 to 1. */
  method RecordOverwritten() returns (first: Annotation, second: Annotation)
    ensures first == Number(2) && second == Number(1)
  {
    var server, config := Example();
    var stop := Observation(1, 0, Some(StopAfterDown));
    var q := Request("2", "3", 1, 0, 60, 0, None, [stop]);
    ghost var p := Prepare(server.controllers, config.oldRc.Value(), config.newRc.Value(), q);
    assert p.limits == Limits(2, 1, 0) && p.view == Counts(2, 0);
    assert UpdateRun(p.limits, q, p.view).final == Counts(1, 1);
    var e, status, reports, stopped := Update(server, config, q);
    assert SizeOf(server.controllers["a"]) == 1;
    first := server.controllers["a"].original;
    ghost var p' := Prepare(server.controllers, config.oldRc.Value(), config.newRc.Value(), q);
    assert p'.limits == Limits(2, 1, 0) && p'.view == Counts(1, 1);
    assert UpdateRun(p'.limits, q, p'.view).status == Failed(StopAfterDown);
    e, status, reports, stopped := Update(server, config, q);
    second := server.controllers["a"].original;
  }

  // ----- rolling back -----

  datatype RollbackError = OldNotFound | NewNotFound | SameName | NoRecord | UpdateRejected(error: UpdateError)

  /** Both controllers are there, and the old one has a record to go back to. */
  predicate CanTurn(s: Cluster, oldName: string, newName: string) {
    oldName in s && newName in s && oldName != newName && !s[oldName].original.Missing?
  }

  /** The rollback of the command: it fetches both controllers, turns the configuration around, stores the
      old controller as the target and updates. That the target could not be stored goes unnoticed. */
  method Rollback(server: Server, oldName: string, newName: string, putFails: bool, q: Request)
    returns (error: Option<RollbackError>, status: Status, reports: seq<int>, ghost stopped: Cluster)
    requires server.Valid()
    modifies server
    ensures server.Valid()
    ensures var s := old(server.controllers);
            !CanTurn(s, oldName, newName) ==>
              && server.controllers == s
              && error == Some(if oldName !in s then OldNotFound else if newName !in s then NewNotFound
                               else if oldName == newName then SameName else NoRecord)
    ensures var s := old(server.controllers);
            CanTurn(s, oldName, newName) ==>
              var target := Aborted(s[oldName], s[newName]);
              var p := Prepare(if putFails then s else s[oldName := target], s[newName], target, q);
              && (p.Rejected? ==> error == Some(UpdateRejected(p.error)) && server.controllers == p.cluster)
              && (p.Ready? ==>
                    var r := UpdateRun(p.limits, q, p.view);
                    && error.None? && status == r.status && reports == r.reports
                    && Follows(p.cluster, stopped, newName, oldName, p.view, r.final)
                    && server.controllers == Settled(stopped, r.status == Done, DeleteOld, newName, oldName, q))
  {
    status, reports, stopped := Unfinished, [], map[];
    var oldRc := server.Get(oldName);
    if oldRc == null {
      return Some(OldNotFound), status, reports, stopped;
    }
    var newRc := server.Get(newName);
    if newRc == null {
      return Some(NewNotFound), status, reports, stopped;
    }
    if oldName == newName {
      return Some(SameName), status, reports, stopped;
    }
    var config := new RollingUpdaterConfig(oldRc, newRc, DeleteOld);
    var ok := AbortRollingUpdate(config);
    if !ok {
      return Some(NoRecord), status, reports, stopped;
    }
    if !putFails {
      server.Put(config.newRc.Value());
    }
    var e;
    e, status, reports, stopped := Update(server, config, q);
    error := if e.Some? then Some(UpdateRejected(e.value)) else None;
  }

  /** With a record on the server, a rollback whose target was stored starts from the sizes on the server,
      with the recorded size as its goal. */
  lemma {:induction false} RollbackStarts(s: Cluster, oldName: string, newName: string, q: Request)
    requires CanTurn(s, oldName, newName) && s[oldName].name == oldName && s[newName].name == newName
    requires s[oldName].original.Number? && FitsInt32(s[oldName].original.value)
    requires s[oldName].original.value > 0 ==> q.maxSurge != 0 || q.maxUnavailable != 0
    requires q.fault.None?
    ensures var target := Aborted(s[oldName], s[newName]);
            var p := Prepare(s[oldName := target], s[newName], target, q);
            && p.Ready? && p.limits == Limits(s[oldName].original.value, q.maxSurge, q.maxUnavailable)
            && p.view == Counts(SizeOf(s[newName]), SizeOf(s[oldName]))
            && oldName in p.cluster && newName in p.cluster
            && SizeOf(p.cluster[oldName]) == SizeOf(s[oldName]) && SizeOf(p.cluster[newName]) == SizeOf(s[newName])
  {
  }

  // ----- there and back -----

  /** The size to which a controller will be rolled back after an update. */
  function Recorded(c: Controller): int {
    if c.original.Number? then c.original.value else SizeOf(c)
  }

  function Turned(c: Counts): Counts {
    Counts(c.newPods, c.oldPods)
  }

  /** Nothing fails on the way back from the sizes d, and its pods become available for as long as it needs. */
  ghost predicate ReadyLongEnough(back: Limits, d: Counts, q: Request) {
    && back.maxSurge == q.maxSurge && back.maxUnavailable == q.maxUnavailable && q.fault.None?
    && AllReady(back, d, q.obs) && Distance(back, d) <= |q.obs|
  }

  lemma {:induction false} WayBack(back: Limits, d: Counts, q: Request)
    requires ValidLimits(back) && ValidCounts(d) && ReadyLongEnough(back, d, q)
    ensures var r := UpdateRun(back, q, d);
            (r.status == Done <==> CanFinish(back, d)) && (r.status == Done ==> r.final == Counts(0, back.desired))
  {
    Finishes(back, Abs(back.desired - d.newPods), q.timeout, q.start + q.timeout, d, 0, q.obs);
  }

  /** Wherever an update stops, the sizes are none that an update could not start from, and the old controller
      is not larger than at the start. */
  lemma {:induction false} StopsValid(l: Limits, q: Request, c: Counts)
    requires ValidLimits(l) && ValidCounts(c)
    ensures var stop := UpdateRun(l, q, c).final; ValidCounts(Turned(stop)) && stop.oldPods <= c.oldPods
  {
    SurgeBound(l, Abs(l.desired - c.newPods), q.timeout, q.start + q.timeout, c, 0, q.obs);
  }

  /** A rollback that finds both controllers and a record: it is accepted, and it ends with the old controller
      at the recorded size and the new one deleted exactly when CanFinish holds for the sizes it finds. */
  method RollbackRecorded(server: Server, oldName: string, newName: string, ghost back: Limits, ghost d: Counts,
                          q: Request)
    returns (error: Option<RollbackError>, status: Status)
    requires server.Valid() && CanTurn(server.controllers, oldName, newName)
    requires server.controllers[oldName].original == Number(back.desired) && back.desired <= MAX_INT32
    requires d == Counts(SizeOf(server.controllers[newName]), SizeOf(server.controllers[oldName]))
    requires ValidLimits(back) && ValidCounts(d) && ReadyLongEnough(back, d, q)
    modifies server
    ensures error.None? && (status == Done <==> CanFinish(back, d))
    ensures status == Done ==> newName !in server.controllers && oldName in server.controllers
                               && SizeOf(server.controllers[oldName]) == back.desired
  {
    RollbackStarts(server.controllers, oldName, newName, q);
    WayBack(back, d, q);
    ghost var stopped;
    var reports;
    error, status, reports, stopped := Rollback(server, oldName, newName, false, q);
  }

  /** After an update of a fetched controller has stopped, the server holds the sizes the run ended with and
      the record made at the start, or kept from before. */
  lemma {:induction false} StoppedOnServer(s: Cluster, o: Controller, n: Controller, q: Request, t: Cluster, e: Counts)
    requires o.name in s && s[o.name] == o && o.name != n.name && !o.original.Garbled?
    requires Prepare(s, o, n, q).Ready?
    requires var p := Prepare(s, o, n, q); Follows(p.cluster, t, o.name, n.name, p.view, e)
    ensures o.name in t && n.name in t
    ensures SizeOf(t[o.name]) == e.oldPods && SizeOf(t[n.name]) == e.newPods
    ensures t[o.name].original == Number(Recorded(o))
    ensures Prepare(s, o, n, q).view.oldPods == SizeOf(o)
  {
  }

  /** The first update is over, and its cleanup has taken the old controller or its name away. */
  predicate Gone(first: Result, policy: CleanupPolicy) {
    first.status == Done && policy != PreserveOld
  }

  /** An update of a fetched controller, stopped at any point or finished, and rolled back by name while its
      pods become available. After a finished update the rollback is refused, unless the old controller was to
      be preserved. Otherwise it is accepted, and it ends with the old controller at its recorded size and the
      new one deleted, exactly when CanFinish holds for the way back; so always, if the old controller was not
      larger than recorded. */
  method UpdateThenRollback(server: Server, config: RollingUpdaterConfig, q: Request, back: Limits, q': Request)
    returns (error: Option<RollbackError>, status: Status)
    requires server.Valid() && config.oldRc.name != config.newRc.name && config.oldRc.name in server.controllers
    requires config.oldRc.Value() == server.controllers[config.oldRc.name] && !config.oldRc.originalReplicas.Garbled?
    requires back.desired == Recorded(config.oldRc.Value()) <= MAX_INT32 && ValidLimits(back)
    requires var p := Prepare(server.controllers, config.oldRc.Value(), config.newRc.Value(), q);
             && p.Ready? && ValidLimits(p.limits) && ValidCounts(p.view)
             && ReadyLongEnough(back, Turned(UpdateRun(p.limits, q, p.view).final), q')
    modifies server, config.newRc, config.oldRc`replicas
    ensures var p := Prepare(old(server.controllers), old(config.oldRc.Value()), old(config.newRc.Value()), q);
            var first := UpdateRun(p.limits, q, p.view);
            && (Gone(first, config.cleanupPolicy) ==>
                  error == Some(if config.cleanupPolicy == DeleteOld then OldNotFound else NewNotFound))
            && (!Gone(first, config.cleanupPolicy) ==>
                  error.None? && (status == Done <==> CanFinish(back, Turned(first.final))))
            && (!Gone(first, config.cleanupPolicy) && old(config.oldRc.Size()) <= back.desired ==> status == Done)
    ensures error.None? && status == Done ==>
              && config.newRc.name !in server.controllers && config.oldRc.name in server.controllers
              && SizeOf(server.controllers[config.oldRc.name]) == back.desired
  {
    ghost var s, o, n := server.controllers, config.oldRc.Value(), config.newRc.Value();
    ghost var p := Prepare(s, o, n, q);
    ghost var first := UpdateRun(p.limits, q, p.view);
    var e, st, reports, stopped := Update(server, config, q);
    StoppedOnServer(s, o, n, q, stopped, first.final);
    StopsValid(p.limits, q, p.view);
    if st == Done && config.cleanupPolicy != PreserveOld {
      ghost var stopped';
      error, status, reports, stopped' := Rollback(server, config.oldRc.name, config.newRc.name, false, q');
    } else {
      ghost var d := Turned(first.final);
      assert CanTurn(server.controllers, o.name, n.name);
      assert d == Counts(SizeOf(server.controllers[n.name]), SizeOf(server.controllers[o.name]));
      error, status := RollbackRecorded(server, config.oldRc.name, config.newRc.name, back, d, q');
    }
  }
}
