/** The rolling updater itself: the controllers on the server, the copies of them that a configuration and
    the loop hold, and the update that changes both, proved against the runs of RollingUpdate. */
module RollingUpdater {
  import opened Options
  import opened RollingUpdate

  datatype CleanupPolicy = DeleteOld | PreserveOld | RenameNew

  /** An annotation that should hold a number. */
  datatype Annotation = Missing | Garbled(text: string) | Number(value: int)

  /** A replication controller as the server stores it. */
  datatype Controller = Controller(name: string, uid: string, replicas: Option<int>, desired: Annotation,
                                   original: Annotation, sourceID: Option<string>)

  type Cluster = map<string, Controller>

  /** A missing replica count reads as 0. */
  function SizeOf(c: Controller): int {
    if c.replicas.None? then 0 else c.replicas.value
  }

  function SourceOf(c: Controller): string {
    c.name + ":" + c.uid
  }

  function Resized(s: Cluster, name: string, size: int): Cluster
    requires name in s
  {
    s[name := s[name].(replicas := Some(size))]
  }

  /** A copy of a controller in the memory of the client. */
  class ReplicationController {
    const name: string
    const uid: string
    var replicas: Option<int>
    var desiredReplicas: Annotation
    var originalReplicas: Annotation
    var sourceID: Option<string>

    constructor (c: Controller)
      ensures Value() == c
    {
      name, uid, replicas := c.name, c.uid, c.replicas;
      desiredReplicas, originalReplicas, sourceID := c.desired, c.original, c.sourceID;
    }

    function Value(): Controller
      reads this
    {
      Controller(name, uid, replicas, desiredReplicas, originalReplicas, sourceID)
    }

    function Size(): int
      reads this
    {
      SizeOf(Value())
    }
  }

  class RollingUpdaterConfig {
    var oldRc: ReplicationController
    var newRc: ReplicationController
    var cleanupPolicy: CleanupPolicy

    constructor (oldRc: ReplicationController, newRc: ReplicationController, cleanupPolicy: CleanupPolicy)
      ensures this.oldRc == oldRc && this.newRc == newRc && this.cleanupPolicy == cleanupPolicy
    {
      this.oldRc, this.newRc, this.cleanupPolicy := oldRc, newRc, cleanupPolicy;
    }
  }

  function SizesOf(oldRc: ReplicationController, newRc: ReplicationController): Counts
    reads oldRc, newRc
  {
    Counts(oldRc.Size(), newRc.Size())
  }

  class Server {
    var controllers: Cluster

    ghost predicate Valid()
      reads this
    {
      forall n :: n in controllers ==> controllers[n].name == n
    }

    constructor (controllers: Cluster)
      ensures this.controllers == controllers
    {
      this.controllers := controllers;
    }

    /** A copy of what is stored; changing it does not change the server. */
    method Get(name: string) returns (rc: ReplicationController?)
      ensures rc == null <==> name !in controllers
      ensures rc != null ==> fresh(rc) && rc.Value() == controllers[name]
    {
      if name !in controllers {
        return null;
      }
      rc := new ReplicationController(controllers[name]);
    }

    method Put(c: Controller)
      modifies this
      ensures controllers == old(controllers)[c.name := c]
    {
      controllers := controllers[c.name := c];
    }

    method Delete(name: string)
      modifies this
      ensures controllers == old(controllers) - {name}
    {
      controllers := controllers - {name};
    }

    /** Scales to the size the copy asks for and returns a new copy. */
    method ScaleAndWait(rc: ReplicationController, fails: bool, applied: bool) returns (scaled: ReplicationController?)
      requires Valid() && rc.name in controllers
      modifies this
      ensures Valid()
      ensures controllers == if fails && !applied then old(controllers)
                             else Resized(old(controllers), rc.name, rc.Size())
      ensures scaled == null <==> fails
      ensures scaled != null ==> fresh(scaled) && scaled.name == rc.name && scaled.Size() == rc.Size()
    {
      if fails && !applied {
        return null;
      }
      controllers := Resized(controllers, rc.name, rc.Size());
      if fails {
        return null;
      }
      scaled := Get(rc.name);
    }
  }

  // ----- the loop -----

  /** What one write to a controller leaves, if the size it asks for is a new one and it arrives. */
  function Written(s: Cluster, name: string, before: int, after: int): Cluster
    requires name in s
  {
    if after == before then s else Resized(s, name, after)
  }

  method ScaleUpRc(server: Server, newRc: ReplicationController, oldRc: ReplicationController, l: Limits,
                   failure: Option<Failure>)
    returns (scaled: ReplicationController?)
    requires newRc != oldRc && server.Valid() && newRc.name in server.controllers
    modifies server, newRc`replicas
    ensures server.Valid()
    ensures var c := old(SizesOf(oldRc, newRc));
            var up := ScaleUp(l, c);
            && (scaled == null <==> failure.Some? && failure.value.ScaleUpFails? && up != c.newPods)
            && (scaled != null ==> scaled.Size() == up && scaled.name == newRc.name)
            && (scaled != null ==> scaled == newRc || fresh(scaled))
            && server.controllers == if failure == Some(ScaleUpFails(false)) then old(server.controllers)
                                     else Written(old(server.controllers), newRc.name, c.newPods, up)
    ensures var c := old(SizesOf(oldRc, newRc));
            ValidLimits(l) && ValidCounts(c) && c.newPods <= l.desired && scaled != null ==>
              && c.newPods <= scaled.Size() <= l.desired
              && (scaled.Size() > c.newPods ==> WithinSurge(l, c.oldPods, scaled.Size()))
              && (forall y :: scaled.Size() < y <= l.desired ==> !WithinSurge(l, c.oldPods, y))
  {
    ghost var c := SizesOf(oldRc, newRc);
    if ValidLimits(l) && ValidCounts(c) { ScaleUpMost(l, c); }
    if newRc.Size() == l.desired {
      return newRc;
    }
    var increment := (l.desired + l.maxSurge) - (oldRc.Size() + newRc.Size());
    if oldRc.Size() == 0 {
      increment := l.desired - newRc.Size();
    }
    if increment <= 0 {
      return newRc;
    }
    newRc.replicas := Some(newRc.Size() + increment);
    if newRc.Size() > l.desired {
      newRc.replicas := Some(l.desired);
    }
    var fails := failure.Some? && failure.value.ScaleUpFails?;
    scaled := server.ScaleAndWait(newRc, fails, failure == Some(ScaleUpFails(true)));
  }

  /** Reads the available new pods first, and only when there is something to scale down. */
  method ScaleDownRc(server: Server, newRc: ReplicationController, oldRc: ReplicationController, l: Limits,
                     minAvailable: int, newAvailable: int, failure: Option<Failure>)
    returns (scaled: ReplicationController?)
    requires newRc != oldRc && server.Valid() && oldRc.name in server.controllers && minAvailable == MinAvailable(l)
    modifies server, oldRc`replicas
    ensures server.Valid()
    ensures var c := old(SizesOf(oldRc, newRc));
            var down := ScaleDown(l, c, newAvailable);
            && (scaled == null <==> (failure == Some(ReadyPodsFails) && c.oldPods != 0)
                                    || (failure.Some? && failure.value.ScaleDownFails? && down != c.oldPods))
            && (scaled != null ==> scaled.Size() == down && scaled.name == oldRc.name)
            && (scaled != null ==> scaled == oldRc || fresh(scaled))
            && server.controllers == if failure in {Some(ReadyPodsFails), Some(ScaleDownFails(false))}
                                     then old(server.controllers)
                                     else Written(old(server.controllers), oldRc.name, c.oldPods, down)
    ensures var c := old(SizesOf(oldRc, newRc));
            ValidLimits(l) && ValidCounts(c) && scaled != null ==>
              && 0 <= scaled.Size() <= c.oldPods
              && (scaled.Size() < c.oldPods ==> EnoughLeft(l, scaled.Size(), newAvailable))
              && (forall y :: 0 <= y < scaled.Size() ==> !EnoughLeft(l, y, newAvailable))
  {
    ghost var c := SizesOf(oldRc, newRc);
    if ValidLimits(l) && ValidCounts(c) { ScaleDownMost(l, c, newAvailable); }
    if oldRc.Size() == 0 {
      return oldRc;
    }
    if failure == Some(ReadyPodsFails) {
      return null;
    }
    var allPods := oldRc.Size() + newRc.Size();
    var newUnavailable := newRc.Size() - newAvailable;
    var decrement := allPods - minAvailable - newUnavailable;
    if decrement <= 0 {
      return oldRc;
    }
    oldRc.replicas := Some(oldRc.Size() - decrement);
    if oldRc.Size() < 0 {
      oldRc.replicas := Some(0);
    }
    if newRc.Size() == l.desired && newAvailable == l.desired {
      oldRc.replicas := Some(0);
    }
    var fails := failure.Some? && failure.value.ScaleDownFails?;
    scaled := server.ScaleAndWait(oldRc, fails, failure == Some(ScaleDownFails(true)));
  }

  /** The body of the loop, and the copies it goes on with. */
  method TurnRc(server: Server, newRc: ReplicationController, oldRc: ReplicationController, l: Limits,
                minAvailable: int, goal: int, o: Observation)
    returns (failure: Option<Failure>, reports: seq<int>, newRc': ReplicationController, oldRc': ReplicationController)
    requires newRc != oldRc && newRc.name != oldRc.name && server.Valid() && minAvailable == MinAvailable(l)
    requires newRc.name in server.controllers && oldRc.name in server.controllers
    modifies server, newRc`replicas, oldRc`replicas
    ensures server.Valid()
    ensures var c := old(SizesOf(oldRc, newRc));
            var e := TurnEnd(l, c, o);
            && failure == FailureOf(l, c, o) && reports == TurnReports(l, goal, c, o)
            && (failure.None? ==> SizesOf(oldRc', newRc') == e)
            && server.controllers == Written(Written(old(server.controllers), newRc.name, c.newPods, e.newPods),
                                             oldRc.name, c.oldPods, e.oldPods)
    ensures newRc'.name == newRc.name && (newRc' == newRc || fresh(newRc'))
    ensures oldRc'.name == oldRc.name && (oldRc' == oldRc || fresh(oldRc'))
  {
    failure, reports, newRc', oldRc' := o.failure, [], newRc, oldRc;
    var scaledRc := ScaleUpRc(server, newRc, oldRc, l, o.failure);
    if scaledRc == null {
      return;
    }
    newRc' := scaledRc;
    reports := reports + [Percentage(l, goal, newRc'.Size())];
    if o.failure == Some(StopAfterUp) {
      return;
    }
    scaledRc := ScaleDownRc(server, newRc', oldRc, l, minAvailable, o.newAvailable, o.failure);
    if scaledRc == null {
      return;
    }
    oldRc' := scaledRc;
    reports := reports + [Percentage(l, goal, newRc'.Size())];
    failure := if o.failure == Some(StopAfterDown) then o.failure else None;
  }

  /** The whole run, seen after some turns and once more after the next one. */
  lemma {:induction false} TurnTaken(whole: Result, visits: seq<Snapshot>, reports: seq<int>, l: Limits, goal: int,
                                     timeout: int, deadline: int, c: Counts, available: int, obs: seq<Observation>,
                                     i: nat)
    requires i < |obs| && !Final(l, c)
    requires whole == Continue(visits, reports, Run(l, goal, timeout, deadline, c, available, obs[i..]))
    ensures var o := obs[i];
            var c', f := TurnEnd(l, c, o), FailureOf(l, c, o);
            var seen, told := visits + TurnVisits(l, c, available, o), reports + TurnReports(l, goal, c, o);
            && (f.Some? ==> whole == Result(Failed(f.value), c', seen, told))
            && (f.None? && c' == c && o.now > deadline ==> whole == Result(TimedOut, c', seen, told))
            && (f.None? && !(c' == c && o.now > deadline) ==>
                  whole == Continue(seen, told, Run(l, goal, timeout, if c' != c then o.now + timeout else deadline,
                                                    c', o.newAvailable, obs[i + 1..])))
  {
    assert obs[i..][0] == obs[i] && obs[i..][1..] == obs[i + 1..];
    ContinueTwice(visits, reports, TurnVisits(l, c, available, obs[i]), TurnReports(l, goal, c, obs[i]),
                  Run(l, goal, timeout, if TurnEnd(l, c, obs[i]) != c then obs[i].now + timeout else deadline,
                      TurnEnd(l, c, obs[i]), obs[i].newAvailable, obs[i + 1..]));
  }

  lemma {:induction false} ContinueTwice(v1: seq<Snapshot>, r1: seq<int>, v2: seq<Snapshot>, r2: seq<int>, r: Result)
    ensures Continue(v1, r1, Continue(v2, r2, r)) == Continue(v1 + v2, r1 + r2, r)
  {
    assert v1 + (v2 + r.visited) == v1 + v2 + r.visited;
    assert r1 + (r2 + r.reports) == r1 + r2 + r.reports;
  }

  // ----- the server along the loop -----

  /** While the two sizes an update believes in go from c to e, the server goes from s to t: a size that
      moved is the one believed in, a size that did not move was never written, and nothing else changes. */
  ghost predicate Follows(s: Cluster, t: Cluster, oldName: string, newName: string, c: Counts, e: Counts) {
    && t.Keys == s.Keys && oldName in s && newName in s && oldName != newName
    && (forall n :: n in s && n != oldName && n != newName ==> t[n] == s[n])
    && t[oldName].(replicas := None) == s[oldName].(replicas := None)
    && t[newName].(replicas := None) == s[newName].(replicas := None)
    && SizeOf(t[oldName]) == (if e.oldPods == c.oldPods then SizeOf(s[oldName]) else e.oldPods)
    && SizeOf(t[newName]) == (if e.newPods == c.newPods then SizeOf(s[newName]) else e.newPods)
  }

  lemma {:induction false} WrittenFollows(s: Cluster, oldName: string, newName: string, c: Counts, e: Counts)
    requires oldName in s && newName in s && oldName != newName
    ensures Follows(s, Written(Written(s, newName, c.newPods, e.newPods), oldName, c.oldPods, e.oldPods),
                    oldName, newName, c, e)
  {
  }

  lemma {:induction false} FollowsOn(s: Cluster, t: Cluster, u: Cluster, oldName: string, newName: string,
                                     c: Counts, d: Counts, e: Counts)
    requires Follows(s, t, oldName, newName, c, d) && Follows(t, u, oldName, newName, d, e)
    requires e.oldPods == c.oldPods ==> d.oldPods == c.oldPods
    requires e.newPods == c.newPods ==> d.newPods == c.newPods
    ensures Follows(s, u, oldName, newName, c, e)
  {
  }

  /** A size that moved is closer to where it goes than at the start, so it never comes back. */
  ghost predicate Closer(l: Limits, c: Counts, d: Counts) {
    && (d.oldPods == c.oldPods || Abs(d.oldPods) < Abs(c.oldPods))
    && (d.newPods == c.newPods || Abs(l.desired - d.newPods) < Abs(l.desired - c.newPods))
  }

  lemma {:induction false} TurnCloser(l: Limits, c: Counts, o: Observation)
    ensures Closer(l, c, TurnEnd(l, c, o))
  {
    assert Closer(l, c, AfterUp(l, c)) && Closer(l, c, Turn(l, c, o.newAvailable));
  }

  /** One more turn: the server follows, and both sizes are still on their way. */
  lemma {:induction false} TurnFollows(l: Limits, s: Cluster, t: Cluster, oldName: string, newName: string,
                                       c: Counts, d: Counts, o: Observation)
    requires Follows(s, t, oldName, newName, c, d) && Closer(l, c, d)
    ensures var e := TurnEnd(l, d, o);
            var u := Written(Written(t, newName, d.newPods, e.newPods), oldName, d.oldPods, e.oldPods);
            Follows(s, u, oldName, newName, c, e) && Closer(l, c, e)
  {
    var e := TurnEnd(l, d, o);
    TurnCloser(l, d, o);
    WrittenFollows(t, oldName, newName, d, e);
    FollowsOn(s, t, Written(Written(t, newName, d.newPods, e.newPods), oldName, d.oldPods, e.oldPods),
              oldName, newName, c, d, e);
  }

  /** What an update is about: the server, the names and the sizes at its start, and its whole run. */
  datatype Course = Course(s: Cluster, oldName: string, newName: string, c: Counts, l: Limits, goal: int,
                           timeout: int, whole: Result)

  /** The turns so far have been seen and told, and the rest of the run is still to come. */
  ghost predicate OnCourse(k: Course, t: Cluster, c: Counts, deadline: int, available: int,
                           visits: seq<Snapshot>, reports: seq<int>, rest: seq<Observation>) {
    && Follows(k.s, t, k.oldName, k.newName, k.c, c) && Closer(k.l, k.c, c)
    && k.whole == Continue(visits, reports, Run(k.l, k.goal, k.timeout, deadline, c, available, rest))
  }

  ghost predicate Ended(k: Course, t: Cluster, status: Status, reports: seq<int>) {
    k.whole.status == status && k.whole.reports == reports && Follows(k.s, t, k.oldName, k.newName, k.c, k.whole.final)
  }

  function AfterTurn(k: Course, t: Cluster, c: Counts, o: Observation): Cluster
    requires k.oldName in t && k.newName in t
  {
    var e := TurnEnd(k.l, c, o);
    Written(Written(t, k.newName, c.newPods, e.newPods), k.oldName, c.oldPods, e.oldPods)
  }

  lemma {:induction false} NextTurn(k: Course, t: Cluster, c: Counts, deadline: int, available: int,
                                    visits: seq<Snapshot>, reports: seq<int>, obs: seq<Observation>, i: nat)
    requires i < |obs| && !Final(k.l, c) && OnCourse(k, t, c, deadline, available, visits, reports, obs[i..])
    ensures k.oldName in t && k.newName in t
    ensures var o := obs[i];
            var c', f, u := TurnEnd(k.l, c, o), FailureOf(k.l, c, o), AfterTurn(k, t, c, o);
            var told := reports + TurnReports(k.l, k.goal, c, o);
            && (f.Some? ==> Ended(k, u, Failed(f.value), told))
            && (f.None? && c' == c && o.now > deadline ==> Ended(k, u, TimedOut, told))
            && (f.None? && !(c' == c && o.now > deadline) ==>
                  OnCourse(k, u, c', if c' != c then o.now + k.timeout else deadline, o.newAvailable,
                           visits + TurnVisits(k.l, c, available, o), told, obs[i + 1..]))
  {
    TurnTaken(k.whole, visits, reports, k.l, k.goal, k.timeout, deadline, c, available, obs, i);
    TurnFollows(k.l, k.s, t, k.oldName, k.newName, k.c, c, obs[i]);
  }

  lemma {:induction false} CourseStarts(k: Course, deadline: int, obs: seq<Observation>)
    requires k.oldName in k.s && k.newName in k.s && k.oldName != k.newName
    requires k.whole == Run(k.l, k.goal, k.timeout, deadline, k.c, 0, obs)
    ensures OnCourse(k, k.s, k.c, deadline, 0, [], [], obs)
  {
  }

  lemma {:induction false} CourseEnds(k: Course, t: Cluster, c: Counts, deadline: int, available: int,
                                      visits: seq<Snapshot>, reports: seq<int>, rest: seq<Observation>)
    requires OnCourse(k, t, c, deadline, available, visits, reports, rest) && (Final(k.l, c) || rest == [])
    ensures if Final(k.l, c) then Ended(k, t, Done, reports + [100]) else Ended(k, t, Unfinished, reports)
  {
  }

  /** One turn of the loop with its deadline: the update ends there or stays on course. */
  method Advance(server: Server, newRc: ReplicationController, oldRc: ReplicationController, l: Limits,
                 minAvailable: int, goal: int, timeout: int, deadline: int, reports: seq<int>, obs: seq<Observation>,
                 i: nat, ghost k: Course, ghost available: int, ghost visits: seq<Snapshot>)
    returns (ended: Option<Status>, newRc': ReplicationController, oldRc': ReplicationController, deadline': int,
             reports': seq<int>, ghost visits': seq<Snapshot>)
    requires newRc != oldRc && newRc.name != oldRc.name && server.Valid() && minAvailable == MinAvailable(l)
    requires newRc.name == k.newName && oldRc.name == k.oldName && l == k.l && goal == k.goal && timeout == k.timeout
    requires i < |obs| && !Final(l, SizesOf(oldRc, newRc))
    requires OnCourse(k, server.controllers, SizesOf(oldRc, newRc), deadline, available, visits, reports, obs[i..])
    modifies server, newRc`replicas, oldRc`replicas
    ensures server.Valid()
    ensures newRc'.name == newRc.name && (newRc' == newRc || fresh(newRc'))
    ensures oldRc'.name == oldRc.name && (oldRc' == oldRc || fresh(oldRc'))
    ensures if ended.Some? then Ended(k, server.controllers, ended.value, reports')
            else OnCourse(k, server.controllers, SizesOf(oldRc', newRc'), deadline', obs[i].newAvailable, visits',
                          reports', obs[i + 1..])
  {
    var newReplicas, oldReplicas := newRc.Size(), oldRc.Size();
    var o := obs[i];
    ghost var c := SizesOf(oldRc, newRc);
    NextTurn(k, server.controllers, c, deadline, available, visits, reports, obs, i);
    var failure, told;
    failure, told, newRc', oldRc' := TurnRc(server, newRc, oldRc, l, minAvailable, goal, o);
    ended, deadline', reports', visits' := None, deadline, reports + told, visits + TurnVisits(l, c, available, o);
    if failure.Some? {
      ended := Some(Failed(failure.value));
      return;
    }
    var progressMade := newRc'.Size() != newReplicas || oldRc'.Size() != oldReplicas;
    if progressMade {
      deadline' := o.now + timeout;
    } else if o.now > deadline {
      ended := Some(TimedOut);
    }
  }

  /** The loop: it ends when both sizes are reached, when a call fails, or when no count changed until
      after the deadline. */
  method Loop(server: Server, newRc0: ReplicationController, oldRc0: ReplicationController, l: Limits,
              minAvailable: int, goal: int, timeout: int, start: int, obs: seq<Observation>)
    returns (status: Status, reports: seq<int>)
    requires newRc0 != oldRc0 && newRc0.name != oldRc0.name && server.Valid() && minAvailable == MinAvailable(l)
    requires newRc0.name in server.controllers && oldRc0.name in server.controllers
    modifies server, newRc0`replicas, oldRc0`replicas
    ensures server.Valid()
    ensures var c := old(SizesOf(oldRc0, newRc0));
            var r := Run(l, goal, timeout, start + timeout, c, 0, obs);
            && status == r.status && reports == r.reports
            && Follows(old(server.controllers), server.controllers, oldRc0.name, newRc0.name, c, r.final)
  {
    var newRc, oldRc := newRc0, oldRc0;
    reports := [];
    var deadline := start + timeout;
    ghost var visits: seq<Snapshot>, available := [], 0;
    ghost var k := Course(server.controllers, oldRc.name, newRc.name, SizesOf(oldRc, newRc), l, goal, timeout,
                          Run(l, goal, timeout, deadline, SizesOf(oldRc, newRc), available, obs));
    CourseStarts(k, deadline, obs);
    assert obs[0..] == obs;
    var i := 0;
    while (newRc.Size() != l.desired || oldRc.Size() != 0) && i < |obs|
      invariant 0 <= i <= |obs| && server.Valid()
      invariant newRc.name == k.newName && oldRc.name == k.oldName
      invariant (newRc == newRc0 || fresh(newRc)) && (oldRc == oldRc0 || fresh(oldRc))
      invariant OnCourse(k, server.controllers, SizesOf(oldRc, newRc), deadline, available, visits, reports, obs[i..])
    {
      var ended;
      ended, newRc, oldRc, deadline, reports, visits :=
        Advance(server, newRc, oldRc, l, minAvailable, goal, timeout, deadline, reports, obs, i, k, available, visits);
      if ended.Some? {
        return ended.value, reports;
      }
      available, i := obs[i].newAvailable, i + 1;
    }
    CourseEnds(k, server.controllers, SizesOf(oldRc, newRc), deadline, available, visits, reports, obs[i..]);
    if newRc.Size() == l.desired && oldRc.Size() == 0 {
      return Done, reports + [100];
    }
    status := Unfinished;
  }

  /** What an update is given and what it meets: the UIDs the server will assign to a controller it creates or
      renames, the resolved fenceposts, the clock, a call before the loop that fails, and the observations. */
  datatype Request = Request(createdUID: string, renamedUID: string, maxSurge: int, maxUnavailable: int,
                             timeout: int, start: int, fault: Option<Fault>, obs: seq<Observation>)

  /** The calls before the loop. Those that write may have reached the server although they fail. */
  datatype Fault = LookupFails | CreateFails(applied: bool) | FetchFails | RecordFails(applied: bool)

  /** The run of an update that starts with these sizes. */
  function UpdateRun(l: Limits, q: Request, c: Counts): Result {
    Run(l, Abs(l.desired - c.newPods), q.timeout, q.start + q.timeout, c, 0, q.obs)
  }

  /** The progress an update reports is the part of the initial distance that the new controller has covered, in
      percent, and 100 when there was nothing to cover. */
  lemma {:induction false} UpdateReports(l: Limits, q: Request, c: Counts) returns (n: nat)
    requires ValidLimits(l) && ValidCounts(c) && NothingFails(q.obs) && Abs(l.desired - c.newPods) <= MAX_GOAL
    ensures n <= |q.obs| && |UpdateRun(l, q, c).reports| >= 2 * n
    ensures UpdateRun(l, q, c).status == Done ==>
              |UpdateRun(l, q, c).reports| == 2 * n + 1 && UpdateRun(l, q, c).reports[2 * n] == 100
    ensures UpdateRun(l, q, c).status != Done ==> |UpdateRun(l, q, c).reports| == 2 * n
    ensures forall i :: 0 <= i < n ==>
              UpdateRun(l, q, c).reports[2 * i] == UpdateRun(l, q, c).reports[2 * i + 1]
                == Covered(l, c, After(l, c, q.obs, i + 1))
  {
    var goal, r := Abs(l.desired - c.newPods), UpdateRun(l, q, c);
    n := EndOfRun(l, goal, q.timeout, q.start + q.timeout, c, 0, q.obs);
    assert r.reports == r.reports[..2 * n] + r.reports[2 * n..];
    forall i | 0 <= i < n
      ensures r.reports[2 * i] == r.reports[2 * i + 1] == Covered(l, c, After(l, c, q.obs, i + 1))
    {
      ReportAt(l, c, q.obs, n, r.reports[..2 * n], i);
    }
  }

  /** The part of the distance from c to the target that has been covered at d, in percent. */
  function Covered(l: Limits, c: Counts, d: Counts): int {
    var whole, left := Abs(l.desired - c.newPods), Abs(l.desired - d.newPods);
    if whole == 0 then 100 else (whole - left) * 100 / whole
  }

  lemma {:induction false} ReportAt(l: Limits, c: Counts, obs: seq<Observation>, n: nat, told: seq<int>, i: nat)
    requires ValidLimits(l) && ValidCounts(c) && n <= |obs| && i < n && Abs(l.desired - c.newPods) <= MAX_GOAL
    requires ToldEachTurn(l, Abs(l.desired - c.newPods), c, obs, n, told)
    ensures told[2 * i] == told[2 * i + 1] == Covered(l, c, After(l, c, obs, i + 1))
  {
    var goal, d := Abs(l.desired - c.newPods), After(l, c, obs, i + 1);
    AfterNotFarther(l, c, obs, i + 1);
    if goal > 0 { PercentageExact(l, goal, d.newPods); }
  }

  lemma {:induction false} AfterNotFarther(l: Limits, c: Counts, obs: seq<Observation>, i: nat)
    requires ValidLimits(l) && ValidCounts(c) && i <= |obs|
    ensures ValidCounts(After(l, c, obs, i))
    ensures Abs(l.desired - After(l, c, obs, i).newPods) <= Abs(l.desired - c.newPods)
  {
    if i > 0 {
      AfterNotFarther(l, c, obs, i - 1);
      TurnProgress(l, After(l, c, obs, i - 1), obs[i - 1].newAvailable);
    }
  }

  /** The minimum that must stay available, the goal of the progress reports, and the loop. */
  method ScaleUntilDone(server: Server, newRc: ReplicationController, oldRc: ReplicationController, l: Limits,
                        q: Request)
    returns (status: Status, reports: seq<int>)
    requires newRc != oldRc && newRc.name != oldRc.name && server.Valid()
    requires newRc.name in server.controllers && oldRc.name in server.controllers
    modifies server, newRc`replicas, oldRc`replicas
    ensures server.Valid()
    ensures var c := old(SizesOf(oldRc, newRc));
            var r := UpdateRun(l, q, c);
            && status == r.status && reports == r.reports
            && Follows(old(server.controllers), server.controllers, oldRc.name, newRc.name, c, r.final)
  {
    var minAvailable := if l.desired - l.maxUnavailable < 0 then 0 else l.desired - l.maxUnavailable;
    if l.desired == 0 {
      minAvailable := 0;
    }
    var goal := l.desired - newRc.Size();
    if goal < 0 {
      goal := -goal;
    }
    status, reports := Loop(server, newRc, oldRc, l, minAvailable, goal, q.timeout, q.start, q.obs);
  }

  // ----- before the loop -----

  datatype UpdateError = CallFails | InvalidSpec | UnexpectedAnnotations | UnparsableDesired | NoRoomToMove

  /** The new controller as it is first created: empty, with its size as the goal. */
  function Created(n: Controller, source: string): Controller {
    n.(desired := Number(SizeOf(n)), sourceID := Some(source), replicas := Some(0))
  }

  /** The target is missing and its copy n is prepared for creation. */
  predicate Creates(s: Cluster, n: Controller, q: Request) {
    q.fault != Some(LookupFails) && n.name !in s && SizeOf(n) > 0
  }

  function TargetError(s: Cluster, n: Controller, source: string, q: Request): Option<UpdateError> {
    if q.fault == Some(LookupFails) then Some(CallFails)
    else if n.name !in s then
      if SizeOf(n) <= 0 then Some(InvalidSpec)
      else if q.fault.Some? && q.fault.value.CreateFails? then Some(CallFails)
      else None
    else if s[n.name].sourceID != Some(source) || s[n.name].desired.Missing? then Some(UnexpectedAnnotations)
    else None
  }

  /** The server with the target found or created. */
  function WithTarget(s: Cluster, n: Controller, source: string, q: Request): Cluster {
    if Creates(s, n, q) && q.fault != Some(CreateFails(false))
    then s[n.name := Created(n, source).(uid := q.createdUID)] else s
  }

  /** The server with the current size of the old controller recorded as its original size. This happens
      whenever the copy o of the configuration lacks the record, also when the server has one. */
  function WithRecord(s: Cluster, o: Controller): Cluster
    requires o.name in s
  {
    if o.original.Missing? then s[o.name := s[o.name].(original := Number(SizeOf(s[o.name])))] else s
  }

  /** A call that the record needs fails. */
  predicate RecordLost(o: Controller, q: Request) {
    o.original.Missing? && q.fault.Some? && (q.fault.value.FetchFails? || q.fault.value.RecordFails?)
  }

  datatype Setup =
    | Rejected(error: UpdateError, cluster: Cluster)
    | Ready(cluster: Cluster, limits: Limits, view: Counts)

  /** What happens before the loop: on the server s with the copies o and n of the configuration. The sizes
      an update starts from are the server's, except that of an old controller whose copy has a record. */
  function Prepare(s: Cluster, o: Controller, n: Controller, q: Request): Setup
    requires o.name in s
  {
    var e, s1 := TargetError(s, n, SourceOf(o), q), WithTarget(s, n, SourceOf(o), q);
    if e.Some? then Rejected(e.value, s1)
    else if !s1[n.name].desired.Number? then Rejected(UnparsableDesired, s1)
    else if RecordLost(o, q) then
      Rejected(CallFails, if q.fault == Some(RecordFails(true)) then WithRecord(s1, o) else s1)
    else
      var s2, l := WithRecord(s1, o), Limits(WrapInt32(s1[n.name].desired.value), q.maxSurge, q.maxUnavailable);
      if l.desired > 0 && q.maxUnavailable == 0 && q.maxSurge == 0 then Rejected(NoRoomToMove, s2)
      else Ready(s2, l, Counts(SizeOf(if o.original.Missing? then s2[o.name] else o), SizeOf(s2[n.name])))
  }

  /** The size a controller asks for, read from its replica count alone. */
  function Asked(replicas: Option<int>): int {
    match replicas
    case None => 0
    case Some(n) => n
  }

  /** The server has the target, made for the replacement of o and with a goal. */
  predicate HasTarget(s: Cluster, o: Controller, n: Controller) {
    n.name in s && s[n.name].sourceID == Some(o.name + ":" + o.uid) && s[n.name].desired != Missing
  }

  /** Without failing calls: exactly when an update is rejected, and why. */
  lemma {:induction false} RejectedExactly(s: Cluster, o: Controller, n: Controller, q: Request)
    requires o.name in s && o.name != n.name && q.fault.None?
    ensures var p := Prepare(s, o, n, q);
            && (p.Rejected? && p.error == InvalidSpec <==> n.name !in s && Asked(n.replicas) <= 0)
            && (p.Rejected? && p.error == UnexpectedAnnotations <==> n.name in s && !HasTarget(s, o, n))
            && (p.Rejected? && p.error == UnparsableDesired <==> HasTarget(s, o, n) && s[n.name].desired.Garbled?)
            && (p.Rejected? && p.error == NoRoomToMove <==>
                  && q.maxSurge == 0 && q.maxUnavailable == 0
                  && (if n.name in s then HasTarget(s, o, n) && s[n.name].desired.Number?
                                          && WrapInt32(s[n.name].desired.value) > 0
                      else Asked(n.replicas) > 0 && WrapInt32(Asked(n.replicas)) > 0))
            && (p.Rejected? ==> p.error != CallFails)
  {
  }

  /** With a failing call: it is the error exactly when the call is made. */
  lemma {:induction false} CallFailsExactly(s: Cluster, o: Controller, n: Controller, q: Request)
    requires o.name in s && o.name != n.name && q.fault.Some?
    ensures var p := Prepare(s, o, n, q);
            p.Rejected? && p.error == CallFails <==>
              match q.fault.value
              case LookupFails => true
              case CreateFails(_) => n.name !in s && Asked(n.replicas) > 0
              case _ => o.original == Missing
                        && (if n.name in s then HasTarget(s, o, n) && s[n.name].desired.Number?
                            else Asked(n.replicas) > 0)
    ensures q.fault.value == LookupFails || q.fault.value == CreateFails(false) ==>
              (var p := Prepare(s, o, n, q); p.Rejected? && p.error == CallFails ==> p.cluster == s)
  {
  }

  /** What an accepted update finds: the target as it was or freshly created, the record of the old controller, and
      the rest of the server as it was; the goal of the target, and the two sizes it starts from. */
  lemma {:induction false} ReadyMeans(s: Cluster, o: Controller, n: Controller, q: Request)
    requires o.name in s && o.name != n.name && Prepare(s, o, n, q).Ready?
    ensures var p := Prepare(s, o, n, q);
            && p.cluster.Keys == s.Keys + {n.name}
            && (forall m :: m in s && m != o.name && m != n.name ==> p.cluster[m] == s[m])
            && p.cluster[n.name]
               == (if n.name in s then s[n.name]
                   else Controller(n.name, q.createdUID, Some(0), Number(Asked(n.replicas)), n.original,
                                   Some(o.name + ":" + o.uid)))
            && p.cluster[o.name]
               == (if o.original == Missing then s[o.name].(original := Number(Asked(s[o.name].replicas)))
                   else s[o.name])
            && p.cluster[n.name].desired.Number? && p.limits.desired == WrapInt32(p.cluster[n.name].desired.value)
            && p.limits.maxSurge == q.maxSurge && p.limits.maxUnavailable == q.maxUnavailable
            && p.view.oldPods == (if o.original == Missing then Asked(s[o.name].replicas) else Asked(o.replicas))
            && p.view.newPods == (if n.name in s then Asked(s[n.name].replicas) else 0)
  {
  }

  /** Finds the target on the server or creates it, and returns a copy. */
  method GetOrCreateTargetController(server: Server, controller: ReplicationController, source: string, q: Request)
    returns (error: Option<UpdateError>, newRc: ReplicationController?)
    requires server.Valid()
    modifies server, controller
    ensures server.Valid()
    ensures error == TargetError(old(server.controllers), old(controller.Value()), source, q)
    ensures server.controllers == WithTarget(old(server.controllers), old(controller.Value()), source, q)
    ensures error.None? ==> newRc != null && fresh(newRc) && controller.name in server.controllers
                            && newRc.Value() == server.controllers[controller.name]
    ensures controller.Value() == if Creates(old(server.controllers), old(controller.Value()), q)
                                  then Created(old(controller.Value()), source) else old(controller.Value())
  {
    if q.fault == Some(LookupFails) {
      return Some(CallFails), null;
    }
    var existingRc := server.Get(controller.name);
    if existingRc == null {
      if controller.Size() <= 0 {
        return Some(InvalidSpec), null;
      }
      controller.desiredReplicas := Number(controller.Size());
      controller.sourceID := Some(source);
      controller.replicas := Some(0);
      if q.fault != Some(CreateFails(false)) {
        server.Put(controller.Value().(uid := q.createdUID));
      }
      if q.fault.Some? && q.fault.value.CreateFails? {
        return Some(CallFails), null;
      }
      newRc := server.Get(controller.name);
      return None, newRc;
    }
    if existingRc.sourceID != Some(source) || existingRc.desiredReplicas.Missing? {
      return Some(UnexpectedAnnotations), null;
    }
    return None, existingRc;
  }

  /** Makes the record of the original size, on the server and in a new copy. */
  method RecordOriginal(server: Server, oldRc: ReplicationController, q: Request)
    returns (ok: bool, recorded: ReplicationController)
    requires server.Valid() && oldRc.name in server.controllers && oldRc.originalReplicas.Missing?
    modifies server
    ensures server.Valid() && ok == !RecordLost(oldRc.Value(), q)
    ensures server.controllers == if !ok && q.fault != Some(RecordFails(true)) then old(server.controllers)
                                  else WithRecord(old(server.controllers), oldRc.Value())
    ensures recorded.name == oldRc.name
    ensures ok ==> fresh(recorded) && recorded.Value() == server.controllers[oldRc.name]
  {
    recorded := oldRc;
    if q.fault == Some(FetchFails) {
      return false, recorded;
    }
    var existing := server.Get(oldRc.name);
    existing.originalReplicas := Number(existing.Size());
    if q.fault != Some(RecordFails(false)) {
      server.Put(existing.Value());
    }
    if q.fault.Some? && q.fault.value.RecordFails? {
      return false, recorded;
    }
    return true, existing;
  }

  /** Everything before the loop: the target, the record of the original size, and the limits. */
  method SetUp(server: Server, config: RollingUpdaterConfig, q: Request)
    returns (error: Option<UpdateError>, oldRc: ReplicationController, newRc: ReplicationController?, desired: int)
    requires server.Valid() && config.oldRc.name != config.newRc.name && config.oldRc.name in server.controllers
    modifies server, config.newRc
    ensures server.Valid()
    ensures var p := Prepare(old(server.controllers), old(config.oldRc.Value()), old(config.newRc.Value()), q);
            && server.controllers == p.cluster
            && (p.Rejected? ==> error == Some(p.error))
            && (p.Ready? ==>
                  && error.None? && newRc != null && newRc != oldRc && fresh(newRc)
                  && SizesOf(oldRc, newRc) == p.view && desired == p.limits.desired
                  && newRc.name in server.controllers && oldRc.name in server.controllers)
    ensures oldRc.name == config.oldRc.name && (newRc != null ==> newRc.name == config.newRc.name)
    ensures error.None? ==> if config.oldRc.originalReplicas.Missing? then fresh(oldRc) else oldRc == config.oldRc
    ensures config.newRc.Value() == if Creates(old(server.controllers), old(config.newRc.Value()), q)
                                    then Created(old(config.newRc.Value()), SourceOf(old(config.oldRc.Value())))
                                    else old(config.newRc.Value())
  {
    oldRc, desired := config.oldRc, 0;
    error, newRc := GetOrCreateTargetController(server, config.newRc, SourceOf(oldRc.Value()), q);
    if error.Some? {
      return error, oldRc, null, 0;
    }
    if !newRc.desiredReplicas.Number? {
      return Some(UnparsableDesired), oldRc, newRc, 0;
    }
    desired := WrapInt32(newRc.desiredReplicas.value);
    if oldRc.originalReplicas.Missing? {
      var ok;
      ok, oldRc := RecordOriginal(server, oldRc, q);
      if !ok {
        return Some(CallFails), oldRc, newRc, 0;
      }
    }
    if desired > 0 && q.maxUnavailable == 0 && q.maxSurge == 0 {
      error := Some(NoRoomToMove);
    }
  }

  // ----- after the loop -----

  /** The server after the cleanup of a finished update: the annotations of the update are gone from the new
      controller, and the old one is deleted, deleted and succeeded by name, or kept. */
  function CleanedUp(t: Cluster, policy: CleanupPolicy, oldName: string, newName: string, uid: string): Cluster
    requires newName in t
  {
    var c := t[newName].(sourceID := None, desired := Missing);
    match policy
    case DeleteOld => t[newName := c] - {oldName}
    case RenameNew => (t - {newName})[oldName := c.(name := oldName, uid := uid)]
    case PreserveOld => t[newName := c]
  }

  /** After the cleanup the new controller has no annotations of the update and its size; under its own name, or
      under that of the old one, which is gone unless it was to be preserved. Others stay. */
  lemma {:induction false} CleanedUpMeans(t: Cluster, policy: CleanupPolicy, oldName: string, newName: string,
                                          uid: string)
    requires newName in t && oldName in t && oldName != newName
    ensures var u := CleanedUp(t, policy, oldName, newName, uid);
            var name := if policy == RenameNew then oldName else newName;
            && u.Keys == (match policy
                          case DeleteOld => t.Keys - {oldName}
                          case RenameNew => t.Keys - {newName}
                          case PreserveOld => t.Keys)
            && (forall m :: m in t && m != oldName && m != newName ==> u[m] == t[m])
            && u[name].replicas == t[newName].replicas && u[name].original == t[newName].original
            && u[name].sourceID == None && u[name].desired == Missing
            && u[name].name == (if policy == RenameNew then oldName else t[newName].name)
            && (policy == PreserveOld ==> u[oldName] == t[oldName])
  {
  }

  method CleanUp(server: Server, oldName: string, newName: string, policy: CleanupPolicy, q: Request)
    requires server.Valid() && newName in server.controllers && oldName != newName
    modifies server
    ensures server.Valid()
    ensures server.controllers == CleanedUp(old(server.controllers), policy, oldName, newName, q.renamedUID)
  {
    var newRc := server.Get(newName);
    newRc.sourceID := None;
    newRc.desiredReplicas := Missing;
    server.Put(newRc.Value());
    match policy {
      case DeleteOld =>
        server.Delete(oldName);
      case RenameNew =>
        server.Delete(oldName);
        server.Delete(newName);
        server.Put(newRc.Value().(name := oldName, uid := q.renamedUID));
        assert server.controllers == CleanedUp(old(server.controllers), policy, oldName, newName, q.renamedUID);
      case PreserveOld =>
    }
  }

  // ----- Update -----

  /** The server after an update that was prepared and stopped as given. */
  function Settled(stopped: Cluster, done: bool, policy: CleanupPolicy, oldName: string, newName: string,
                   q: Request): Cluster
    requires newName in stopped
  {
    if done then CleanedUp(stopped, policy, oldName, newName, q.renamedUID) else stopped
  }

  /** Scales the two controllers until the new one has its desired size and the old one is empty, and then
      cleans up. The copies of the configuration change only where a target is created, and in the size of an
      old copy that has a record of the original size. */
  method Update(server: Server, config: RollingUpdaterConfig, q: Request)
    returns (error: Option<UpdateError>, status: Status, reports: seq<int>, ghost stopped: Cluster)
    requires server.Valid() && config.oldRc.name != config.newRc.name && config.oldRc.name in server.controllers
    modifies server, config.newRc, config.oldRc`replicas
    ensures server.Valid()
    ensures var p := Prepare(old(server.controllers), old(config.oldRc.Value()), old(config.newRc.Value()), q);
            && (p.Rejected? ==>
                  error == Some(p.error) && status == Unfinished && reports == [] && server.controllers == p.cluster)
            && (p.Ready? ==>
                  var r := UpdateRun(p.limits, q, p.view);
                  && error.None? && status == r.status && reports == r.reports
                  && Follows(p.cluster, stopped, config.oldRc.name, config.newRc.name, p.view, r.final)
                  && server.controllers == Settled(stopped, r.status == Done, config.cleanupPolicy, config.oldRc.name,
                                                   config.newRc.name, q))
    ensures config.newRc.Value() == if Creates(old(server.controllers), old(config.newRc.Value()), q)
                                    then Created(old(config.newRc.Value()), SourceOf(old(config.oldRc.Value())))
                                    else old(config.newRc.Value())
    ensures config.oldRc.originalReplicas.Missing? ==> config.oldRc.replicas == old(config.oldRc.replicas)
  {
    ghost var p := Prepare(server.controllers, config.oldRc.Value(), config.newRc.Value(), q);
    status, reports, stopped := Unfinished, [], map[];
    var oldRc, newRc, desired;
    error, oldRc, newRc, desired := SetUp(server, config, q);
    if error.Some? {
      return;
    }
    var l := Limits(desired, q.maxSurge, q.maxUnavailable);
    assert l == p.limits;
    status, reports := ScaleUntilDone(server, newRc, oldRc, l, q);
    stopped := server.controllers;
    if status == Done {
      CleanUp(server, config.oldRc.name, config.newRc.name, config.cleanupPolicy, q);
    }
  }
}
