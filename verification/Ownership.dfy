/** Adoption and release of pods by competing controllers: the rules the API server enforces, what one
    claim does with a possibly stale view, and what holds in every interleaving of claims. */
module Ownership {
  import opened Options

  type UID = string
  type Name = string

  datatype OwnerRef = OwnerRef(uid: UID, controller: bool)

  /** What selectors and filters look at. */
  datatype Info = Info(labels: map<string, string>, detail: string)

  datatype Pod = Pod(name: Name, uid: UID, info: Info, owners: seq<OwnerRef>, deleting: bool)

  type Server = map<Name, Pod>

  datatype Error = NotFound | Invalid | Transient | CannotAdopt

  /** A patch of the owner references of the pod with this name, guarded by its UID. */
  datatype Patch = Adopt(name: Name, podUID: UID, controller: UID) | Release(name: Name, podUID: UID, controller: UID)

  // ----- the server -----

  /** The first reference marked as controller. */
  function ControllerOf(owners: seq<OwnerRef>): Option<UID> {
    if owners == [] then None
    else if owners[0].controller then Some(owners[0].uid)
    else ControllerOf(owners[1..])
  }

  /** References merge by UID: an existing one is marked as controller, otherwise one is added. */
  function WithController(owners: seq<OwnerRef>, uid: UID): seq<OwnerRef> {
    if owners == [] then [OwnerRef(uid, true)]
    else if owners[0].uid == uid then [OwnerRef(uid, true)] + owners[1..]
    else [owners[0]] + WithController(owners[1..], uid)
  }

  function WithoutOwner(owners: seq<OwnerRef>, uid: UID): seq<OwnerRef> {
    if owners == [] then []
    else (if owners[0].uid == uid then [] else [owners[0]]) + WithoutOwner(owners[1..], uid)
  }

  /** At most one reference is a controller, and no owner is listed twice. */
  predicate ValidOwners(owners: seq<OwnerRef>) {
    && (forall i, j :: 0 <= i < j < |owners| ==> !(owners[i].controller && owners[j].controller))
    && (forall i, j :: 0 <= i < j < |owners| ==> owners[i].uid != owners[j].uid)
  }

  /** The error a patch meets, if any: no such pod, another pod under the same name, nothing to release,
      or a second controller. */
  function PatchError(s: Server, p: Patch): Option<Error> {
    if p.name !in s then Some(NotFound)
    else if s[p.name].uid != p.podUID then Some(Invalid)
    else if p.Release? then (if s[p.name].owners == [] then Some(Invalid) else None)
    else if !ValidOwners(WithController(s[p.name].owners, p.controller)) then Some(Invalid)
    else None
  }

  function Patched(s: Server, p: Patch): Server
    requires p.name in s
  {
    var pod := s[p.name];
    s[p.name := pod.(owners := if p.Adopt? then WithController(pod.owners, p.controller)
                               else WithoutOwner(pod.owners, p.controller))]
  }

  /** A call that fails may have reached the server or not. */
  datatype Delivery = Answered | Broken(arrived: bool)

  /** The patch takes effect: it reaches the server and meets no error there. */
  predicate TakesEffect(s: Server, p: Patch, d: Delivery) {
    d != Broken(false) && PatchError(s, p).None?
  }

  function Send(s: Server, p: Patch, d: Delivery): (Server, Option<Error>) {
    (if TakesEffect(s, p, d) then Patched(s, p) else s, if d.Broken? then Some(Transient) else PatchError(s, p))
  }

  // ----- one manager -----

  /** The outcome of the live check, once asked. */
  datatype Once = NotAsked | Asked(ok: bool)

  datatype Manager = Manager(uid: UID, deleting: bool, canAdopt: Once)

  /** What a claim meets: the outcome of the live check if it is made now, and the fate of its patch. */
  datatype Env = Env(live: bool, delivery: Delivery)

  datatype Claim = Claim(server: Server, manager: Manager, owned: bool, error: Option<Error>, sent: Option<Patch>)

  function AskOnce(m: Manager, live: bool): Manager {
    if m.canAdopt.NotAsked? then m.(canAdopt := Asked(live)) else m
  }

  function AdoptPod(s: Server, m: Manager, pod: Pod, env: Env): Claim {
    var m1 := AskOnce(m, env.live);
    if !m1.canAdopt.ok then Claim(s, m1, false, Some(CannotAdopt), None)
    else
      var p := Adopt(pod.name, pod.uid, m.uid);
      var (s1, e) := Send(s, p, env.delivery);
      Claim(s1, m1, e.None?, if e == Some(NotFound) then None else e, Some(p))
  }

  function ReleasePod(s: Server, m: Manager, pod: Pod, env: Env): Claim {
    var p := Release(pod.name, pod.uid, m.uid);
    var (s1, e) := Send(s, p, env.delivery);
    Claim(s1, m, false, if e == Some(NotFound) || e == Some(Invalid) then None else e, Some(p))
  }

  /** ClaimObject on a view of a pod that may be stale. */
  function ClaimObject(s: Server, m: Manager, pod: Pod, matches: bool, env: Env): Claim {
    match ControllerOf(pod.owners)
    case Some(uid) =>
      if uid != m.uid then Claim(s, m, false, None, None)
      else if matches then Claim(s, m, true, None, None)
      else if m.deleting then Claim(s, m, false, None, None)
      else ReleasePod(s, m, pod, env)
    case None =>
      if m.deleting || !matches || pod.deleting then Claim(s, m, false, None, None)
      else AdoptPod(s, m, pod, env)
  }

  // ----- owner lists -----

  lemma {:induction false} TailValid(owners: seq<OwnerRef>)
    requires ValidOwners(owners) && owners != []
    ensures ValidOwners(owners[1..])
    ensures forall r :: r in owners[1..] ==> r.uid != owners[0].uid && !(r.controller && owners[0].controller)
  {
    assert forall i :: 0 <= i < |owners| - 1 ==> owners[1..][i] == owners[i + 1];
  }

  lemma {:induction false} ControllerInList(owners: seq<OwnerRef>, uid: UID)
    ensures ControllerOf(owners) == Some(uid) ==> OwnerRef(uid, true) in owners
    ensures ControllerOf(owners).None? <==> forall r :: r in owners ==> !r.controller
  {
    if owners != [] {
      ControllerInList(owners[1..], uid);
      assert owners == [owners[0]] + owners[1..];
    }
  }

  lemma {:induction false} ListedIsController(owners: seq<OwnerRef>, uid: UID)
    requires ValidOwners(owners) && OwnerRef(uid, true) in owners
    ensures ControllerOf(owners) == Some(uid)
  {
    TailValid(owners);
    if owners[0] != OwnerRef(uid, true) {
      assert OwnerRef(uid, true) in owners[1..];
      ListedIsController(owners[1..], uid);
    }
  }

  lemma {:induction false} ControllerIsListed(owners: seq<OwnerRef>, uid: UID)
    ensures ControllerOf(owners) == Some(uid) ==> OwnerRef(uid, true) in owners
    ensures ValidOwners(owners) && OwnerRef(uid, true) in owners ==> ControllerOf(owners) == Some(uid)
    ensures ControllerOf(owners).None? <==> forall r :: r in owners ==> !r.controller
  {
    ControllerInList(owners, uid);
    if ValidOwners(owners) && OwnerRef(uid, true) in owners { ListedIsController(owners, uid); }
  }

  lemma {:induction false} WithControllerMembers(owners: seq<OwnerRef>, uid: UID)
    ensures OwnerRef(uid, true) in WithController(owners, uid)
    ensures forall r: OwnerRef :: r.uid != uid ==> (r in WithController(owners, uid) <==> r in owners)
  {
    if owners != [] {
      assert owners == [owners[0]] + owners[1..];
      WithControllerMembers(owners[1..], uid);
    }
  }

  lemma {:induction false} WithoutOwnerMembers(owners: seq<OwnerRef>, uid: UID)
    ensures forall r :: r in WithoutOwner(owners, uid) <==> r in owners && r.uid != uid
  {
    if owners != [] {
      assert owners == [owners[0]] + owners[1..];
      WithoutOwnerMembers(owners[1..], uid);
    }
  }

  lemma {:induction false} ConsValid(h: OwnerRef, tail: seq<OwnerRef>)
    requires ValidOwners(tail) && forall r :: r in tail ==> r.uid != h.uid && !(r.controller && h.controller)
    ensures ValidOwners([h] + tail)
  {
  }

  lemma {:induction false} WithoutOwnerValid(owners: seq<OwnerRef>, uid: UID)
    requires ValidOwners(owners)
    ensures ValidOwners(WithoutOwner(owners, uid))
  {
    if owners != [] {
      TailValid(owners);
      WithoutOwnerMembers(owners[1..], uid);
      WithoutOwnerValid(owners[1..], uid);
      if owners[0].uid != uid { ConsValid(owners[0], WithoutOwner(owners[1..], uid)); }
    }
  }

  // ----- one claim -----

  ghost predicate ServerOk(s: Server) {
    forall n :: n in s ==> s[n].name == n && ValidOwners(s[n].owners)
  }

  ghost predicate Controls(s: Server, n: Name, podUID: UID, controller: UID) {
    n in s && s[n].uid == podUID && ControllerOf(s[n].owners) == Some(controller)
  }

  /** A patch that goes through: the pod keeps its identity, its owners stay valid, and no other
      controller loses it. */
  lemma {:induction false} PatchEffect(s: Server, p: Patch)
    requires ServerOk(s) && PatchError(s, p).None?
    ensures ServerOk(Patched(s, p))
    ensures p.Adopt? ==> Controls(Patched(s, p), p.name, p.podUID, p.controller)
    ensures p.Release? ==> !Controls(Patched(s, p), p.name, p.podUID, p.controller)
    ensures forall n, u, c :: Controls(s, n, u, c) && !(p.Release? && n == p.name && c == p.controller) ==>
              Controls(Patched(s, p), n, u, c)
  {
    var pod := s[p.name];
    WithControllerMembers(pod.owners, p.controller);
    WithoutOwnerMembers(pod.owners, p.controller);
    WithoutOwnerValid(pod.owners, p.controller);
    ControllerIsListed(Patched(s, p)[p.name].owners, p.controller);
    forall n, u, c | Controls(s, n, u, c) && !(p.Release? && n == p.name && c == p.controller)
      ensures Controls(Patched(s, p), n, u, c)
    {
      if n == p.name {
        ControllerIsListed(pod.owners, c);
        assert OwnerRef(c, true) in Patched(s, p)[n].owners;
        ControllerIsListed(Patched(s, p)[n].owners, c);
      }
    }
  }

  /** The references of other owners than uid are the same in both lists. */
  ghost predicate SameOthers(a: seq<OwnerRef>, b: seq<OwnerRef>, uid: UID) {
    forall r: OwnerRef :: r.uid != uid ==> (r in a <==> r in b)
  }

  /** A patch that goes through changes the owners of one pod, and there only the reference of its sender. */
  lemma {:induction false} PatchFrame(s: Server, p: Patch)
    requires PatchError(s, p).None?
    ensures var t := Patched(s, p);
            && t.Keys == s.Keys
            && (forall n :: n in s && t[n] != s[n] ==> n == p.name && s[n].uid == p.podUID)
            && (forall n :: n in s ==> t[n] == s[n].(owners := t[n].owners))
            && (forall n :: n in s ==> SameOthers(s[n].owners, t[n].owners, p.controller))
  {
    WithControllerMembers(s[p.name].owners, p.controller);
    WithoutOwnerMembers(s[p.name].owners, p.controller);
  }

  /** What a claim sends concerns the pod that was seen and its own controller, and is all it does. */
  lemma {:induction false} ClaimSends(s: Server, m: Manager, pod: Pod, matches: bool, env: Env)
    ensures var r := ClaimObject(s, m, pod, matches, env);
            && (r.sent.Some? ==>
                  var p := r.sent.value; p.name == pod.name && p.podUID == pod.uid && p.controller == m.uid)
            && (r.sent.Some? ==> !m.deleting && (r.sent.value.Release? ==> !matches))
            && r.server == (if r.sent.Some? && TakesEffect(s, r.sent.value, env.delivery)
                            then Patched(s, r.sent.value) else s)
            && (r.owned && ControllerOf(pod.owners).None? ==>
                  r.sent == Some(Adopt(pod.name, pod.uid, m.uid)) && TakesEffect(s, r.sent.value, env.delivery))
  {
  }

  /** One claim, whatever the view says: nothing is sent by a controller that is being deleted; at most
      the viewed pod changes, and only while it is the very object that was seen; no other controller
      loses a pod, and no other owner a reference; and a claim that reports ownership of a pod seen as an orphan
      has made it true. */
  lemma {:induction false} ClaimEffect(s: Server, m: Manager, pod: Pod, matches: bool, env: Env)
    requires ServerOk(s)
    ensures var r := ClaimObject(s, m, pod, matches, env);
            && ServerOk(r.server) && r.server.Keys == s.Keys
            && (m.deleting ==> r.sent.None?)
            && (r.sent.None? ==> r.server == s)
            && (forall n :: n in s && r.server[n] != s[n] ==> n == pod.name && s[n].uid == pod.uid)
            && (forall n :: n in s ==> r.server[n] == s[n].(owners := r.server[n].owners))
            && (forall n, u, c :: Controls(s, n, u, c) && c != m.uid ==> Controls(r.server, n, u, c))
            && (forall n :: n in s ==> SameOthers(s[n].owners, r.server[n].owners, m.uid))
            && (r.owned && ControllerOf(pod.owners).None? ==> Controls(r.server, pod.name, pod.uid, m.uid))
  {
    var r := ClaimObject(s, m, pod, matches, env);
    ClaimSends(s, m, pod, matches, env);
    if r.sent.Some? && TakesEffect(s, r.sent.value, env.delivery) {
      PatchEffect(s, r.sent.value);
      PatchFrame(s, r.sent.value);
    }
  }

  // ----- exactly what a claim and a patch do -----

  /** The controller of a pod is the first reference marked as one. */
  lemma {:induction false} FirstController(owners: seq<OwnerRef>, i: nat)
    requires i < |owners| && owners[i].controller && forall j :: 0 <= j < i ==> !owners[j].controller
    ensures ControllerOf(owners) == Some(owners[i].uid)
  {
    if i > 0 {
      FirstController(owners[1..], i - 1);
    }
  }

  /** When the server rejects a patch of a pod whose owners are valid: there is no such pod, there is another under
      its name, there is nothing to release, or there is another controller. */
  lemma {:induction false} RejectsExactly(s: Server, p: Patch)
    requires ServerOk(s)
    ensures PatchError(s, p) == Some(NotFound) <==> p.name !in s
    ensures PatchError(s, p) == Some(Invalid) <==>
              p.name in s
              && (s[p.name].uid != p.podUID
                  || (p.Release? && |s[p.name].owners| == 0)
                  || (p.Adopt? && exists r :: r in s[p.name].owners && r.controller && r.uid != p.controller))
    ensures PatchError(s, p) in {None, Some(NotFound), Some(Invalid)}
  {
    if p.Adopt? && p.name in s && s[p.name].uid == p.podUID {
      SecondController(s[p.name].owners, p.controller);
    }
  }

  /** Marking a reference leaves valid owners valid exactly when no other reference is a controller. */
  lemma {:induction false} SecondController(owners: seq<OwnerRef>, uid: UID)
    requires ValidOwners(owners)
    ensures ValidOwners(WithController(owners, uid)) <==> forall r :: r in owners && r.controller ==> r.uid == uid
  {
    if forall r :: r in owners && r.controller ==> r.uid == uid {
      MarkedValid(owners, uid);
    } else {
      var r :| r in owners && r.controller && r.uid != uid;
      WithControllerMembers(owners, uid);
      TwoControllers(WithController(owners, uid), r, OwnerRef(uid, true));
    }
  }

  lemma {:induction false} TwoControllers(owners: seq<OwnerRef>, a: OwnerRef, b: OwnerRef)
    requires a in owners && b in owners && a.controller && b.controller && a.uid != b.uid
    ensures !ValidOwners(owners)
  {
    var i :| 0 <= i < |owners| && owners[i] == a;
    var j :| 0 <= j < |owners| && owners[j] == b;
    assert i != j;
  }

  lemma {:induction false} MarkedValid(owners: seq<OwnerRef>, uid: UID)
    requires ValidOwners(owners) && forall r :: r in owners && r.controller ==> r.uid == uid
    ensures ValidOwners(WithController(owners, uid))
  {
    if owners != [] {
      TailValid(owners);
      assert owners[0] in owners && forall r :: r in owners[1..] ==> r in owners;
      if owners[0].uid != uid {
        MarkedValid(owners[1..], uid);
        WithControllerMembers(owners[1..], uid);
        ConsValid(owners[0], WithController(owners[1..], uid));
      } else {
        ConsValid(OwnerRef(uid, true), owners[1..]);
      }
    }
  }

  /** The pod is seen without a controller, matches, and neither it nor the manager's controller is being deleted. */
  predicate WantsToAdopt(m: Manager, pod: Pod, matches: bool) {
    (forall i :: 0 <= i < |pod.owners| ==> !pod.owners[i].controller) && matches && !m.deleting && !pod.deleting
  }

  /** The pod is seen as the manager's own and no longer matches, and the manager's controller is not being deleted. */
  predicate WantsToRelease(m: Manager, pod: Pod, matches: bool) {
    ControllerOf(pod.owners) == Some(m.uid) && !matches && !m.deleting
  }

  /** The answer of the live check: the one remembered, or the one given now. */
  predicate Alive(m: Manager, env: Env) {
    match m.canAdopt
    case Asked(ok) => ok
    case NotAsked => env.live
  }

  /** For every manager, view and circumstance: exactly when the pod is claimed, what is sent, and when there is an
      error and which. A manager whose controller is being deleted still claims its own matching pods. */
  lemma {:induction false} ClaimExactly(s: Server, m: Manager, pod: Pod, matches: bool, env: Env)
    ensures var r := ClaimObject(s, m, pod, matches, env);
            var adopt, release := Adopt(pod.name, pod.uid, m.uid), Release(pod.name, pod.uid, m.uid);
            && (r.owned <==>
                  || (ControllerOf(pod.owners) == Some(m.uid) && matches)
                  || (WantsToAdopt(m, pod, matches) && Alive(m, env) && env.delivery == Answered
                      && PatchError(s, adopt).None?))
            && r.sent == (if WantsToAdopt(m, pod, matches) && Alive(m, env) then Some(adopt)
                          else if WantsToRelease(m, pod, matches) then Some(release) else None)
            && r.error == (if WantsToAdopt(m, pod, matches) then
                             (if !Alive(m, env) then Some(CannotAdopt)
                              else if env.delivery.Broken? then Some(Transient)
                              else if PatchError(s, adopt) == Some(NotFound) then None else PatchError(s, adopt))
                           else if WantsToRelease(m, pod, matches) && env.delivery.Broken? then Some(Transient)
                           else None)
            && r.manager == m.(canAdopt := if WantsToAdopt(m, pod, matches) then Asked(Alive(m, env)) else m.canAdopt)
  {
    ControllerInList(pod.owners, m.uid);
    assert ControllerOf(pod.owners).None? <==> forall i :: 0 <= i < |pod.owners| ==> !pod.owners[i].controller;
    PatchErrors(s, Release(pod.name, pod.uid, m.uid));
  }

  lemma {:induction false} PatchErrors(s: Server, p: Patch)
    ensures PatchError(s, p) in {None, Some(NotFound), Some(Invalid)}
  {
  }

  // ----- every interleaving -----

  /** The server, the managers, and every UID a pod ever had. */
  datatype World = World(server: Server, managers: seq<Manager>, used: set<UID>)

  datatype Event =
    | ClaimBy(manager: nat, view: Pod, matches: bool, env: Env)
    | Create(pod: Pod)
    | Delete(name: Name)
    | Edit(name: Name, info: Info, deleting: bool)

  predicate Enabled(w: World, e: Event) {
    match e
    case ClaimBy(i, _, _, _) => i < |w.managers|
    case Create(pod) => pod.name !in w.server && pod.uid !in w.used && ValidOwners(pod.owners)
    case Delete(n) => n in w.server
    case Edit(n, _, _) => n in w.server
  }

  function Step(w: World, e: Event): World {
    if !Enabled(w, e) then w
    else match e
      case ClaimBy(i, view, matches, env) =>
        var r := ClaimObject(w.server, w.managers[i], view, matches, env);
        w.(server := r.server, managers := w.managers[i := r.manager])
      case Create(pod) => w.(server := w.server[pod.name := pod], used := w.used + {pod.uid})
      case Delete(n) => w.(server := w.server - {n})
      case Edit(n, info, deleting) =>
        w.(server := w.server[n := w.server[n].(info := info, deleting := deleting)])
  }

  function Run(w: World, es: seq<Event>): World {
    if es == [] then w else Step(Run(w, es[..|es| - 1]), es[|es| - 1])
  }

  ghost predicate WorldOk(w: World) {
    && ServerOk(w.server)
    && (forall n :: n in w.server ==> w.server[n].uid in w.used)
    && (forall n, k :: n in w.server && k in w.server && n != k ==> w.server[n].uid != w.server[k].uid)
  }

  lemma {:induction false} StepOk(w: World, e: Event)
    requires WorldOk(w)
    ensures WorldOk(Step(w, e))
  {
    if e.ClaimBy? && Enabled(w, e) {
      ClaimEffect(w.server, w.managers[e.manager], e.view, e.matches, e.env);
    }
  }

  /** In every interleaving of claims with arbitrary stale views and of pods being created, deleted and
      edited, each pod has at most one controller, and no two pods share a UID. */
  lemma {:induction false} RunOk(w: World, es: seq<Event>)
    requires WorldOk(w)
    ensures WorldOk(Run(w, es))
  {
    if es != [] {
      RunOk(w, es[..|es| - 1]);
      StepOk(Run(w, es[..|es| - 1]), es[|es| - 1]);
    }
  }

  /** A manager of c that is not being deleted sees the pod n with UID u as its own and no longer matching,
      and its call reaches the server. */
  predicate Releases(w: World, e: Event, n: Name, u: UID, c: UID) {
    && e.ClaimBy? && e.manager < |w.managers|
    && w.managers[e.manager].uid == c && !w.managers[e.manager].deleting
    && e.view.name == n && e.view.uid == u && ControllerOf(e.view.owners) == Some(c)
    && !e.matches && e.env.delivery != Broken(false)
  }

  lemma {:induction false} ReleaseEnds(w: World, e: Event, n: Name, u: UID, c: UID)
    requires WorldOk(w) && Controls(w.server, n, u, c) && Releases(w, e, n, u, c)
    ensures !Controls(Step(w, e).server, n, u, c)
  {
    PatchEffect(w.server, Release(n, u, c));
  }

  lemma {:induction false} ControlKept(w: World, e: Event, n: Name, u: UID, c: UID)
    requires WorldOk(w) && Controls(w.server, n, u, c) && e != Delete(n) && !Releases(w, e, n, u, c)
    ensures Controls(Step(w, e).server, n, u, c)
  {
    if e.ClaimBy? && Enabled(w, e) {
      var m := w.managers[e.manager];
      var r := ClaimObject(w.server, m, e.view, e.matches, e.env);
      ClaimEffect(w.server, m, e.view, e.matches, e.env);
      if r.sent.Some? && TakesEffect(w.server, r.sent.value, e.env.delivery) {
        PatchEffect(w.server, r.sent.value);
      }
    }
  }

  /** An event ends the control of c over a pod exactly when it deletes the pod or is a release of this very
      pod by a manager of c. */
  lemma {:induction false} ControlStep(w: World, e: Event, n: Name, u: UID, c: UID)
    requires WorldOk(w) && Controls(w.server, n, u, c)
    ensures !Controls(Step(w, e).server, n, u, c) <==> e == Delete(n) || Releases(w, e, n, u, c)
  {
    if Releases(w, e, n, u, c) {
      ReleaseEnds(w, e, n, u, c);
    } else if e != Delete(n) {
      ControlKept(w, e, n, u, c);
    }
  }

  /** In every state of the run. */
  ghost predicate ControlsThroughout(w: World, es: seq<Event>, n: Name, u: UID, c: UID) {
    Controls(Run(w, es).server, n, u, c) && (es == [] || ControlsThroughout(w, es[..|es| - 1], n, u, c))
  }

  /** At no event of the run. */
  predicate NeverGivenUp(w: World, es: seq<Event>, n: Name, u: UID, c: UID) {
    es == [] ||
    var front, e := es[..|es| - 1], es[|es| - 1];
    NeverGivenUp(w, front, n, u, c) && e != Delete(n) && !Releases(Run(w, front), e, n, u, c)
  }

  /** A controller keeps a pod throughout a run exactly when the pod is not deleted and no manager of its own
      releases it: no other controller can take it away, whatever anyone's stale view shows. */
  lemma {:induction false} NeverStolen(w: World, es: seq<Event>, n: Name, u: UID, c: UID)
    requires WorldOk(w) && Controls(w.server, n, u, c)
    ensures ControlsThroughout(w, es, n, u, c) <==> NeverGivenUp(w, es, n, u, c)
  {
    if es != [] {
      var front := es[..|es| - 1];
      NeverStolen(w, front, n, u, c);
      RunOk(w, front);
      if ControlsThroughout(w, front, n, u, c) {
        ControlStep(Run(w, front), es[|es| - 1], n, u, c);
      }
    }
  }

  lemma {:induction false} DeniedSendsNoAdoption(s: Server, m: Manager, pod: Pod, matches: bool, env: Env)
    requires m.canAdopt == Asked(false)
    ensures var r := ClaimObject(s, m, pod, matches, env);
            r.manager == m && (r.sent.Some? ==> r.sent.value.Release?)
  {
  }

  /** Once the live check has denied a manager, it never sends another adoption. */
  lemma {:induction false} DeniedForGood(w: World, es: seq<Event>, i: nat)
    requires i < |w.managers| && w.managers[i].canAdopt == Asked(false)
    ensures var w' := Run(w, es);
            && i < |w'.managers| && w'.managers[i] == w.managers[i]
            && (forall pod, matches, env ::
                  var r := ClaimObject(w'.server, w'.managers[i], pod, matches, env);
                  r.sent.Some? ==> r.sent.value.Release?)
  {
    if es != [] {
      var front, e := es[..|es| - 1], es[|es| - 1];
      DeniedForGood(w, front, i);
      if e.ClaimBy? && e.manager == i {
        DeniedSendsNoAdoption(Run(w, front).server, w.managers[i], e.view, e.matches, e.env);
      }
    }
    var w' := Run(w, es);
    forall pod, matches, env ensures var r := ClaimObject(w'.server, w'.managers[i], pod, matches, env);
                                     r.sent.Some? ==> r.sent.value.Release? {
      DeniedSendsNoAdoption(w'.server, w'.managers[i], pod, matches, env);
    }
  }
}
