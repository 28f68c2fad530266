/** One pass of ClaimPods over a list of pods: what it claims, adopts and releases when its view is up
    to date, and that a second pass has nothing left to do. */
module ClaimPasses {
  import opened Options
  import opened Ownership

  datatype Pass = Pass(server: Server, manager: Manager, claimed: seq<Pod>, errors: seq<Error>, sent: seq<Patch>)

  function AddClaim(p: Pass, pod: Pod, matches: bool, env: Env): Pass {
    var r := ClaimObject(p.server, p.manager, pod, matches, env);
    Pass(r.server, r.manager,
         p.claimed + if r.error.None? && r.owned then [pod] else [],
         p.errors + if r.error.Some? then [r.error.value] else [],
         p.sent + if r.sent.Some? then [r.sent.value] else [])
  }

  /** The pods in order, each with what its claim meets. */
  function PassOver(s: Server, m: Manager, pods: seq<Pod>, selects: Info -> bool, envs: seq<Env>): Pass
    requires |envs| == |pods|
  {
    if pods == [] then Pass(s, m, [], [], [])
    else
      var last := |pods| - 1;
      AddClaim(PassOver(s, m, pods[..last], selects, envs[..last]), pods[last], selects(pods[last].info), envs[last])
  }

  // ----- what the pass is for -----

  /** The pods a controller should own: those that selects and are its own, or orphans not being deleted. */
  predicate Wanted(m: Manager, selects: Info -> bool, pod: Pod) {
    selects(pod.info)
    && (ControllerOf(pod.owners) == Some(m.uid) || (ControllerOf(pod.owners).None? && !pod.deleting))
  }

  function WantedOf(m: Manager, selects: Info -> bool, pods: seq<Pod>): seq<Pod> {
    if pods == [] then []
    else
      var last := |pods| - 1;
      WantedOf(m, selects, pods[..last]) + if Wanted(m, selects, pods[last]) then [pods[last]] else []
  }

  /** The pod once its ownership is as it should be. */
  function Settle(m: Manager, selects: Info -> bool, pod: Pod): Pod {
    if ControllerOf(pod.owners) == Some(m.uid) && !selects(pod.info) then
      pod.(owners := WithoutOwner(pod.owners, m.uid))
    else if Wanted(m, selects, pod) && ControllerOf(pod.owners).None? then
      pod.(owners := WithController(pod.owners, m.uid))
    else pod
  }

  /** The list shows pods as they are on the server, each once. */
  ghost predicate Fresh(s: Server, pods: seq<Pod>) {
    && (forall i :: 0 <= i < |pods| ==> pods[i].name in s && s[pods[i].name] == pods[i])
    && (forall i, j :: 0 <= i < j < |pods| ==> pods[i].name != pods[j].name)
  }

  ghost predicate Willing(m: Manager) {
    !m.deleting && m.canAdopt != Asked(false)
  }

  function Calm(n: nat): seq<Env> {
    seq(n, i => Env(true, Answered))
  }

  lemma {:induction false} AdoptionValid(owners: seq<OwnerRef>, uid: UID)
    requires ValidOwners(owners) && ControllerOf(owners).None?
    ensures ValidOwners(WithController(owners, uid))
  {
    if owners != [] {
      TailValid(owners);
      ControllerIsListed(owners, uid);
      assert owners[0] in owners && forall r :: r in owners[1..] ==> r in owners;
      ControllerIsListed(owners[1..], uid);
      if owners[0].uid != uid {
        AdoptionValid(owners[1..], uid);
        WithControllerMembers(owners[1..], uid);
        ConsValid(owners[0], WithController(owners[1..], uid));
      } else {
        ConsValid(OwnerRef(uid, true), owners[1..]);
      }
    }
  }

  /** A claim on an up-to-date view does exactly what Settle says, without error. */
  lemma {:induction false} FreshClaim(s: Server, m: Manager, pod: Pod, selects: Info -> bool)
    requires ServerOk(s) && Willing(m) && pod.name in s && s[pod.name] == pod
    ensures var r := ClaimObject(s, m, pod, selects(pod.info), Env(true, Answered));
            && r.error.None? && (r.owned <==> Wanted(m, selects, pod))
            && r.server == s[pod.name := Settle(m, selects, pod)] && ServerOk(r.server)
            && r.manager.uid == m.uid && Willing(r.manager)
            && (r.sent.Some? <==> Settle(m, selects, pod) != pod
                                  || (Wanted(m, selects, pod) && ControllerOf(pod.owners).None?))
  {
    ClaimEffect(s, m, pod, selects(pod.info), Env(true, Answered));
    ControllerIsListed(pod.owners, m.uid);
    if ControllerOf(pod.owners).None? {
      AdoptionValid(pod.owners, m.uid);
    } else if ControllerOf(pod.owners) == Some(m.uid) {
      WithoutOwnerMembers(pod.owners, m.uid);
      assert OwnerRef(m.uid, true) in pod.owners;
    }
  }

  /** The listed pods are settled, everything else is untouched. */
  ghost predicate ServerSettled(s: Server, m: Manager, selects: Info -> bool, pods: seq<Pod>, t: Server) {
    && t.Keys == s.Keys
    && (forall i :: 0 <= i < |pods| ==> pods[i].name in s && t[pods[i].name] == Settle(m, selects, pods[i]))
    && (forall n :: n in s && (forall i :: 0 <= i < |pods| ==> pods[i].name != n) ==> t[n] == s[n])
  }

  ghost predicate SettledUpTo(s: Server, m: Manager, selects: Info -> bool, pods: seq<Pod>, p: Pass) {
    && ServerOk(p.server) && ServerSettled(s, m, selects, pods, p.server)
    && p.manager.uid == m.uid && Willing(p.manager)
    && p.errors == [] && p.claimed == WantedOf(m, selects, pods)
  }

  lemma {:induction false} ServerStep(s: Server, m: Manager, selects: Info -> bool, front: seq<Pod>, pod: Pod,
                                      t: Server)
    requires ServerSettled(s, m, selects, front, t)
    requires pod.name in s && forall i :: 0 <= i < |front| ==> front[i].name != pod.name
    ensures t[pod.name] == s[pod.name]
    ensures ServerSettled(s, m, selects, front + [pod], t[pod.name := Settle(m, selects, pod)])
  {
    var t', all := t[pod.name := Settle(m, selects, pod)], front + [pod];
    forall n | n in s && (forall i :: 0 <= i < |all| ==> all[i].name != n) ensures t'[n] == s[n] {
      assert all[|front|].name != n;
      forall i | 0 <= i < |front| ensures front[i].name != n { assert all[i] == front[i]; }
    }
  }

  lemma {:induction false} WantedSnoc(m: Manager, selects: Info -> bool, front: seq<Pod>, pod: Pod)
    ensures WantedOf(m, selects, front + [pod])
         == WantedOf(m, selects, front) + if Wanted(m, selects, pod) then [pod] else []
  {
    assert (front + [pod])[..|front|] == front;
  }

  lemma {:induction false} FreshAdd(p: Pass, m: Manager, pod: Pod, selects: Info -> bool)
    requires ServerOk(p.server) && Willing(p.manager) && m.uid == p.manager.uid
    requires pod.name in p.server && p.server[pod.name] == pod
    ensures var q := AddClaim(p, pod, selects(pod.info), Env(true, Answered));
            && ServerOk(q.server) && q.server == p.server[pod.name := Settle(m, selects, pod)]
            && q.manager.uid == m.uid && Willing(q.manager) && q.errors == p.errors
            && q.claimed == p.claimed + if Wanted(m, selects, pod) then [pod] else []
  {
    FreshClaim(p.server, p.manager, pod, selects);
  }

  lemma {:induction false} SettledStep(s: Server, m: Manager, selects: Info -> bool, front: seq<Pod>, pod: Pod, p: Pass)
    requires SettledUpTo(s, m, selects, front, p)
    requires pod.name in s && s[pod.name] == pod && forall i :: 0 <= i < |front| ==> front[i].name != pod.name
    ensures SettledUpTo(s, m, selects, front + [pod], AddClaim(p, pod, selects(pod.info), Env(true, Answered)))
  {
    ServerStep(s, m, selects, front, pod, p.server);
    FreshAdd(p, m, pod, selects);
    WantedSnoc(m, selects, front, pod);
  }

  lemma {:induction false} CalmSnoc(s: Server, m: Manager, front: seq<Pod>, pod: Pod, selects: Info -> bool)
    ensures PassOver(s, m, front + [pod], selects, Calm(|front| + 1))
         == AddClaim(PassOver(s, m, front, selects, Calm(|front|)), pod, selects(pod.info), Env(true, Answered))
  {
    assert (front + [pod])[..|front|] == front;
    assert Calm(|front| + 1)[..|front|] == Calm(|front|);
  }

  lemma {:induction false} FreshFront(s: Server, front: seq<Pod>, pod: Pod)
    requires Fresh(s, front + [pod])
    ensures Fresh(s, front) && pod.name in s && s[pod.name] == pod
    ensures forall i :: 0 <= i < |front| ==> front[i].name != pod.name
  {
    var pods := front + [pod];
    assert forall i :: 0 <= i < |front| ==> pods[i] == front[i];
    assert pods[|front|] == pod;
  }

  lemma {:induction false} FreshPass(s: Server, m: Manager, pods: seq<Pod>, selects: Info -> bool)
    requires ServerOk(s) && Willing(m) && Fresh(s, pods)
    ensures SettledUpTo(s, m, selects, pods, PassOver(s, m, pods, selects, Calm(|pods|)))
  {
    if pods != [] {
      var front, pod := pods[..|pods| - 1], pods[|pods| - 1];
      assert front + [pod] == pods;
      FreshFront(s, front, pod);
      FreshPass(s, m, front, selects);
      SettledStep(s, m, selects, front, pod, PassOver(s, m, front, selects, Calm(|front|)));
      CalmSnoc(s, m, front, pod, selects);
    }
  }

  lemma {:induction false} SettledControls(m: Manager, selects: Info -> bool, pod: Pod)
    requires ValidOwners(pod.owners)
    ensures ControllerOf(Settle(m, selects, pod).owners) == Some(m.uid) <==> Wanted(m, selects, pod)
    ensures Settle(m, selects, Settle(m, selects, pod)) == Settle(m, selects, pod)
    ensures Wanted(m, selects, Settle(m, selects, pod)) <==> Wanted(m, selects, pod)
    ensures Wanted(m, selects, Settle(m, selects, pod)) ==> ControllerOf(Settle(m, selects, pod).owners).Some?
  {
    var t := Settle(m, selects, pod);
    ControllerIsListed(pod.owners, m.uid);
    ControllerIsListed(t.owners, m.uid);
    WithControllerMembers(pod.owners, m.uid);
    WithoutOwnerMembers(pod.owners, m.uid);
    WithoutOwnerValid(pod.owners, m.uid);
    if ControllerOf(pod.owners).None? { AdoptionValid(pod.owners, m.uid); }
  }

  lemma {:induction false} SettledOwns(s: Server, m: Manager, selects: Info -> bool, pods: seq<Pod>, t: Server, i: nat)
    requires ServerOk(s) && Fresh(s, pods) && ServerSettled(s, m, selects, pods, t) && i < |pods|
    ensures Controls(t, pods[i].name, pods[i].uid, m.uid) <==> Wanted(m, selects, pods[i])
  {
    SettledControls(m, selects, pods[i]);
  }

  /** With an up-to-date view and no failing call, a controller that is not being deleted ends up
      controlling exactly the listed pods it wants, returns exactly those in list order, reports no
      error, and leaves every pod that is not listed as it was. */
  lemma {:induction false} PassOwnsExactly(s: Server, m: Manager, pods: seq<Pod>, selects: Info -> bool)
    requires ServerOk(s) && Willing(m) && Fresh(s, pods)
    ensures var r := PassOver(s, m, pods, selects, Calm(|pods|));
            && r.errors == [] && r.claimed == WantedOf(m, selects, pods)
            && (forall i :: 0 <= i < |pods| ==>
                  (Controls(r.server, pods[i].name, pods[i].uid, m.uid) <==>
                     selects(pods[i].info)
                     && (ControllerOf(pods[i].owners) == Some(m.uid)
                         || (ControllerOf(pods[i].owners) == None && !pods[i].deleting))))
            && (forall n :: n in s && (forall i :: 0 <= i < |pods| ==> pods[i].name != n) ==>
                  n in r.server && r.server[n] == s[n])
  {
    FreshPass(s, m, pods, selects);
    var t := PassOver(s, m, pods, selects, Calm(|pods|)).server;
    forall i | 0 <= i < |pods|
      ensures Controls(t, pods[i].name, pods[i].uid, m.uid) <==> Wanted(m, selects, pods[i])
    {
      SettledOwns(s, m, selects, pods, t, i);
    }
  }

  /** The same pods as they are on the server now. */
  ghost function Refreshed(s: Server, pods: seq<Pod>): seq<Pod>
    requires forall i :: 0 <= i < |pods| ==> pods[i].name in s
  {
    seq(|pods|, i requires 0 <= i < |pods| => s[pods[i].name])
  }

  function UIDsOf(pods: seq<Pod>): seq<UID> {
    seq(|pods|, i requires 0 <= i < |pods| => pods[i].uid)
  }

  /** Nothing is left to do for the pod. */
  ghost predicate AtRest(m: Manager, selects: Info -> bool, pod: Pod) {
    Settle(m, selects, pod) == pod && (Wanted(m, selects, pod) ==> ControllerOf(pod.owners).Some?)
  }

  lemma {:induction false} QuietPass(s: Server, m: Manager, pods: seq<Pod>, selects: Info -> bool)
    requires ServerOk(s) && Willing(m) && Fresh(s, pods)
    requires forall i :: 0 <= i < |pods| ==> AtRest(m, selects, pods[i])
    ensures var r := PassOver(s, m, pods, selects, Calm(|pods|)); r.sent == [] && r.server == s && r.manager == m
  {
    if pods != [] {
      var front, pod := pods[..|pods| - 1], pods[|pods| - 1];
      assert front + [pod] == pods;
      FreshFront(s, front, pod);
      QuietPass(s, m, front, selects);
      CalmSnoc(s, m, front, pod, selects);
      assert AtRest(m, selects, pod);
      FreshClaim(s, m, pod, selects);
    }
  }

  lemma {:induction false} UIDsSnoc(pods: seq<Pod>, pod: Pod)
    ensures UIDsOf(pods + [pod]) == UIDsOf(pods) + [pod.uid]
  {
  }

  lemma {:induction false} WantedUIDs(m: Manager, m': Manager, selects: Info -> bool, a: seq<Pod>, b: seq<Pod>)
    requires |a| == |b|
    requires forall i :: 0 <= i < |a| ==> a[i].uid == b[i].uid
    requires forall i :: 0 <= i < |a| ==> (Wanted(m, selects, a[i]) <==> Wanted(m', selects, b[i]))
    ensures UIDsOf(WantedOf(m, selects, a)) == UIDsOf(WantedOf(m', selects, b))
  {
    if a != [] {
      var last := |a| - 1;
      WantedUIDs(m, m', selects, a[..last], b[..last]);
      UIDsSnoc(WantedOf(m, selects, a[..last]), a[last]);
      UIDsSnoc(WantedOf(m', selects, b[..last]), b[last]);
      if !Wanted(m, selects, a[last]) {
        assert WantedOf(m, selects, a) == WantedOf(m, selects, a[..last]);
        assert WantedOf(m', selects, b) == WantedOf(m', selects, b[..last]);
      }
    }
  }

  /** Seen afresh after a pass, the pods are at rest and the wanted ones are the same. */
  lemma {:induction false} RefreshedAtRest(s: Server, m: Manager, pods: seq<Pod>, selects: Info -> bool, r: Pass)
    requires Fresh(s, pods) && ServerOk(s) && SettledUpTo(s, m, selects, pods, r)
    ensures var again := Refreshed(r.server, pods);
            && Fresh(r.server, again)
            && (forall i :: 0 <= i < |pods| ==> AtRest(r.manager, selects, again[i]))
            && (forall i :: 0 <= i < |pods| ==> pods[i].uid == again[i].uid)
            && (forall i :: 0 <= i < |pods| ==>
                  (Wanted(m, selects, pods[i]) <==> Wanted(r.manager, selects, again[i])))
  {
    var again := Refreshed(r.server, pods);
    forall i | 0 <= i < |pods|
      ensures AtRest(r.manager, selects, again[i])
      ensures again[i].uid == pods[i].uid && again[i].name == pods[i].name
      ensures Wanted(m, selects, pods[i]) <==> Wanted(r.manager, selects, again[i])
    {
      assert again[i] == Settle(m, selects, pods[i]);
      SettledControls(m, selects, pods[i]);
    }
  }

  lemma {:induction false} QuietAfter(s: Server, m: Manager, pods: seq<Pod>, selects: Info -> bool, r: Pass)
    requires ServerOk(s) && Fresh(s, pods) && SettledUpTo(s, m, selects, pods, r)
    ensures var again := Refreshed(r.server, pods);
            var r2 := PassOver(r.server, r.manager, again, selects, Calm(|pods|));
            r2.sent == [] && r2.server == r.server && r2.errors == [] && UIDsOf(r2.claimed) == UIDsOf(r.claimed)
  {
    RefreshedAtRest(s, m, pods, selects, r);
    var again := Refreshed(r.server, pods);
    QuietPass(r.server, r.manager, again, selects);
    FreshPass(r.server, r.manager, again, selects);
    WantedUIDs(m, r.manager, selects, pods, again);
  }

  /** A second pass over the same pods, seen afresh, sends nothing, changes nothing and claims the same
      pods again. */
  lemma {:induction false} SecondPassIsQuiet(s: Server, m: Manager, pods: seq<Pod>, selects: Info -> bool)
    requires ServerOk(s) && Willing(m) && Fresh(s, pods)
    ensures var r := PassOver(s, m, pods, selects, Calm(|pods|));
            && (forall i :: 0 <= i < |pods| ==> pods[i].name in r.server)
            && var again := Refreshed(r.server, pods);
               var r2 := PassOver(r.server, r.manager, again, selects, Calm(|pods|));
               r2.sent == [] && r2.server == r.server && r2.errors == [] && UIDsOf(r2.claimed) == UIDsOf(r.claimed)
  {
    FreshPass(s, m, pods, selects);
    QuietAfter(s, m, pods, selects, PassOver(s, m, pods, selects, Calm(|pods|)));
  }

  // ----- one claim in a pass, and the pass of a controller being deleted -----

  /** What a claim adds to a pass: the pod if it is claimed, its error if it has one, what it sent. */
  lemma {:induction false} AddClaimMeans(p: Pass, pod: Pod, matches: bool, env: Env)
    ensures var r, q := ClaimObject(p.server, p.manager, pod, matches, env), AddClaim(p, pod, matches, env);
            && q.server == r.server && q.manager == r.manager
            && q.claimed == (if r.owned then p.claimed + [pod] else p.claimed)
            && q.errors == (if r.error == None then p.errors else p.errors + [r.error.value])
            && q.sent == (if r.sent == None then p.sent else p.sent + [r.sent.value])
  {
    ClaimExactly(p.server, p.manager, pod, matches, env);
  }

  /** The pods of the list that the manager controls and that match, in list order. */
  function OwnOf(uid: UID, selects: Info -> bool, pods: seq<Pod>): seq<Pod> {
    if pods == [] then []
    else
      var front, pod := pods[..|pods| - 1], pods[|pods| - 1];
      if ControllerOf(pod.owners) == Some(uid) && selects(pod.info) then OwnOf(uid, selects, front) + [pod]
      else OwnOf(uid, selects, front)
  }

  /** A pass of a manager whose controller is being deleted returns exactly the listed pods that it controls and that
      match, whatever the views and circumstances; it sends nothing, changes nothing and has no errors. */
  lemma {:induction false} DeletingPass(s: Server, m: Manager, pods: seq<Pod>, selects: Info -> bool, envs: seq<Env>)
    requires |envs| == |pods| && m.deleting
    ensures PassOver(s, m, pods, selects, envs) == Pass(s, m, OwnOf(m.uid, selects, pods), [], [])
  {
    if pods != [] {
      var last := |pods| - 1;
      DeletingPass(s, m, pods[..last], selects, envs[..last]);
      ClaimExactly(s, m, pods[last], selects(pods[last].info), envs[last]);
    }
  }

  lemma {:induction false} OwnOfMembers(uid: UID, selects: Info -> bool, pods: seq<Pod>, pod: Pod)
    ensures multiset(OwnOf(uid, selects, pods))[pod]
         == if ControllerOf(pod.owners) == Some(uid) && selects(pod.info) then multiset(pods)[pod] else 0
  {
    if pods != [] {
      var front, p := pods[..|pods| - 1], pods[|pods| - 1];
      OwnOfMembers(uid, selects, front, pod);
      assert pods == front + [p];
      assert multiset(pods)[pod] == multiset(front)[pod] + if p == pod then 1 else 0;
    }
  }

  /** The wanted pods of a list: those that match and are the manager's own, or without a controller and not being
      deleted. */
  lemma {:induction false} WantedMembers(m: Manager, selects: Info -> bool, pods: seq<Pod>, pod: Pod)
    ensures multiset(WantedOf(m, selects, pods))[pod]
         == if selects(pod.info)
               && (ControllerOf(pod.owners) == Some(m.uid)
                   || ((forall r :: r in pod.owners ==> !r.controller) && !pod.deleting))
            then multiset(pods)[pod] else 0
  {
    ControllerInList(pod.owners, m.uid);
    WantedCount(m, selects, pods, pod);
  }

  lemma {:induction false} WantedCount(m: Manager, selects: Info -> bool, pods: seq<Pod>, pod: Pod)
    ensures multiset(WantedOf(m, selects, pods))[pod] == if Wanted(m, selects, pod) then multiset(pods)[pod] else 0
  {
    if pods != [] {
      var front, p := pods[..|pods| - 1], pods[|pods| - 1];
      WantedCount(m, selects, front, pod);
      assert pods == front + [p];
      assert multiset(pods)[pod] == multiset(front)[pod] + if p == pod then 1 else 0;
    }
  }
}
