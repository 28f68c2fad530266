/** The pod reference manager as an object: the one-time adoption check it remembers, the claims it makes
    against the server, and the loop over a list of pods. */
module RefManager {
  import opened Options
  import opened Ownership
  import opened ClaimPasses

  class ApiServer {
    var pods: Server
    var received: seq<Patch>

    constructor (pods: Server)
      ensures this.pods == pods && received == []
    {
      this.pods, this.received := pods, [];
    }

    method PatchPod(p: Patch, d: Delivery) returns (e: Option<Error>)
      modifies this
      ensures (pods, e) == Send(old(pods), p, d)
      ensures received == old(received) + [p]
      ensures d == Answered ==> e == PatchError(old(pods), p)
      ensures d.Broken? ==> e == Some(Transient)
      ensures d == Broken(false) || PatchError(old(pods), p).Some? ==> pods == old(pods)
    {
      received := received + [p];
      e := PatchError(pods, p);
      if e.None? && d != Broken(false) {
        pods := Patched(pods, p);
      }
      if d.Broken? {
        e := Some(Transient);
      }
    }
  }

  class PodControllerRefManager {
    const uid: UID
    const deleting: bool
    const selector: map<string, string> -> bool
    const filters: seq<Info -> bool>
    var canAdoptOnce: Once

    constructor (uid: UID, deleting: bool, selector: map<string, string> -> bool, filters: seq<Info -> bool>)
      ensures this.uid == uid && this.deleting == deleting && this.selector == selector && this.filters == filters
      ensures canAdoptOnce == NotAsked
    {
      this.uid, this.deleting, this.selector, this.filters := uid, deleting, selector, filters;
      canAdoptOnce := NotAsked;
    }

    function View(): Manager
      reads this
    {
      Manager(uid, deleting, canAdoptOnce)
    }

    /** The selector and every filter accept the pod. */
    predicate Selects(info: Info) {
      selector(info.labels) && forall i :: 0 <= i < |filters| ==> filters[i](info)
    }

    method Match(info: Info) returns (b: bool)
      ensures b <==> Selects(info)
      ensures b <==> selector(info.labels) && forall i :: 0 <= i < |filters| ==> filters[i](info)
    {
      if !selector(info.labels) {
        return false;
      }
      for i := 0 to |filters|
        invariant forall j :: 0 <= j < i ==> filters[j](info)
      {
        if !filters[i](info) {
          return false;
        }
      }
      b := true;
    }

    /** The live check runs at most once; later calls get the remembered answer. */
    method CanAdopt(live: bool) returns (ok: bool)
      modifies this
      ensures View() == AskOnce(old(View()), live) && canAdoptOnce == Asked(ok)
      ensures ok == if old(canAdoptOnce).NotAsked? then live else old(canAdoptOnce).ok
    {
      if canAdoptOnce.NotAsked? {
        canAdoptOnce := Asked(live);
      }
      ok := canAdoptOnce.ok;
    }

    method AdoptPod(server: ApiServer, pod: Pod, env: Env) returns (e: Option<Error>)
      modifies this, server
      ensures var r := Ownership.AdoptPod(old(server.pods), old(View()), pod, env);
              && server.pods == r.server && View() == r.manager && r.owned == e.None?
              && r.error == (if e == Some(NotFound) then None else e)
              && server.received == old(server.received) + if r.sent.Some? then [r.sent.value] else []
    {
      var ok := CanAdopt(env.live);
      if !ok {
        return Some(CannotAdopt);
      }
      e := server.PatchPod(Adopt(pod.name, pod.uid, uid), env.delivery);
    }

    method ReleasePod(server: ApiServer, pod: Pod, env: Env) returns (e: Option<Error>)
      modifies server
      ensures var r := Ownership.ReleasePod(old(server.pods), View(), pod, env);
              && server.pods == r.server && r.error == e && !r.owned
              && server.received == old(server.received) + [r.sent.value]
    {
      e := server.PatchPod(Release(pod.name, pod.uid, uid), env.delivery);
      if e == Some(NotFound) || e == Some(Invalid) {
        e := None;
      }
    }

    method ClaimOne(server: ApiServer, pod: Pod, env: Env) returns (owned: bool, e: Option<Error>)
      modifies this, server
      ensures var r := ClaimObject(old(server.pods), old(View()), pod, Selects(pod.info), env);
              && server.pods == r.server && View() == r.manager && owned == r.owned && e == r.error
              && server.received == old(server.received) + if r.sent.Some? then [r.sent.value] else []
      ensures owned <==>
                || (ControllerOf(pod.owners) == Some(uid) && Selects(pod.info))
                || (WantsToAdopt(old(View()), pod, Selects(pod.info)) && Alive(old(View()), env)
                    && env.delivery == Answered && PatchError(old(server.pods), Adopt(pod.name, pod.uid, uid)) == None)
      ensures deleting ==> server.pods == old(server.pods) && server.received == old(server.received) && e == None
    {
      ClaimExactly(server.pods, View(), pod, Selects(pod.info), env);
      var controllerRef := ControllerOf(pod.owners);
      var matches := Match(pod.info);
      if controllerRef.Some? {
        if controllerRef.value != uid {
          return false, None;
        }
        if matches {
          return true, None;
        }
        if deleting {
          return false, None;
        }
        e := ReleasePod(server, pod, env);
        return false, e;
      }
      if deleting || !matches {
        return false, None;
      }
      if pod.deleting {
        return false, None;
      }
      e := AdoptPod(server, pod, env);
      if e.Some? {
        return false, if e == Some(NotFound) then None else e;
      }
      owned := true;
    }

    method ClaimPods(server: ApiServer, pods: seq<Pod>, envs: seq<Env>)
      returns (claimed: seq<Pod>, errlist: seq<Error>)
      requires |envs| == |pods|
      modifies this, server
      ensures var r := PassOver(old(server.pods), old(View()), pods, Selects, envs);
              && server.pods == r.server && View() == r.manager && claimed == r.claimed && errlist == r.errors
              && server.received == old(server.received) + r.sent
      ensures deleting ==>
                && claimed == OwnOf(uid, Selects, pods) && errlist == []
                && server.pods == old(server.pods) && server.received == old(server.received)
    {
      claimed, errlist := [], [];
      ghost var s0, m0, log0 := server.pods, View(), server.received;
      ghost var done := Pass(s0, m0, [], [], []);
      for i := 0 to |pods|
        invariant done == PassOver(s0, m0, pods[..i], Selects, envs[..i])
        invariant done == Pass(server.pods, View(), claimed, errlist, done.sent)
        invariant server.received == log0 + done.sent
      {
        PassSnoc(s0, m0, pods, Selects, envs, i);
        var ok, err := ClaimOne(server, pods[i], envs[i]);
        done := AddClaim(done, pods[i], Selects(pods[i].info), envs[i]);
        if err.Some? {
          errlist := errlist + [err.value];
          continue;
        }
        if ok {
          claimed := claimed + [pods[i]];
        }
      }
      assert pods[..|pods|] == pods && envs[..|envs|] == envs;
      if deleting {
        DeletingPass(s0, m0, pods, Selects, envs);
      }
    }
  }

  lemma {:induction false} PassSnoc(s: Server, m: Manager, pods: seq<Pod>, selects: Info -> bool, envs: seq<Env>,
                                    i: nat)
    requires |envs| == |pods| && i < |pods|
    ensures PassOver(s, m, pods[..i + 1], selects, envs[..i + 1])
         == AddClaim(PassOver(s, m, pods[..i], selects, envs[..i]), pods[i], selects(pods[i].info), envs[i])
  {
    assert pods[..i + 1][..i] == pods[..i] && envs[..i + 1][..i] == envs[..i];
  }
}
