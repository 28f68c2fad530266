/** The phase of a pod: counted from container statuses, forced by eviction, and never taken back once
    the API server shows a terminal one. */
module PodPhase {
  import opened Options

  datatype Waiting = Waiting(reason: string, message: string)

  datatype Termination = Termination(exitCode: int, reason: string, message: string, startedAt: int, finishedAt: int,
                                     containerID: string)

  /** At most one part is meant to be set; the code tests them in the order running, terminated, waiting. */
  datatype ContainerState = ContainerState(waiting: Option<Waiting>, running: Option<int>,
                                           terminated: Option<Termination>)

  datatype ContainerStatus = ContainerStatus(name: string, state: ContainerState, last: ContainerState,
                                             restartCount: int, image: string, imageID: string, containerID: string)

  datatype RestartPolicy = Always | OnFailure | Never

  datatype Phase = PodPending | PodRunning | PodSucceeded | PodFailed | PodNoSchedule

  datatype PodSpec = PodSpec(initContainers: seq<string>, containers: seq<string>, restartPolicy: RestartPolicy)

  /** The first status with the given name. */
  function Find(info: seq<ContainerStatus>, name: string): Option<ContainerStatus> {
    if info == [] then None
    else if info[0].name == name then Some(info[0])
    else Find(info[1..], name)
  }

  // ----- one container -----

  datatype Init = InitDone | InitPending | InitFailed

  function InitOf(info: seq<ContainerStatus>, name: string): Init {
    var s := Find(info, name);
    if s.None? || s.value.state.running.Some? then InitPending
    else if s.value.state.terminated.Some? then
      (if s.value.state.terminated.value.exitCode != 0 then InitFailed else InitDone)
    else if s.value.state.waiting.Some? && s.value.last.terminated.Some? then
      (if s.value.last.terminated.value.exitCode != 0 then InitFailed else InitDone)
    else InitPending
  }

  datatype Kind = Unknown | IsRunning | IsWaiting | Stopped(succeeded: bool)

  function KindOf(info: seq<ContainerStatus>, name: string): Kind {
    var s := Find(info, name);
    if s.None? then Unknown
    else if s.value.state.running.Some? then IsRunning
    else if s.value.state.terminated.Some? then Stopped(s.value.state.terminated.value.exitCode == 0)
    else if s.value.state.waiting.Some? then
      (if s.value.last.terminated.Some? then Stopped(false) else IsWaiting)
    else Unknown
  }

  // ----- one container, from the statuses -----

  /** Status i is the first one of the given name. */
  predicate First(info: seq<ContainerStatus>, name: string, i: int) {
    0 <= i < |info| && info[i].name == name && forall j :: 0 <= j < i ==> info[j].name != name
  }

  lemma {:induction false} FindFirst(info: seq<ContainerStatus>, name: string) returns (i: nat)
    ensures i <= |info| && forall j :: 0 <= j < i ==> info[j].name != name
    ensures Find(info, name) == if i < |info| then Some(info[i]) else None
    ensures i < |info| ==> First(info, name, i)
  {
    if info == [] || info[0].name == name {
      i := 0;
    } else {
      var k := FindFirst(info[1..], name);
      i := k + 1;
      forall j | 0 <= j < i ensures info[j].name != name {
        assert j > 0 ==> info[j] == info[1..][j - 1];
      }
    }
  }

  /** What a container is counted as, from its first status: running before terminated before waiting. */
  lemma {:induction false} KindMeans(info: seq<ContainerStatus>, name: string, i: int)
    ensures (forall j :: 0 <= j < |info| ==> info[j].name != name) ==> KindOf(info, name) == Unknown
    ensures First(info, name, i) ==>
              var s, k := info[i], KindOf(info, name);
              && (k == IsRunning <==> s.state.running.Some?)
              && (k == Stopped(true) <==> s.state.running.None? && s.state.terminated.Some?
                                          && s.state.terminated.value.exitCode == 0)
              && (k == Stopped(false) <==> s.state.running.None?
                                           && if s.state.terminated.Some?
                                              then s.state.terminated.value.exitCode != 0
                                              else s.state.waiting.Some? && s.last.terminated.Some?)
              && (k == IsWaiting <==> s.state.running.None? && s.state.terminated.None? && s.state.waiting.Some?
                                      && s.last.terminated.None?)
  {
    var k := FindFirst(info, name);
    if First(info, name, i) {
      assert i == k;
    }
  }

  /** What an init container is counted as: pending without a status, while it runs or before its first start, and
      then by the exit code of its termination, or of its last one while it waits for a restart. */
  lemma {:induction false} InitMeans(info: seq<ContainerStatus>, name: string, i: int)
    ensures (forall j :: 0 <= j < |info| ==> info[j].name != name) ==> InitOf(info, name) == InitPending
    ensures First(info, name, i) ==>
              var s, x := info[i], InitOf(info, name);
              && (x == InitPending <==> s.state.running.Some?
                                        || (s.state.terminated.None?
                                            && (s.state.waiting.None? || s.last.terminated.None?)))
              && (x == InitFailed <==> s.state.running.None?
                                       && if s.state.terminated.Some? then s.state.terminated.value.exitCode != 0
                                          else s.state.waiting.Some? && s.last.terminated.Some?
                                               && s.last.terminated.value.exitCode != 0)
  {
    var k := FindFirst(info, name);
    if First(info, name, i) {
      assert i == k;
    }
  }

  // ----- the phase, by quantifiers -----

  predicate SomeInit(spec: PodSpec, info: seq<ContainerStatus>, x: Init) {
    exists i :: 0 <= i < |spec.initContainers| && InitOf(info, spec.initContainers[i]) == x
  }

  predicate SomeKind(spec: PodSpec, info: seq<ContainerStatus>, k: Kind) {
    exists i :: 0 <= i < |spec.containers| && KindOf(info, spec.containers[i]) == k
  }

  predicate AllSucceeded(spec: PodSpec, info: seq<ContainerStatus>) {
    forall i :: 0 <= i < |spec.containers| ==> KindOf(info, spec.containers[i]) == Stopped(true)
  }

  /** Every container has been started: none is waiting for its first start or unknown. */
  predicate AllStarted(spec: PodSpec, info: seq<ContainerStatus>) {
    !SomeKind(spec, info, IsWaiting) && !SomeKind(spec, info, Unknown)
  }

  ghost predicate IsSucceeded(spec: PodSpec, info: seq<ContainerStatus>) {
    && spec.restartPolicy != Always
    && !SomeInit(spec, info, InitPending)
    && !(spec.restartPolicy == Never && SomeInit(spec, info, InitFailed))
    && spec.containers != [] && AllSucceeded(spec, info)
  }

  ghost predicate IsFailed(spec: PodSpec, info: seq<ContainerStatus>) {
    && spec.restartPolicy == Never
    && (SomeInit(spec, info, InitFailed)
        || (!SomeInit(spec, info, InitPending) && AllStarted(spec, info)
            && !SomeKind(spec, info, IsRunning) && SomeKind(spec, info, Stopped(false))))
  }

  ghost predicate IsRunningPhase(spec: PodSpec, info: seq<ContainerStatus>) {
    && !(spec.restartPolicy == Never && SomeInit(spec, info, InitFailed))
    && !SomeInit(spec, info, InitPending) && AllStarted(spec, info) && spec.containers != []
    && (SomeKind(spec, info, IsRunning) || spec.restartPolicy == Always
        || (spec.restartPolicy == OnFailure && SomeKind(spec, info, Stopped(false))))
  }

  // ----- the phase, from the statuses -----

  /** The first status of the name satisfies f. */
  ghost predicate FirstShows(info: seq<ContainerStatus>, name: string, f: ContainerStatus -> bool) {
    exists i :: First(info, name, i) && f(info[i])
  }

  /** The container is not running and has been: it terminated, or it waits after a termination. */
  predicate Over(s: ContainerStatus) {
    s.state.running.None? && (s.state.terminated.Some? || (s.state.waiting.Some? && s.last.terminated.Some?))
  }

  predicate ExitedZero(s: ContainerStatus) {
    s.state.running.None? && s.state.terminated.Some? && s.state.terminated.value.exitCode == 0
  }

  predicate Started(s: ContainerStatus) {
    s.state.running.Some? || Over(s)
  }

  /** The init container is over, and it exited with a code other than zero when it last did. */
  predicate InitWentWrong(s: ContainerStatus) {
    Over(s) && (if s.state.terminated.Some? then s.state.terminated else s.last.terminated).value.exitCode != 0
  }

  lemma {:induction false} ShownKind(info: seq<ContainerStatus>, name: string)
    ensures FirstShows(info, name, ExitedZero) <==> KindOf(info, name) == Stopped(true)
    ensures FirstShows(info, name, Over) <==> KindOf(info, name).Stopped?
    ensures FirstShows(info, name, Started) <==> KindOf(info, name) != Unknown && KindOf(info, name) != IsWaiting
  {
    var k := FindFirst(info, name);
    KindMeans(info, name, k);
  }

  lemma {:induction false} ShownInit(info: seq<ContainerStatus>, name: string)
    ensures FirstShows(info, name, Over) <==> InitOf(info, name) != InitPending
    ensures FirstShows(info, name, InitWentWrong) <==> InitOf(info, name) == InitFailed
  {
    var k := FindFirst(info, name);
    InitMeans(info, name, k);
  }

  /** Every init container is over, and under restart policy Never none of them went wrong. */
  ghost predicate Initialized(spec: PodSpec, info: seq<ContainerStatus>) {
    forall c :: c in spec.initContainers ==>
      FirstShows(info, c, Over) && !(spec.restartPolicy == Never && FirstShows(info, c, InitWentWrong))
  }

  lemma {:induction false} InitializedMeans(spec: PodSpec, info: seq<ContainerStatus>)
    ensures Initialized(spec, info) <==>
              !SomeInit(spec, info, InitPending) && !(spec.restartPolicy == Never && SomeInit(spec, info, InitFailed))
    ensures SomeInit(spec, info, InitFailed) <==>
              exists c :: c in spec.initContainers && FirstShows(info, c, InitWentWrong)
  {
    forall c | c in spec.initContainers {
      ShownInit(info, c);
    }
    forall x: Init ensures SomeInit(spec, info, x) <==> exists c :: c in spec.initContainers && InitOf(info, c) == x {
    }
  }

  /** A pod has succeeded exactly when it has containers, each of which terminated with code zero, its init containers
      are done, and it is not always restarted. */
  lemma {:induction false} SucceededMeans(spec: PodSpec, info: seq<ContainerStatus>)
    ensures IsSucceeded(spec, info) <==>
              && (spec.restartPolicy == OnFailure || spec.restartPolicy == Never)
              && Initialized(spec, info) && |spec.containers| > 0
              && forall c :: c in spec.containers ==> FirstShows(info, c, ExitedZero)
  {
    InitializedMeans(spec, info);
    forall c | c in spec.containers {
      ShownKind(info, c);
    }
  }

  /** A pod has failed exactly when it is never restarted and an init container went wrong, or its init containers are
      done, all its containers are over and one of them did not terminate with code zero. */
  lemma {:induction false} FailedMeans(spec: PodSpec, info: seq<ContainerStatus>)
    ensures IsFailed(spec, info) <==>
              && spec.restartPolicy == Never
              && ((exists c :: c in spec.initContainers && FirstShows(info, c, InitWentWrong))
                  || (Initialized(spec, info)
                      && (forall c :: c in spec.containers ==> FirstShows(info, c, Over))
                      && exists c :: c in spec.containers && !FirstShows(info, c, ExitedZero)))
  {
    InitializedMeans(spec, info);
    KindsShown(spec, info);
  }

  /** A pod runs exactly when its init containers are done, it has containers, all of them were started, and one of
      them is running or is to be restarted. */
  lemma {:induction false} RunningMeans(spec: PodSpec, info: seq<ContainerStatus>)
    ensures IsRunningPhase(spec, info) <==>
              && Initialized(spec, info) && |spec.containers| > 0
              && (forall c :: c in spec.containers ==> FirstShows(info, c, Started))
              && ((exists c :: c in spec.containers && !FirstShows(info, c, Over))
                  || spec.restartPolicy == Always
                  || (spec.restartPolicy == OnFailure
                      && exists c :: c in spec.containers && !FirstShows(info, c, ExitedZero)))
  {
    InitializedMeans(spec, info);
    KindsShown(spec, info);
  }

  lemma {:induction false} KindsShown(spec: PodSpec, info: seq<ContainerStatus>)
    ensures AllStarted(spec, info) <==> forall c :: c in spec.containers ==> FirstShows(info, c, Started)
    ensures AllStarted(spec, info) ==>
              && (SomeKind(spec, info, IsRunning) <==> exists c :: c in spec.containers && !FirstShows(info, c, Over))
              && (SomeKind(spec, info, IsRunning) || SomeKind(spec, info, Stopped(false)) <==>
                    exists c :: c in spec.containers && !FirstShows(info, c, ExitedZero))
    ensures (forall c :: c in spec.containers ==> FirstShows(info, c, Over)) <==>
              AllStarted(spec, info) && !SomeKind(spec, info, IsRunning)
  {
    forall c | c in spec.containers {
      ShownKind(info, c);
    }
    forall k: Kind ensures SomeKind(spec, info, k) <==> exists c :: c in spec.containers && KindOf(info, c) == k {
    }
  }

  /** getPhase: two counting loops and a decision on the counters. Each phase is reported exactly under
      its quantified condition. */
  method GetPhase(spec: PodSpec, info: seq<ContainerStatus>) returns (phase: Phase)
    ensures phase == PodSucceeded <==> IsSucceeded(spec, info)
    ensures phase == PodFailed <==> IsFailed(spec, info)
    ensures phase == PodRunning <==> IsRunningPhase(spec, info)
    ensures phase != PodNoSchedule
  {
    var pendingInitialization, failedInitialization := CountInits(spec.initContainers, info);
    var unknown, running, waiting, stopped, succeeded := CountKinds(spec.containers, info);
    assert |spec.containers| > 0 ==> spec.containers[0] in spec.containers;
    if failedInitialization > 0 && spec.restartPolicy == Never {
      return PodFailed;
    }
    if pendingInitialization > 0 || waiting > 0 {
      return PodPending;
    }
    if running > 0 && unknown == 0 {
      return PodRunning;
    }
    if running == 0 && stopped > 0 && unknown == 0 {
      if spec.restartPolicy == Always {
        return PodRunning;
      }
      if stopped == succeeded {
        return PodSucceeded;
      }
      if spec.restartPolicy == Never {
        return PodFailed;
      }
      return PodRunning;
    }
    phase := PodPending;
  }

  /** The first counting loop. */
  method CountInits(names: seq<string>, info: seq<ContainerStatus>) returns (pending: nat, failed: nat)
    ensures pending > 0 <==> exists i :: 0 <= i < |names| && InitOf(info, names[i]) == InitPending
    ensures failed > 0 <==> exists i :: 0 <= i < |names| && InitOf(info, names[i]) == InitFailed
    ensures pending + failed <= |names|
  {
    pending, failed := 0, 0;
    for i := 0 to |names|
      invariant pending + failed <= i
      invariant pending > 0 <==> exists j :: 0 <= j < i && InitOf(info, names[j]) == InitPending
      invariant failed > 0 <==> exists j :: 0 <= j < i && InitOf(info, names[j]) == InitFailed
    {
      var s := Find(info, names[i]);
      if s.None? {
        pending := pending + 1;
        continue;
      }
      var status := s.value;
      if status.state.running.Some? {
        pending := pending + 1;
      } else if status.state.terminated.Some? {
        if status.state.terminated.value.exitCode != 0 {
          failed := failed + 1;
        }
      } else if status.state.waiting.Some? {
        if status.last.terminated.Some? {
          if status.last.terminated.value.exitCode != 0 {
            failed := failed + 1;
          }
        } else {
          pending := pending + 1;
        }
      } else {
        pending := pending + 1;
      }
    }
  }

  /** The containers among the first n that are counted as k. */
  function Those(names: seq<string>, info: seq<ContainerStatus>, k: Kind, n: nat): set<nat>
    requires n <= |names|
  {
    set i: nat | i < n && KindOf(info, names[i]) == k
  }

  lemma {:induction false} OneMore(names: seq<string>, info: seq<ContainerStatus>, k: Kind, n: nat)
    requires n < |names|
    ensures |Those(names, info, k, n + 1)|
         == |Those(names, info, k, n)| + if KindOf(info, names[n]) == k then 1 else 0
  {
    var before := Those(names, info, k, n);
    assert Those(names, info, k, n + 1) == if KindOf(info, names[n]) == k then before + {n} else before;
  }

  lemma {:induction false} SomeOfThose(names: seq<string>, info: seq<ContainerStatus>, k: Kind)
    ensures |Those(names, info, k, |names|)| > 0 <==> exists i :: 0 <= i < |names| && KindOf(info, names[i]) == k
  {
    var all := Those(names, info, k, |names|);
    if |all| > 0 {
      var i :| i in all;
    }
    if i: nat :| i < |names| && KindOf(info, names[i]) == k {
      assert i in all;
      assert |all| > 0;
    }
  }

  /** The second counting loop: each counter is the number of containers of its kind. */
  method CountKinds(names: seq<string>, info: seq<ContainerStatus>)
    returns (unknown: nat, running: nat, waiting: nat, stopped: nat, succeeded: nat)
    ensures unknown + running + waiting + stopped == |names| && succeeded <= stopped
    ensures unknown > 0 <==> exists i :: 0 <= i < |names| && KindOf(info, names[i]) == Unknown
    ensures running > 0 <==> exists i :: 0 <= i < |names| && KindOf(info, names[i]) == IsRunning
    ensures waiting > 0 <==> exists i :: 0 <= i < |names| && KindOf(info, names[i]) == IsWaiting
    ensures stopped > succeeded <==> exists i :: 0 <= i < |names| && KindOf(info, names[i]) == Stopped(false)
    ensures unknown == |Those(names, info, Unknown, |names|)| && running == |Those(names, info, IsRunning, |names|)|
    ensures waiting == |Those(names, info, IsWaiting, |names|)|
    ensures succeeded == |Those(names, info, Stopped(true), |names|)|
  {
    unknown, running, waiting, stopped, succeeded := 0, 0, 0, 0, 0;
    for k := 0 to |names|
      invariant unknown + running + waiting + stopped == k
      invariant unknown == |Those(names, info, Unknown, k)| && running == |Those(names, info, IsRunning, k)|
      invariant waiting == |Those(names, info, IsWaiting, k)| && succeeded == |Those(names, info, Stopped(true), k)|
      invariant stopped == succeeded + |Those(names, info, Stopped(false), k)|
    {
      OneMore(names, info, Unknown, k);
      OneMore(names, info, IsRunning, k);
      OneMore(names, info, IsWaiting, k);
      OneMore(names, info, Stopped(true), k);
      OneMore(names, info, Stopped(false), k);
      var s := Find(info, names[k]);
      if s.None? {
        unknown := unknown + 1;
        continue;
      }
      var status := s.value;
      if status.state.running.Some? {
        running := running + 1;
      } else if status.state.terminated.Some? {
        stopped := stopped + 1;
        if status.state.terminated.value.exitCode == 0 {
          succeeded := succeeded + 1;
        }
      } else if status.state.waiting.Some? {
        if status.last.terminated.Some? {
          stopped := stopped + 1;
        } else {
          waiting := waiting + 1;
        }
      } else {
        unknown := unknown + 1;
      }
    }
    SomeOfThose(names, info, Unknown);
    SomeOfThose(names, info, IsRunning);
    SomeOfThose(names, info, IsWaiting);
    SomeOfThose(names, info, Stopped(false));
  }

  // ----- the phase that is reported -----

  datatype Eviction = Eviction(reason: string, message: string)

  /** The virtual machine of a pod: whether it is active, and whether its spec asks for shutdown. */
  datatype VM = VM(hasStatus: bool, active: bool, shutdownRequested: bool)

  datatype Report = Report(phase: Phase, reason: string, message: string)

  predicate Terminal(p: Phase) {
    p == PodSucceeded || p == PodFailed
  }

  /** The first handler that asks for eviction. */
  function FirstEviction(handlers: seq<Option<Eviction>>): Option<Eviction> {
    if handlers == [] then None
    else if handlers[0].Some? then handlers[0]
    else FirstEviction(handlers[1..])
  }

  /** A pod is evicted on the word of the first handler that asks for it, and only then. */
  lemma {:induction false} FirstEvictionMeans(handlers: seq<Option<Eviction>>, i: nat)
    requires i <= |handlers| && forall j :: 0 <= j < i ==> handlers[j] == None
    requires i < |handlers| ==> handlers[i].Some?
    ensures FirstEviction(handlers) == if i < |handlers| then handlers[i] else None
  {
    if i > 0 {
      FirstEvictionMeans(handlers[1..], i - 1);
    }
  }

  /** The phase part of generateAPIPodStatus. A terminal phase on the API server is never turned into a
      non-terminal one, and stays what it is unless the pod is evicted. */
  method GenerateStatus(spec: PodSpec, vm: Option<VM>, apiPhase: Phase, handlers: seq<Option<Eviction>>,
                        info: seq<ContainerStatus>)
    returns (r: Report)
    ensures FirstEviction(handlers).Some? ==>
              var e := FirstEviction(handlers).value; r == Report(PodFailed, e.reason, e.message)
    ensures FirstEviction(handlers).None? ==> r.reason == "" && r.message == ""
    ensures Terminal(apiPhase) ==> Terminal(r.phase)
    ensures Terminal(apiPhase) && FirstEviction(handlers).None? ==> r.phase == apiPhase
    ensures !Terminal(apiPhase) && FirstEviction(handlers).None? && vm.None? ==>
              && (r.phase == PodSucceeded <==> IsSucceeded(spec, info))
              && (r.phase == PodFailed <==> IsFailed(spec, info))
              && (r.phase == PodRunning <==> IsRunningPhase(spec, info))
    ensures !Terminal(apiPhase) && FirstEviction(handlers).None? && vm.Some? ==>
              && (r.phase == PodRunning <==> vm.value.hasStatus && vm.value.active)
              && (r.phase == PodNoSchedule <==> vm.value.hasStatus && !vm.value.active && vm.value.shutdownRequested)
              && !Terminal(r.phase)
  {
    for i := 0 to |handlers|
      invariant FirstEviction(handlers) == FirstEviction(handlers[i..])
    {
      assert handlers[i..][1..] == handlers[i + 1..];
      if handlers[i].Some? {
        return Report(PodFailed, handlers[i].value.reason, handlers[i].value.message);
      }
    }
    assert handlers[|handlers|..] == [];
    var phase;
    if vm.Some? {
      if vm.value.hasStatus && vm.value.active {
        phase := PodRunning;
      } else if vm.value.hasStatus && vm.value.shutdownRequested {
        phase := PodNoSchedule;
      } else {
        phase := PodPending;
      }
    } else {
      phase := GetPhase(spec, info);
    }
    if apiPhase == PodFailed || apiPhase == PodSucceeded {
      if phase != apiPhase {
        phase := apiPhase;
      }
    }
    r := Report(phase, "", "");
  }

  /** A failed pod needs restart policy Never, and no pod is both failed and succeeded. */
  lemma {:induction false} PhasesExclude(spec: PodSpec, info: seq<ContainerStatus>)
    ensures IsFailed(spec, info) ==> spec.restartPolicy == Never
    ensures !(IsFailed(spec, info) && IsSucceeded(spec, info))
    ensures !(IsRunningPhase(spec, info) && (IsFailed(spec, info) || IsSucceeded(spec, info)))
  {
    if IsSucceeded(spec, info) {
      assert KindOf(info, spec.containers[0]) == Stopped(true);
      assert !SomeKind(spec, info, Stopped(false)) && !SomeKind(spec, info, IsRunning);
    }
  }
}
