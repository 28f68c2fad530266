/** The rolling update as a function of what the updater observes: two replica counts, the limits on
    surge and availability, and whole runs of the scaling loop. */
module RollingUpdate {
  import opened Options

  /** The resolved limits: the target size and the two fenceposts. */
  datatype Limits = Limits(desired: int, maxSurge: int, maxUnavailable: int)

  datatype Counts = Counts(oldPods: int, newPods: int)

  /** A call that fails, or a caller that asks to stop, in one turn of the loop. A scaling call that fails
      may have reached the server or not. */
  datatype Failure =
    | ScaleUpFails(applied: bool)
    | StopAfterUp
    | ReadyPodsFails
    | ScaleDownFails(applied: bool)
    | StopAfterDown

  /** What one turn of the loop meets: the new pods that are available, the clock, a failure. */
  datatype Observation = Observation(newAvailable: int, now: int, failure: Option<Failure>)

  /** Unfinished: the observations ran out before the loop ended. */
  datatype Status = Done | TimedOut | Failed(failure: Failure) | Unfinished

  /** Counts together with the available new pods last counted. */
  datatype Snapshot = Snapshot(oldPods: int, newPods: int, available: int)

  datatype Result = Result(status: Status, final: Counts, visited: seq<Snapshot>, reports: seq<int>)

  const MAX_INT32 := 0x7FFF_FFFF

  function Abs(x: int): int {
    if x < 0 then -x else x
  }

  /** No negative limit, and room for at least one pod to move. */
  predicate ValidLimits(l: Limits) {
    && l.desired >= 0 && l.maxSurge >= 0 && l.maxUnavailable >= 0
    && (l.desired > 0 ==> l.maxSurge > 0 || l.maxUnavailable > 0)
  }

  predicate ValidCounts(c: Counts) {
    c.oldPods >= 0 && c.newPods >= 0
  }

  function MinAvailable(l: Limits): int {
    if l.desired == 0 || l.desired < l.maxUnavailable then 0 else l.desired - l.maxUnavailable
  }

  // ----- one turn -----

  /** The size of the new controller after scaleUp. */
  function ScaleUp(l: Limits, c: Counts): int {
    if c.newPods == l.desired then c.newPods
    else
      var increment := if c.oldPods == 0 then l.desired - c.newPods
                       else l.desired + l.maxSurge - (c.oldPods + c.newPods);
      if increment <= 0 then c.newPods
      else if c.newPods + increment > l.desired then l.desired
      else c.newPods + increment
  }

  /** The size of the old controller after scaleDown. */
  function ScaleDown(l: Limits, c: Counts, newAvailable: int): int {
    if c.oldPods == 0 then 0
    else
      var decrement := c.oldPods + c.newPods - MinAvailable(l) - (c.newPods - newAvailable);
      if decrement <= 0 then c.oldPods
      else if (c.newPods == l.desired && newAvailable == l.desired) || c.oldPods - decrement < 0 then 0
      else c.oldPods - decrement
  }

  function AfterUp(l: Limits, c: Counts): Counts {
    Counts(c.oldPods, ScaleUp(l, c))
  }

  function Turn(l: Limits, c: Counts, newAvailable: int): Counts {
    var c1 := AfterUp(l, c);
    Counts(ScaleDown(l, c1, newAvailable), c1.newPods)
  }

  predicate Final(l: Limits, c: Counts) {
    c.newPods == l.desired && c.oldPods == 0
  }

  function Max(a: int, b: int): int {
    if a < b then b else a
  }

  function Min(a: int, b: int): int {
    if a < b then a else b
  }

  /** The smallest number of pods that must stay available is the target less what may be unavailable. */
  lemma {:induction false} MinAvailableMeans(l: Limits)
    requires ValidLimits(l)
    ensures MinAvailable(l) == Max(0, l.desired - l.maxUnavailable)
  {
  }

  /** With this many new pods the surge limit is kept, or there are no old pods to keep it with. */
  predicate WithinSurge(l: Limits, oldPods: int, newPods: int) {
    oldPods == 0 || oldPods + newPods <= l.desired + l.maxSurge
  }

  /** With this many old pods enough pods stay available. */
  predicate EnoughLeft(l: Limits, oldPods: int, newAvailable: int) {
    oldPods + newAvailable >= Max(0, l.desired - l.maxUnavailable)
  }

  /** A new controller that is not larger than desired is scaled up as far as the surge limit allows, or all the
      way when there are no old pods. A larger one is brought to desired while there are old pods and there is
      room under the surge limit, and otherwise left alone. */
  lemma {:induction false} ScaleUpMost(l: Limits, c: Counts)
    requires ValidLimits(l) && ValidCounts(c)
    ensures var n := ScaleUp(l, c);
            && (c.newPods <= l.desired ==> c.newPods <= n <= l.desired)
            && (n > c.newPods ==> WithinSurge(l, c.oldPods, n))
            && (forall y :: n < y <= l.desired ==> !WithinSurge(l, c.oldPods, y))
            && (c.newPods > l.desired ==>
                  n == if c.oldPods > 0 && c.oldPods + c.newPods < l.desired + l.maxSurge then l.desired else c.newPods)
  {
  }

  /** The old controller is scaled down as far as the pods that must stay available allow, and no further. */
  lemma {:induction false} ScaleDownMost(l: Limits, c: Counts, newAvailable: int)
    requires ValidLimits(l) && ValidCounts(c)
    ensures var n := ScaleDown(l, c, newAvailable);
            && 0 <= n <= c.oldPods
            && (n < c.oldPods ==> EnoughLeft(l, n, newAvailable))
            && (forall y :: 0 <= y < n ==> !EnoughLeft(l, y, newAvailable))
  {
    MinAvailableMeans(l);
  }

  // ----- progress reports -----

  /** Two's complement wrap-around to 32 bits. */
  function WrapInt32(x: int): int {
    (x + 0x8000_0000) % 0x1_0000_0000 - 0x8000_0000
  }

  /** Integer division that truncates toward zero. */
  function TruncDiv(a: int, b: int): int
    requires b > 0
  {
    if a >= 0 then a / b else -((-a) / b)
  }

  function Percentage(l: Limits, goal: int, newPods: int): int {
    if goal > 0 then TruncDiv(WrapInt32((goal - Abs(l.desired - newPods)) * 100), goal) else 100
  }

  // ----- whole runs -----

  /** The call of the turn that fails, if it is made at all. */
  function FailureOf(l: Limits, c: Counts, o: Observation): Option<Failure> {
    var c1 := AfterUp(l, c);
    match o.failure
    case None => None
    case Some(ScaleUpFails(_)) => if c1 != c then o.failure else None
    case Some(ReadyPodsFails) => if c.oldPods != 0 then o.failure else None
    case Some(ScaleDownFails(_)) => if Turn(l, c, o.newAvailable) != c1 then o.failure else None
    case Some(_) => o.failure
  }

  /** What the caller is told in one turn. */
  function TurnReports(l: Limits, goal: int, c: Counts, o: Observation): seq<int> {
    var p := Percentage(l, goal, ScaleUp(l, c));
    match FailureOf(l, c, o)
    case Some(ScaleUpFails(_)) => []
    case Some(StopAfterUp) => [p]
    case Some(ReadyPodsFails) => [p]
    case Some(ScaleDownFails(_)) => [p]
    case _ => [p, p]
  }

  /** The counts after the scale-up of the turn, as the server has them. */
  function TurnMiddle(l: Limits, c: Counts, o: Observation): Counts {
    if FailureOf(l, c, o) == Some(ScaleUpFails(false)) then c else AfterUp(l, c)
  }

  /** The counts when the turn ends or fails, as the server has them. */
  function TurnEnd(l: Limits, c: Counts, o: Observation): Counts {
    match FailureOf(l, c, o)
    case Some(ScaleUpFails(_)) => TurnMiddle(l, c, o)
    case Some(StopAfterUp) => AfterUp(l, c)
    case Some(ReadyPodsFails) => AfterUp(l, c)
    case Some(ScaleDownFails(false)) => AfterUp(l, c)
    case _ => Turn(l, c, o.newAvailable)
  }

  function TurnVisits(l: Limits, c: Counts, available: int, o: Observation): seq<Snapshot> {
    var c1, c2 := TurnMiddle(l, c, o), TurnEnd(l, c, o);
    [Snapshot(c1.oldPods, c1.newPods, available)]
      + if c2 == c1 then [] else [Snapshot(c2.oldPods, c2.newPods, o.newAvailable)]
  }

  function Continue(visits: seq<Snapshot>, reports: seq<int>, r: Result): Result {
    r.(visited := visits + r.visited, reports := reports + r.reports)
  }

  /** The loop of Update. The deadline moves only when a count changed. */
  function Run(l: Limits, goal: int, timeout: int, deadline: int, c: Counts, available: int,
               obs: seq<Observation>): Result
    decreases |obs|
  {
    if Final(l, c) then Result(Done, c, [], [100])
    else if obs == [] then Result(Unfinished, c, [], [])
    else
      var o := obs[0];
      var c', visits, reports := TurnEnd(l, c, o), TurnVisits(l, c, available, o), TurnReports(l, goal, c, o);
      if FailureOf(l, c, o).Some? then Result(Failed(FailureOf(l, c, o).value), c', visits, reports)
      else if c' == c && o.now > deadline then Result(TimedOut, c', visits, reports)
      else
        var deadline' := if c' != c then o.now + timeout else deadline;
        Continue(visits, reports, Run(l, goal, timeout, deadline', c', o.newAvailable, obs[1..]))
  }

  /** One turn of a run: it stops there or goes on from where the turn ended. */
  lemma {:induction false} RunStep(l: Limits, goal: int, timeout: int, deadline: int, c: Counts, available: int,
                                   obs: seq<Observation>)
    returns (stops: bool, deadline': int)
    requires !Final(l, c) && obs != []
    ensures var o, r := obs[0], Run(l, goal, timeout, deadline, c, available, obs);
            var c', visits, reports := TurnEnd(l, c, o), TurnVisits(l, c, available, o), TurnReports(l, goal, c, o);
            && (stops ==> r.final == c' && r.visited == visits && r.reports == reports && r.status != Done)
            && (!stops ==>
                  r == Continue(visits, reports, Run(l, goal, timeout, deadline', c', o.newAvailable, obs[1..])))
            && (stops <==> FailureOf(l, c, o).Some? || (c' == c && o.now > deadline))
            && deadline' == if c' != c then o.now + timeout else deadline
  {
    var o := obs[0];
    stops := FailureOf(l, c, o).Some? || (TurnEnd(l, c, o) == c && o.now > deadline);
    deadline' := if TurnEnd(l, c, o) != c then o.now + timeout else deadline;
  }

  /** When a call that is set to fail is reached, what the turn leaves on the server, and what it tells: after
      the scale-up and after the scale-down the percentage of the new size, unless it has failed by then. */
  lemma {:induction false} TurnByCase(l: Limits, goal: int, c: Counts, o: Observation)
    ensures var up := ScaleUp(l, c);
            var down := ScaleDown(l, Counts(c.oldPods, up), o.newAvailable);
            var f, e, told := FailureOf(l, c, o), TurnEnd(l, c, o), TurnReports(l, goal, c, o);
            var p := Percentage(l, goal, up);
            match o.failure
            case None => f.None? && e == Counts(down, up) && told == [p, p]
            case Some(ScaleUpFails(applied)) =>
              if up == c.newPods then f.None? && e == Counts(down, up) && told == [p, p]
              else f == o.failure && e == Counts(c.oldPods, if applied then up else c.newPods) && told == []
            case Some(StopAfterUp) => f == o.failure && e == Counts(c.oldPods, up) && told == [p]
            case Some(ReadyPodsFails) =>
              if c.oldPods == 0 then f.None? && e == Counts(down, up) && told == [p, p]
              else f == o.failure && e == Counts(c.oldPods, up) && told == [p]
            case Some(ScaleDownFails(applied)) =>
              if down == c.oldPods then f.None? && e == Counts(down, up) && told == [p, p]
              else f == o.failure && e == Counts(if applied then down else c.oldPods, up) && told == [p]
            case Some(StopAfterDown) => f == o.failure && e == Counts(down, up) && told == [p, p]
  {
  }

  // ----- how a run ends -----

  ghost predicate NothingFails(obs: seq<Observation>) {
    forall i :: 0 <= i < |obs| ==> obs[i].failure.None?
  }

  /** The sizes after the first i turns. */
  function After(l: Limits, c: Counts, obs: seq<Observation>, i: nat): Counts
    requires i <= |obs|
  {
    if i == 0 then c
    else
      var d := After(l, c, obs, i - 1);
      var up := ScaleUp(l, d);
      Counts(ScaleDown(l, Counts(d.oldPods, up), obs[i - 1].newAvailable), up)
  }

  /** The time of the last of the first i turns that changed a size. */
  function LastChange(l: Limits, c: Counts, obs: seq<Observation>, i: nat): Option<int>
    requires i <= |obs|
  {
    if i == 0 then None
    else if After(l, c, obs, i) != After(l, c, obs, i - 1) then Some(obs[i - 1].now)
    else LastChange(l, c, obs, i - 1)
  }

  /** Turn i changes nothing and ends later than the timeout allows, counted from the last change. */
  predicate Overdue(l: Limits, timeout: int, deadline: int, c: Counts, obs: seq<Observation>, i: nat)
    requires i < |obs|
  {
    && After(l, c, obs, i + 1) == After(l, c, obs, i)
    && match LastChange(l, c, obs, i)
       case None => obs[i].now > deadline
       case Some(t) => obs[i].now > t + timeout
  }

  lemma {:induction false} AfterTail(l: Limits, c: Counts, obs: seq<Observation>, i: nat)
    requires 0 < i <= |obs|
    ensures After(l, c, obs, i) == After(l, Turn(l, c, obs[0].newAvailable), obs[1..], i - 1)
  {
    if i > 1 { AfterTail(l, c, obs, i - 1); }
  }

  lemma {:induction false} LastChangeTail(l: Limits, c: Counts, obs: seq<Observation>, i: nat)
    requires 0 < i <= |obs|
    ensures var c' := Turn(l, c, obs[0].newAvailable);
            var rest := LastChange(l, c', obs[1..], i - 1);
            LastChange(l, c, obs, i) == if rest.Some? then rest else if c' != c then Some(obs[0].now) else None
  {
    AfterTail(l, c, obs, i);
    if i > 1 {
      AfterTail(l, c, obs, i - 1);
      LastChangeTail(l, c, obs, i - 1);
    }
  }

  lemma {:induction false} OverdueTail(l: Limits, timeout: int, deadline: int, c: Counts, obs: seq<Observation>, i: nat)
    requires 0 < i < |obs|
    ensures var c' := Turn(l, c, obs[0].newAvailable);
            Overdue(l, timeout, deadline, c, obs, i) <==>
              Overdue(l, timeout, if c' != c then obs[0].now + timeout else deadline, c', obs[1..], i - 1)
  {
    AfterTail(l, c, obs, i);
    AfterTail(l, c, obs, i + 1);
    LastChangeTail(l, c, obs, i);
  }

  /** The run takes n turns: until both sizes are reached, until a turn is overdue, or until there is nothing more
      to observe. */
  ghost predicate TakesTurns(l: Limits, timeout: int, deadline: int, c: Counts, obs: seq<Observation>, n: nat) {
    && n <= |obs|
    && (forall i :: 0 <= i < n ==> !Final(l, After(l, c, obs, i)))
    && (forall i :: 0 <= i < n - 1 ==> !Overdue(l, timeout, deadline, c, obs, i))
    && (n == |obs| || Final(l, After(l, c, obs, n)) || (n > 0 && Overdue(l, timeout, deadline, c, obs, n - 1)))
  }

  lemma {:induction false} TurnsOfTail(l: Limits, timeout: int, deadline: int, c: Counts, obs: seq<Observation>, n: nat)
    requires obs != [] && !Final(l, c)
    requires !Overdue(l, timeout, deadline, c, obs, 0)
    requires var c' := Turn(l, c, obs[0].newAvailable);
             TakesTurns(l, timeout, if c' != c then obs[0].now + timeout else deadline, c', obs[1..], n)
    ensures TakesTurns(l, timeout, deadline, c, obs, n + 1)
  {
    forall i | 0 <= i < n + 1 ensures !Final(l, After(l, c, obs, i)) {
      if i > 0 { AfterTail(l, c, obs, i); }
    }
    forall i | 0 <= i < n ensures !Overdue(l, timeout, deadline, c, obs, i) {
      if i > 0 { OverdueTail(l, timeout, deadline, c, obs, i); }
    }
    AfterTail(l, c, obs, n + 1);
    if n > 0 { OverdueTail(l, timeout, deadline, c, obs, n); }
  }

  /** Two reports of each turn, with the percentage of the size the turn gave the new controller. */
  ghost predicate ToldEachTurn(l: Limits, goal: int, c: Counts, obs: seq<Observation>, n: nat, reports: seq<int>)
    requires n <= |obs|
  {
    |reports| == 2 * n
    && forall i :: 0 <= i < n ==>
         reports[2 * i] == reports[2 * i + 1] == Percentage(l, goal, After(l, c, obs, i + 1).newPods)
  }

  lemma {:induction false} ToldTail(l: Limits, goal: int, c: Counts, obs: seq<Observation>, n: nat, p: int,
                                    rest: seq<int>)
    requires obs != [] && n < |obs| && p == Percentage(l, goal, ScaleUp(l, c))
    requires ToldEachTurn(l, goal, Turn(l, c, obs[0].newAvailable), obs[1..], n, rest)
    ensures ToldEachTurn(l, goal, c, obs, n + 1, [p, p] + rest)
  {
    var all := [p, p] + rest;
    forall i | 0 <= i < n + 1
      ensures all[2 * i] == all[2 * i + 1] == Percentage(l, goal, After(l, c, obs, i + 1).newPods)
    {
      AfterTail(l, c, obs, i + 1);
      if i > 0 {
        assert all[2 * i] == rest[2 * (i - 1)] && all[2 * i + 1] == rest[2 * (i - 1) + 1];
      }
    }
  }

  /** The result of a run of n turns: done exactly when both sizes are reached in time, timed out exactly when the
      last turn is overdue, with two reports a turn and 100 in the end. */
  ghost predicate EndsAfter(l: Limits, goal: int, timeout: int, deadline: int, c: Counts, obs: seq<Observation>,
                            n: nat, r: Result) {
    && TakesTurns(l, timeout, deadline, c, obs, n) && r.final == After(l, c, obs, n)
    && (r.status == TimedOut <==> n > 0 && Overdue(l, timeout, deadline, c, obs, n - 1))
    && (r.status == Done <==> Final(l, r.final) && r.status != TimedOut)
    && (r.status == Done || r.status == TimedOut || (r.status == Unfinished && n == |obs|))
    && |r.reports| >= 2 * n && ToldEachTurn(l, goal, c, obs, n, r.reports[..2 * n])
    && r.reports[2 * n..] == if r.status == Done then [100] else []
  }

  lemma {:induction false} EndsWithTail(l: Limits, goal: int, timeout: int, deadline: int, c: Counts,
                                        obs: seq<Observation>, k: nat, r: Result, rest: Result)
    requires obs != [] && !Final(l, c) && !Overdue(l, timeout, deadline, c, obs, 0)
    requires var c' := Turn(l, c, obs[0].newAvailable);
             EndsAfter(l, goal, timeout, if c' != c then obs[0].now + timeout else deadline, c', obs[1..], k, rest)
    requires var p := Percentage(l, goal, ScaleUp(l, c));
             r.status == rest.status && r.final == rest.final && r.reports == [p, p] + rest.reports
    ensures EndsAfter(l, goal, timeout, deadline, c, obs, k + 1, r)
  {
    var p := Percentage(l, goal, ScaleUp(l, c));
    TurnsOfTail(l, timeout, deadline, c, obs, k);
    AfterTail(l, c, obs, k + 1);
    if k > 0 { OverdueTail(l, timeout, deadline, c, obs, k); }
    ToldTail(l, goal, c, obs, k, p, rest.reports[..2 * k]);
    assert r.reports[..2 * (k + 1)] == [p, p] + rest.reports[..2 * k];
    assert r.reports[2 * (k + 1)..] == rest.reports[2 * k..];
  }

  lemma {:induction false} EndsAtOnce(l: Limits, goal: int, timeout: int, deadline: int, c: Counts,
                                      obs: seq<Observation>, r: Result)
    requires obs != [] && !Final(l, c) && Overdue(l, timeout, deadline, c, obs, 0)
    requires var p := Percentage(l, goal, ScaleUp(l, c));
             r.status == TimedOut && r.final == After(l, c, obs, 1) && r.reports == [p, p]
    ensures EndsAfter(l, goal, timeout, deadline, c, obs, 1, r)
  {
    ToldTail(l, goal, c, obs, 0, Percentage(l, goal, ScaleUp(l, c)), []);
    assert r.reports[..2] == r.reports + [];
  }

  /** How a run in which nothing fails ends. */
  lemma {:induction false} EndOfRun(l: Limits, goal: int, timeout: int, deadline: int, c: Counts, available: int,
                                    obs: seq<Observation>)
    returns (n: nat)
    requires NothingFails(obs)
    ensures EndsAfter(l, goal, timeout, deadline, c, obs, n, Run(l, goal, timeout, deadline, c, available, obs))
    decreases |obs|
  {
    n := 0;
    if Final(l, c) || obs == [] {
      EndsBefore(l, goal, timeout, deadline, c, available, obs);
    } else {
      var o, c' := obs[0], Turn(l, c, obs[0].newAvailable);
      var r := Run(l, goal, timeout, deadline, c, available, obs);
      FirstTurn(l, goal, timeout, deadline, c, available, obs);
      if Overdue(l, timeout, deadline, c, obs, 0) {
        n := 1;
        EndsAtOnce(l, goal, timeout, deadline, c, obs, r);
      } else {
        var deadline' := if c' != c then o.now + timeout else deadline;
        var rest := Run(l, goal, timeout, deadline', c', o.newAvailable, obs[1..]);
        var k := EndOfRun(l, goal, timeout, deadline', c', o.newAvailable, obs[1..]);
        n := k + 1;
        EndsWithTail(l, goal, timeout, deadline, c, obs, k, r, rest);
      }
    }
  }

  lemma {:induction false} EndsBefore(l: Limits, goal: int, timeout: int, deadline: int, c: Counts, available: int,
                                      obs: seq<Observation>)
    requires Final(l, c) || obs == []
    ensures EndsAfter(l, goal, timeout, deadline, c, obs, 0, Run(l, goal, timeout, deadline, c, available, obs))
  {
    assert After(l, c, obs, 0) == c;
  }

  lemma {:induction false} FirstTurn(l: Limits, goal: int, timeout: int, deadline: int, c: Counts, available: int,
                                     obs: seq<Observation>)
    requires NothingFails(obs) && obs != [] && !Final(l, c)
    ensures var o, r := obs[0], Run(l, goal, timeout, deadline, c, available, obs);
            var c', p := Turn(l, c, o.newAvailable), Percentage(l, goal, ScaleUp(l, c));
            var deadline' := if c' != c then o.now + timeout else deadline;
            if Overdue(l, timeout, deadline, c, obs, 0)
            then r.status == TimedOut && r.final == After(l, c, obs, 1) && r.reports == [p, p]
            else var rest := Run(l, goal, timeout, deadline', c', o.newAvailable, obs[1..]);
                 r.status == rest.status && r.final == rest.final && r.reports == [p, p] + rest.reports
  {
    AfterTail(l, c, obs, 1);
    var stops, deadline' := RunStep(l, goal, timeout, deadline, c, available, obs);
  }

  ghost predicate Passes(visited: seq<Snapshot>, oldPods: int, newPods: int) {
    exists v :: v in visited && v.oldPods == oldPods && v.newPods == newPods
  }

  /** The sizes of turn i are listed: those after the scale-up and those after the scale-down. */
  ghost predicate PassesTurn(l: Limits, c: Counts, obs: seq<Observation>, i: nat, visited: seq<Snapshot>)
    requires i < |obs|
  {
    var d, d' := After(l, c, obs, i), After(l, c, obs, i + 1);
    Passes(visited, d.oldPods, ScaleUp(l, d)) && Passes(visited, d'.oldPods, d'.newPods)
  }

  lemma {:induction false} PassesTail(l: Limits, c: Counts, obs: seq<Observation>, i: nat, visits: seq<Snapshot>,
                                      rest: seq<Snapshot>)
    requires i + 1 < |obs| && PassesTurn(l, Turn(l, c, obs[0].newAvailable), obs[1..], i, rest)
    ensures PassesTurn(l, c, obs, i + 1, visits + rest)
  {
    AfterTail(l, c, obs, i + 1);
    AfterTail(l, c, obs, i + 2);
    PassesMore(visits, rest);
  }

  /** Turn i is taken: the sizes are not final, and each turn before it is followed by another. */
  ghost predicate Reaches(l: Limits, timeout: int, deadline: int, c: Counts, obs: seq<Observation>, i: nat)
    decreases i
  {
    && i < |obs| && !Final(l, c)
    && (i > 0 ==>
          var o, c' := obs[0], Turn(l, c, obs[0].newAvailable);
          && !Overdue(l, timeout, deadline, c, obs, 0)
          && Reaches(l, timeout, if c' != c then o.now + timeout else deadline, c', obs[1..], i - 1))
  }

  lemma {:induction false} TakenIsReached(l: Limits, timeout: int, deadline: int, c: Counts, obs: seq<Observation>,
                                          n: nat, i: nat)
    requires TakesTurns(l, timeout, deadline, c, obs, n) && i < n
    ensures Reaches(l, timeout, deadline, c, obs, i)
    decreases i
  {
    assert !Final(l, After(l, c, obs, 0));
    if i > 0 {
      var o, c' := obs[0], Turn(l, c, obs[0].newAvailable);
      assert !Overdue(l, timeout, deadline, c, obs, 0);
      TailTakesTurns(l, timeout, deadline, c, obs, n);
      TakenIsReached(l, timeout, if c' != c then o.now + timeout else deadline, c', obs[1..], n - 1, i - 1);
    }
  }

  lemma {:induction false} PassesReached(l: Limits, goal: int, timeout: int, deadline: int, c: Counts, available: int,
                                         obs: seq<Observation>, i: nat)
    requires NothingFails(obs) && Reaches(l, timeout, deadline, c, obs, i)
    ensures PassesTurn(l, c, obs, i, Run(l, goal, timeout, deadline, c, available, obs).visited)
    decreases |obs|
  {
    if i == 0 {
      FirstPasses(l, goal, timeout, deadline, c, available, obs);
    } else {
      var o, c' := obs[0], Turn(l, c, obs[0].newAvailable);
      var deadline' := if c' != c then o.now + timeout else deadline;
      PassesReached(l, goal, timeout, deadline', c', o.newAvailable, obs[1..], i - 1);
      var rest := Run(l, goal, timeout, deadline', c', o.newAvailable, obs[1..]).visited;
      PassesTail(l, c, obs, i - 1, TurnVisits(l, c, available, o), rest);
      OthersFollow(l, goal, timeout, deadline, c, available, obs, rest);
    }
  }

  /** The sizes a run passes through are listed for every turn, so that bounds on the list are bounds on the run. */
  lemma {:induction false} PassesEachTurn(l: Limits, goal: int, timeout: int, deadline: int, c: Counts, available: int,
                                          obs: seq<Observation>, n: nat, i: nat)
    requires NothingFails(obs) && TakesTurns(l, timeout, deadline, c, obs, n) && i < n
    ensures PassesTurn(l, c, obs, i, Run(l, goal, timeout, deadline, c, available, obs).visited)
  {
    TakenIsReached(l, timeout, deadline, c, obs, n, i);
    PassesReached(l, goal, timeout, deadline, c, available, obs, i);
  }

  lemma {:induction false} FirstPasses(l: Limits, goal: int, timeout: int, deadline: int, c: Counts, available: int,
                                       obs: seq<Observation>)
    requires NothingFails(obs) && obs != [] && !Final(l, c)
    ensures PassesTurn(l, c, obs, 0, Run(l, goal, timeout, deadline, c, available, obs).visited)
  {
    var v := Run(l, goal, timeout, deadline, c, available, obs).visited;
    var stops, deadline' := RunStep(l, goal, timeout, deadline, c, available, obs);
    var visits := TurnVisits(l, c, available, obs[0]);
    AfterTail(l, c, obs, 1);
    assert visits <= v;
    assert visits[0] in v && visits[|visits| - 1] in v;
  }

  /** The other turns follow the first one unless it is overdue. */
  lemma {:induction false} OthersFollow(l: Limits, goal: int, timeout: int, deadline: int, c: Counts, available: int,
                                        obs: seq<Observation>, rest: seq<Snapshot>)
    requires NothingFails(obs) && obs != [] && !Final(l, c) && !Overdue(l, timeout, deadline, c, obs, 0)
    requires var o, c' := obs[0], Turn(l, c, obs[0].newAvailable);
             var deadline' := if c' != c then o.now + timeout else deadline;
             rest == Run(l, goal, timeout, deadline', c', o.newAvailable, obs[1..]).visited
    ensures Run(l, goal, timeout, deadline, c, available, obs).visited == TurnVisits(l, c, available, obs[0]) + rest
  {
    var stops, deadline' := RunStep(l, goal, timeout, deadline, c, available, obs);
  }

  lemma {:induction false} PassesMore(a: seq<Snapshot>, b: seq<Snapshot>)
    ensures forall x, y :: Passes(b, x, y) ==> Passes(a + b, x, y)
  {
    forall x, y | Passes(b, x, y) ensures Passes(a + b, x, y) {
      var v :| v in b && v.oldPods == x && v.newPods == y;
      assert v in a + b;
    }
  }

  lemma {:induction false} TailTakesTurns(l: Limits, timeout: int, deadline: int, c: Counts, obs: seq<Observation>,
                                          n: nat)
    requires TakesTurns(l, timeout, deadline, c, obs, n) && n > 1
    ensures var c' := Turn(l, c, obs[0].newAvailable);
            TakesTurns(l, timeout, if c' != c then obs[0].now + timeout else deadline, c', obs[1..], n - 1)
  {
    var c' := Turn(l, c, obs[0].newAvailable);
    var deadline' := if c' != c then obs[0].now + timeout else deadline;
    forall i | 0 <= i < n - 1 ensures !Final(l, After(l, c', obs[1..], i)) {
      NotFinalInTail(l, c, obs, n, i);
    }
    forall i | 0 <= i < n - 2 ensures !Overdue(l, timeout, deadline', c', obs[1..], i) {
      OverdueTail(l, timeout, deadline, c, obs, i + 1);
    }
    AfterTail(l, c, obs, n);
    OverdueTail(l, timeout, deadline, c, obs, n - 1);
  }

  lemma {:induction false} NotFinalInTail(l: Limits, c: Counts, obs: seq<Observation>, n: nat, i: nat)
    requires i + 1 < n <= |obs| && forall j :: 0 <= j < n ==> !Final(l, After(l, c, obs, j))
    ensures !Final(l, After(l, Turn(l, c, obs[0].newAvailable), obs[1..], i))
  {
    AfterTail(l, c, obs, i + 1);
    assert !Final(l, After(l, c, obs, i + 1));
  }

  // ----- termination -----

  function Distance(l: Limits, c: Counts): int {
    Abs(l.desired - c.newPods) + c.oldPods
  }

  /** Every turn that changes a count brings the run strictly closer to its end; none moves it away. */
  lemma {:induction false} TurnProgress(l: Limits, c: Counts, newAvailable: int)
    requires ValidCounts(c) && l.desired >= 0
    ensures ValidCounts(Turn(l, c, newAvailable)) && ValidCounts(AfterUp(l, c))
    ensures Turn(l, c, newAvailable) != c ==> Distance(l, Turn(l, c, newAvailable)) < Distance(l, c)
    ensures Turn(l, c, newAvailable).oldPods <= c.oldPods
    ensures Abs(l.desired - ScaleUp(l, c)) <= Abs(l.desired - c.newPods)
  {
  }

  /** The starting points from which the update can finish when every new pod is available. */
  predicate CanFinish(l: Limits, c: Counts) {
    c.newPods <= l.desired || (c.oldPods > 0 && c.oldPods + c.newPods < l.desired + l.maxSurge)
  }

  lemma {:induction false} ReadyTurn(l: Limits, c: Counts)
    requires ValidLimits(l) && ValidCounts(c) && !Final(l, c)
    ensures var c' := Turn(l, c, ScaleUp(l, c));
            && (CanFinish(l, c) ==> c' != c && c'.newPods <= l.desired)
            && (!CanFinish(l, c) ==> c' == Counts(0, c.newPods) && !CanFinish(l, c'))
  {
  }

  /** Every turn finds all new pods available and nothing fails. */
  ghost predicate AllReady(l: Limits, c: Counts, obs: seq<Observation>)
    decreases |obs|
  {
    obs == [] || Final(l, c)
    || (obs[0].failure.None? && obs[0].newAvailable == ScaleUp(l, c)
        && AllReady(l, Turn(l, c, obs[0].newAvailable), obs[1..]))
  }

  /** When every new pod is available the update finishes within Distance turns, with the new
      controller at its target and the old one at 0, exactly when CanFinish held at the start. */
  lemma {:induction false} Finishes(l: Limits, goal: int, timeout: int, deadline: int, c: Counts,
                                    available: int, obs: seq<Observation>)
    requires ValidLimits(l) && ValidCounts(c) && AllReady(l, c, obs)
    ensures var r := Run(l, goal, timeout, deadline, c, available, obs);
            && (CanFinish(l, c) && Distance(l, c) <= |obs| ==> r.status == Done && r.final == Counts(0, l.desired))
            && (r.status == Done ==> CanFinish(l, c))
    decreases |obs|
  {
    if !Final(l, c) && obs != [] {
      var o := obs[0];
      ReadyTurn(l, c);
      TurnProgress(l, c, o.newAvailable);
      var c' := Turn(l, c, o.newAvailable);
      assert TurnEnd(l, c, o) == c';
      var deadline' := if c' != c then o.now + timeout else deadline;
      Finishes(l, goal, timeout, deadline', c', o.newAvailable, obs[1..]);
    }
  }

  /** The first observation finds all new pods available. */
  predicate ReadyNow(l: Limits, c: Counts, o: Observation) {
    o.newAvailable == ScaleUp(l, c)
  }

  /** How many turns of the run find all new pods available. */
  function ReadyTurns(l: Limits, c: Counts, obs: seq<Observation>): nat
    decreases |obs|
  {
    if obs == [] || Final(l, c) then 0
    else
      (if ReadyNow(l, c, obs[0]) then 1 else 0) + ReadyTurns(l, Turn(l, c, obs[0].newAvailable), obs[1..])
  }

  lemma {:induction false} CanFinishKept(l: Limits, c: Counts, newAvailable: int)
    requires ValidLimits(l) && ValidCounts(c) && CanFinish(l, c)
    ensures CanFinish(l, Turn(l, c, newAvailable)) && ValidCounts(Turn(l, c, newAvailable))
  {
  }

  /** Once CanFinish holds, an update in which nothing fails and in which Distance turns find all new pods
      available ends where it should or times out in between, whatever the other turns find. */
  lemma {:induction false} FinishesEventually(l: Limits, goal: int, timeout: int, deadline: int, c: Counts,
                                              available: int, obs: seq<Observation>)
    requires ValidLimits(l) && ValidCounts(c) && CanFinish(l, c) && NothingFails(obs)
    requires Distance(l, c) <= ReadyTurns(l, c, obs)
    ensures var r := Run(l, goal, timeout, deadline, c, available, obs);
            r.status == TimedOut || (r.status == Done && r.final == Counts(0, l.desired))
    decreases |obs|
  {
    if !Final(l, c) {
      assert obs != [];
      var o := obs[0];
      var c' := Turn(l, c, o.newAvailable);
      var stops, deadline' := RunStep(l, goal, timeout, deadline, c, available, obs);
      assert TurnEnd(l, c, o) == c';
      TurnProgress(l, c, o.newAvailable);
      ReadyTurn(l, c);
      CanFinishKept(l, c, o.newAvailable);
      if !stops {
        FinishesEventually(l, goal, timeout, deadline', c', o.newAvailable, obs[1..]);
      }
    }
  }

  // ----- from where an update can finish at all -----

  /** No turn finds more new pods available than there are. */
  ghost predicate Plausible(l: Limits, c: Counts, obs: seq<Observation>)
    decreases |obs|
  {
    obs == [] || (0 <= obs[0].newAvailable <= ScaleUp(l, c) && Plausible(l, Turn(l, c, obs[0].newAvailable), obs[1..]))
  }

  /** CanFinish holds, or one turn with the right number of available pods can establish it: the old
      controller goes down to one pod, and then there is room under the surge limit. */
  predicate CanEverFinish(l: Limits, c: Counts) {
    CanFinish(l, c) || (c.oldPods > 0 && MinAvailable(l) >= 1 && c.newPods + 1 < l.desired + l.maxSurge)
  }

  /** A turn that finds no more pods available than there are does not create the chance to finish. */
  lemma {:induction false} NoChanceCreated(l: Limits, c: Counts, newAvailable: int)
    requires ValidLimits(l) && ValidCounts(c) && 0 <= newAvailable && !CanEverFinish(l, c)
    ensures !CanEverFinish(l, Turn(l, c, newAvailable)) && ValidCounts(Turn(l, c, newAvailable))
  {
  }

  lemma {:induction false} NeverFinishes(l: Limits, goal: int, timeout: int, deadline: int, c: Counts,
                                         available: int, obs: seq<Observation>)
    requires ValidLimits(l) && ValidCounts(c) && !CanEverFinish(l, c) && Plausible(l, c, obs)
    ensures Run(l, goal, timeout, deadline, c, available, obs).status != Done
    decreases |obs|
  {
    if !Final(l, c) && obs != [] {
      var o := obs[0];
      var stops, deadline' := RunStep(l, goal, timeout, deadline, c, available, obs);
      if !stops {
        assert TurnEnd(l, c, o) == Turn(l, c, o.newAvailable);
        NoChanceCreated(l, c, o.newAvailable);
        NeverFinishes(l, goal, timeout, deadline', Turn(l, c, o.newAvailable), o.newAvailable, obs[1..]);
      }
    }
  }

  /** Observations of a cluster in which all new pods become available at once. */
  function Prompt(l: Limits, c: Counts, n: nat): seq<Observation>
    decreases n
  {
    if n == 0 then []
    else [Observation(ScaleUp(l, c), 0, None)] + Prompt(l, Turn(l, c, ScaleUp(l, c)), n - 1)
  }

  lemma {:induction false} PromptIsReady(l: Limits, c: Counts, n: nat)
    requires ValidCounts(c) && l.desired >= 0
    ensures |Prompt(l, c, n)| == n && AllReady(l, c, Prompt(l, c, n)) && Plausible(l, c, Prompt(l, c, n))
    decreases n
  {
    if n > 0 {
      var c' := Turn(l, c, ScaleUp(l, c));
      TurnProgress(l, c, ScaleUp(l, c));
      PromptIsReady(l, c', n - 1);
      assert Prompt(l, c, n)[1..] == Prompt(l, c', n - 1);
    }
  }

  /** One turn that leaves a single old pod gives an update its chance. */
  lemma {:induction false} ChanceTurn(l: Limits, c: Counts)
    requires ValidLimits(l) && ValidCounts(c) && CanEverFinish(l, c) && !CanFinish(l, c)
    ensures 0 <= MinAvailable(l) - 1 <= ScaleUp(l, c)
    ensures var c' := Turn(l, c, MinAvailable(l) - 1); c' != c && CanFinish(l, c') && ValidCounts(c')
  {
  }

  /** Observations with which an update that has a chance finishes. */
  lemma {:induction false} FinishesSomehow(l: Limits, goal: int, timeout: int, deadline: int, c: Counts, available: int)
    returns (obs: seq<Observation>)
    requires ValidLimits(l) && ValidCounts(c) && CanEverFinish(l, c)
    ensures Plausible(l, c, obs) && Run(l, goal, timeout, deadline, c, available, obs).status == Done
  {
    if CanFinish(l, c) {
      obs := Prompt(l, c, Distance(l, c));
      PromptIsReady(l, c, Distance(l, c));
      Finishes(l, goal, timeout, deadline, c, available, obs);
    } else {
      ChanceTurn(l, c);
      var o := Observation(MinAvailable(l) - 1, 0, None);
      var c' := Turn(l, c, o.newAvailable);
      var rest := Prompt(l, c', Distance(l, c'));
      obs := [o] + rest;
      PromptIsReady(l, c', Distance(l, c'));
      assert obs[1..] == rest;
      var stops, deadline' := RunStep(l, goal, timeout, deadline, c, available, obs);
      Finishes(l, goal, timeout, deadline', c', o.newAvailable, rest);
    }
  }

  /** From given sizes some course of events that finds no more pods available than there are lets the
      update finish, exactly when CanEverFinish holds. */
  lemma {:induction false} FinishesExactly(l: Limits, goal: int, timeout: int, deadline: int, c: Counts, available: int)
    requires ValidLimits(l) && ValidCounts(c)
    ensures (exists obs :: Plausible(l, c, obs) && Run(l, goal, timeout, deadline, c, available, obs).status == Done)
            <==> CanEverFinish(l, c)
  {
    if CanEverFinish(l, c) {
      var obs := FinishesSomehow(l, goal, timeout, deadline, c, available);
    } else {
      forall obs | Plausible(l, c, obs) ensures Run(l, goal, timeout, deadline, c, available, obs).status != Done {
        NeverFinishes(l, goal, timeout, deadline, c, available, obs);
      }
    }
  }

  /** A new controller that is too large and alone is never scaled down, whatever is observed. */
  lemma {:induction false} TooLargeForever(l: Limits, goal: int, timeout: int, deadline: int, c: Counts,
                                           available: int, obs: seq<Observation>)
    requires c.oldPods == 0 && c.newPods > l.desired
    ensures var r := Run(l, goal, timeout, deadline, c, available, obs); r.status != Done && r.final == c
    decreases |obs|
  {
    if obs != [] {
      var stops, deadline' := RunStep(l, goal, timeout, deadline, c, available, obs);
      assert TurnEnd(l, c, obs[0]) == c;
      TooLargeForever(l, goal, timeout, deadline', c, obs[0].newAvailable, obs[1..]);
    }
  }

  // ----- safety along runs -----

  lemma {:induction false} TurnSurge(l: Limits, c: Counts, newAvailable: int)
    requires l.desired >= 0 && l.maxSurge >= 0 && ValidCounts(c)
    ensures var c1, c2 := AfterUp(l, c), Turn(l, c, newAvailable);
            && c1.oldPods + c1.newPods <= Max(c.oldPods + c.newPods, l.desired + l.maxSurge)
            && c2.oldPods + c2.newPods <= c1.oldPods + c1.newPods
            && c1.newPods <= Max(c.newPods, l.desired)
            && c2.oldPods <= c.oldPods
  {
  }

  /** The old controller is no larger than at most, the new one than most, and both together than bound. */
  predicate Within(oldPods: int, newPods: int, atMost: int, most: int, bound: int) {
    0 <= oldPods <= atMost && 0 <= newPods <= most && oldPods + newPods <= bound
  }

  lemma {:induction false} TurnWithin(l: Limits, c: Counts, available: int, o: Observation, atMost: int, most: int,
                                      bound: int)
    requires 0 <= l.desired <= most && l.maxSurge >= 0 && l.desired + l.maxSurge <= bound
    requires Within(c.oldPods, c.newPods, atMost, most, bound)
    ensures var e := TurnEnd(l, c, o); Within(e.oldPods, e.newPods, atMost, most, bound)
    ensures forall v :: v in TurnVisits(l, c, available, o) ==> Within(v.oldPods, v.newPods, atMost, most, bound)
  {
    TurnSurge(l, c, o.newAvailable);
    TurnProgress(l, c, o.newAvailable);
    var c1, c2 := AfterUp(l, c), Turn(l, c, o.newAvailable);
    assert Within(c1.oldPods, c1.newPods, atMost, most, bound) && Within(c2.oldPods, c2.newPods, atMost, most, bound);
  }

  lemma {:induction false} RunWithin(l: Limits, goal: int, timeout: int, deadline: int, c: Counts, available: int,
                                     obs: seq<Observation>, atMost: int, most: int, bound: int)
    requires 0 <= l.desired <= most && l.maxSurge >= 0 && l.desired + l.maxSurge <= bound
    requires Within(c.oldPods, c.newPods, atMost, most, bound)
    ensures var r := Run(l, goal, timeout, deadline, c, available, obs);
            && (forall v :: v in r.visited ==> Within(v.oldPods, v.newPods, atMost, most, bound))
            && Within(r.final.oldPods, r.final.newPods, atMost, most, bound)
    decreases |obs|
  {
    if !Final(l, c) && obs != [] {
      var stops, deadline' := RunStep(l, goal, timeout, deadline, c, available, obs);
      TurnWithin(l, c, available, obs[0], atMost, most, bound);
      RunWithin(l, goal, timeout, deadline', TurnEnd(l, c, obs[0]), obs[0].newAvailable, obs[1..], atMost, most, bound);
    }
  }

  /** Along every run, whatever is observed and wherever it fails: the two controllers together never
      exceed the larger of their initial total and the target plus surge, the new controller never
      exceeds its target (or its initial size), and the old one never grows. */
  lemma {:induction false} SurgeBound(l: Limits, goal: int, timeout: int, deadline: int, c: Counts, available: int,
                                      obs: seq<Observation>)
    requires l.desired >= 0 && l.maxSurge >= 0 && ValidCounts(c)
    ensures var r := Run(l, goal, timeout, deadline, c, available, obs);
            var most, bound := Max(c.newPods, l.desired), Max(c.oldPods + c.newPods, l.desired + l.maxSurge);
            && (forall v :: v in r.visited ==> Within(v.oldPods, v.newPods, c.oldPods, most, bound))
            && Within(r.final.oldPods, r.final.newPods, c.oldPods, most, bound)
  {
    RunWithin(l, goal, timeout, deadline, c, available, obs, c.oldPods, Max(c.newPods, l.desired),
              Max(c.oldPods + c.newPods, l.desired + l.maxSurge));
  }

  lemma {:induction false} TurnAvailability(l: Limits, c: Counts, newAvailable: int)
    requires ValidLimits(l) && ValidCounts(c)
    ensures var c2 := Turn(l, c, newAvailable);
            c2.oldPods + newAvailable >= Min(c.oldPods + newAvailable, MinAvailable(l))
  {
  }

  /** New pods once counted as available stay available. */
  ghost predicate StayAvailable(available: int, obs: seq<Observation>)
    decreases |obs|
  {
    obs == [] || (available <= obs[0].newAvailable && StayAvailable(obs[0].newAvailable, obs[1..]))
  }

  ghost predicate AtLeastAvailable(bound: int, visited: seq<Snapshot>) {
    forall s :: s in visited ==> bound <= s.oldPods + s.available
  }

  /** Along every run in which counted pods stay available, old pods plus available new pods never
      fall below the smaller of their number at the start and the minimum that must be available. */
  lemma {:induction false} AvailabilityBound(l: Limits, goal: int, timeout: int, deadline: int, c: Counts,
                                             available: int, obs: seq<Observation>, bound: int)
    requires ValidLimits(l) && ValidCounts(c) && StayAvailable(available, obs)
    requires bound <= c.oldPods + available && bound <= Max(0, l.desired - l.maxUnavailable)
    ensures AtLeastAvailable(bound, Run(l, goal, timeout, deadline, c, available, obs).visited)
    decreases |obs|
  {
    if !Final(l, c) && obs != [] {
      var stops, deadline' := RunStep(l, goal, timeout, deadline, c, available, obs);
      var o := obs[0];
      MinAvailableMeans(l);
      TurnAvailability(l, c, o.newAvailable);
      TurnProgress(l, c, o.newAvailable);
      assert AtLeastAvailable(bound, TurnVisits(l, c, available, o));
      AvailabilityBound(l, goal, timeout, deadline', TurnEnd(l, c, o), o.newAvailable, obs[1..], bound);
    }
  }

  // ----- progress reports along runs -----

  /** The largest goal for which the product in the percentage stays within 32 bits. */
  const MAX_GOAL := 21474836

  lemma {:induction false} PercentageExact(l: Limits, goal: int, newPods: int)
    requires 0 < goal <= MAX_GOAL && Abs(l.desired - newPods) <= goal
    ensures Percentage(l, goal, newPods) == (goal - Abs(l.desired - newPods)) * 100 / goal
  {
    assert WrapInt32((goal - Abs(l.desired - newPods)) * 100) == (goal - Abs(l.desired - newPods)) * 100;
  }

  lemma {:induction false} DivisionBounds(x: int, y: int, goal: int)
    requires 0 <= x <= y <= goal && goal > 0
    ensures 0 <= x * 100 / goal <= y * 100 / goal <= 100
  {
    DivideMonotone(x * 100, y * 100, goal);
    DivideMonotone(y * 100, goal * 100, goal);
    WholeQuotient(goal);
  }

  lemma {:induction false} WholeQuotient(goal: int)
    requires goal > 0
    ensures goal * 100 / goal == 100
  {
  }

  lemma {:induction false} DivideMonotone(a: int, b: int, d: int)
    requires 0 <= a <= b && d > 0
    ensures 0 <= a / d <= b / d
  {
    var x, y := a / d, b / d;
    assert a == d * x + a % d && b == d * y + b % d;
    if y < x { MultiplyMonotone(d, y + 1, x); }
  }

  lemma {:induction false} MultiplyMonotone(d: int, x: int, y: int)
    requires d > 0 && x <= y
    ensures d * x <= d * y
  {
  }

  lemma {:induction false} OverflowIsNegative(goal: int, moved: int)
    requires MAX_GOAL < goal <= MAX_INT32
    requires moved == if goal < 0x2000_0000 then MAX_GOAL + 1 else 0x2000_0000
    ensures TruncDiv(WrapInt32(moved * 100), goal) < 0
  {
    var w := WrapInt32(moved * 100);
    if goal < 0x2000_0000 {
      assert w == -2147483596;
      DivideMonotone(goal, -w, goal);
    } else {
      assert w == -0x8000_0000;
      DivideMonotone(goal, -w, goal);
    }
    assert goal / goal == 1;
  }

  ghost predicate Rising(reports: seq<int>, from: int) {
    && (forall i :: 0 <= i < |reports| ==> from <= reports[i] <= 100)
    && (forall i, j :: 0 <= i < j < |reports| ==> reports[i] <= reports[j])
  }

  lemma {:induction false} ReportsStep(l: Limits, goal: int, c: Counts)
    requires l.desired >= 0 && ValidCounts(c) && 0 <= goal <= MAX_GOAL && Abs(l.desired - c.newPods) <= goal
    ensures 0 <= Percentage(l, goal, c.newPods) <= Percentage(l, goal, ScaleUp(l, c)) <= 100
    ensures Abs(l.desired - ScaleUp(l, c)) <= goal
  {
    TurnProgress(l, c, 0);
    if goal > 0 {
      PercentageExact(l, goal, c.newPods);
      PercentageExact(l, goal, ScaleUp(l, c));
      DivisionBounds(goal - Abs(l.desired - c.newPods), goal - Abs(l.desired - ScaleUp(l, c)), goal);
    }
  }

  /** Up to MAX_GOAL the reported percentages stay between 0 and 100 and never fall. */
  lemma {:induction false} ReportsRise(l: Limits, goal: int, timeout: int, deadline: int, c: Counts,
                                       available: int, obs: seq<Observation>)
    requires l.desired >= 0 && ValidCounts(c) && 0 <= goal <= MAX_GOAL && Abs(l.desired - c.newPods) <= goal
    ensures 0 <= Percentage(l, goal, c.newPods)
    ensures Rising(Run(l, goal, timeout, deadline, c, available, obs).reports, Percentage(l, goal, c.newPods))
    decreases |obs|
  {
    ReportsStep(l, goal, c);
    if !Final(l, c) && obs != [] {
      var stops, deadline' := RunStep(l, goal, timeout, deadline, c, available, obs);
      var o := obs[0];
      var c', told := TurnEnd(l, c, o), TurnReports(l, goal, c, o);
      TurnTells(l, goal, c, o);
      var rest := Run(l, goal, timeout, deadline', c', o.newAvailable, obs[1..]).reports;
      if stops {
        RisingAppend(told, Percentage(l, goal, ScaleUp(l, c)), [], Percentage(l, goal, c.newPods));
      } else {
        assert c'.newPods == ScaleUp(l, c);
        ReportsRise(l, goal, timeout, deadline', c', o.newAvailable, obs[1..]);
        RisingAppend(told, Percentage(l, goal, ScaleUp(l, c)), rest, Percentage(l, goal, c.newPods));
      }
    }
  }

  lemma {:induction false} TurnTells(l: Limits, goal: int, c: Counts, o: Observation)
    requires ValidCounts(c) && l.desired >= 0
    ensures ValidCounts(TurnEnd(l, c, o))
    ensures FailureOf(l, c, o).None? ==> TurnEnd(l, c, o).newPods == ScaleUp(l, c)
    ensures forall i :: 0 <= i < |TurnReports(l, goal, c, o)| ==>
              TurnReports(l, goal, c, o)[i] == Percentage(l, goal, ScaleUp(l, c))
  {
    TurnProgress(l, c, o.newAvailable);
  }

  lemma {:induction false} RisingAppend(a: seq<int>, p: int, b: seq<int>, from: int)
    requires from <= p <= 100 && (forall i :: 0 <= i < |a| ==> a[i] == p) && Rising(b, p)
    ensures Rising(a, from) && Rising(a + b, from)
  {
  }

  ghost predicate ReportsInRange(r: Result) {
    forall i :: 0 <= i < |r.reports| ==> 0 <= r.reports[i] <= 100
  }

  /** A start of an update that has the given distance to cover and whose sizes fit into 32 bits. */
  ghost predicate StartsWith(l: Limits, goal: int, c: Counts) {
    && ValidLimits(l) && ValidCounts(c) && Abs(l.desired - c.newPods) == goal
    && c.oldPods + c.newPods <= MAX_INT32 && l.desired + l.maxSurge <= MAX_INT32
  }

  /** An update over a goal above MAX_GOAL that reports a negative percentage in its first turn. */
  lemma {:induction false} OverflowReported(goal: int, timeout: int, deadline: int)
    returns (l: Limits, c: Counts, obs: seq<Observation>)
    requires MAX_GOAL < goal <= MAX_INT32
    ensures StartsWith(l, goal, c) && !ReportsInRange(Run(l, goal, timeout, deadline, c, 0, obs))
  {
    var moved := if goal < 0x2000_0000 then MAX_GOAL + 1 else 0x2000_0000;
    l, c := Limits(goal, 0, 1), Counts(goal - moved, 0);
    var o := Observation(0, deadline, None);
    obs := [o];
    OverflowIsNegative(goal, moved);
    assert ScaleUp(l, c) == moved;
    var p := Percentage(l, goal, moved);
    assert p == TruncDiv(WrapInt32(moved * 100), goal);
    var r := Run(l, goal, timeout, deadline, c, 0, obs);
    assert TurnReports(l, goal, c, o) == [p, p];
    assert r.reports[0] == p;
  }

  /** Every update that has a distance goal to cover reports percentages between 0 and 100 only, whatever
      it observes, exactly when the goal is at most MAX_GOAL; above it the 32-bit product wraps around. */
  lemma {:induction false} PercentageInRange(goal: int)
    requires 0 <= goal <= MAX_INT32
    ensures (forall l, timeout, deadline, c, available, obs :: StartsWith(l, goal, c) ==>
               ReportsInRange(Run(l, goal, timeout, deadline, c, available, obs))) <==> goal <= MAX_GOAL
  {
    if goal <= MAX_GOAL {
      forall l, timeout, deadline, c, available, obs | StartsWith(l, goal, c)
        ensures ReportsInRange(Run(l, goal, timeout, deadline, c, available, obs))
      {
        ReportsRise(l, goal, timeout, deadline, c, available, obs);
      }
    } else {
      var l, c, obs := OverflowReported(goal, 0, 0);
    }
  }

  // ----- 32-bit arithmetic -----

  predicate FitsInt32(x: int) {
    -MAX_INT32 - 1 <= x <= MAX_INT32
  }

  /** No intermediate value of a turn leaves 32 bits while the two sizes and the target plus surge
      fit together; SurgeBound keeps that along the run. */
  lemma {:induction false} TurnFitsInt32(l: Limits, c: Counts, newAvailable: int)
    requires ValidLimits(l) && ValidCounts(c) && 0 <= newAvailable <= ScaleUp(l, c)
    requires c.oldPods + c.newPods <= MAX_INT32 && l.desired + l.maxSurge <= MAX_INT32
    ensures FitsInt32(l.desired + l.maxSurge - (c.oldPods + c.newPods))
    ensures c.oldPods != 0 ==> FitsInt32(c.newPods + (l.desired + l.maxSurge - (c.oldPods + c.newPods)))
    ensures var c1 := AfterUp(l, c);
            && FitsInt32(c1.oldPods + c1.newPods) && FitsInt32(c1.newPods - newAvailable)
            && FitsInt32(c1.oldPods + c1.newPods - MinAvailable(l))
            && FitsInt32(c1.oldPods + c1.newPods - MinAvailable(l) - (c1.newPods - newAvailable))
            && FitsInt32(c1.oldPods - (c1.oldPods + c1.newPods - MinAvailable(l) - (c1.newPods - newAvailable)))
  {
  }

  // ----- aborting -----

  /** Rolling back from any point of a forward run, to an original size recorded when the old
      controller was at least as large as at the start of the run: the old controller can always be
      brought back to exactly that size and the other one to 0, whatever the limits, once its pods
      become available. */
  lemma {:induction false} AbortRestores(l: Limits, goal: int, timeout: int, deadline: int, start: Counts,
                                         available: int, obs: seq<Observation>, back: Limits, goal': int, timeout': int,
                                         deadline': int, available': int, obs': seq<Observation>)
    requires ValidLimits(l) && ValidCounts(start)
    requires ValidLimits(back) && start.oldPods <= back.desired
    requires var stop := Run(l, goal, timeout, deadline, start, available, obs).final;
             var c := Counts(stop.newPods, stop.oldPods);
             AllReady(back, c, obs') && Distance(back, c) <= |obs'|
    ensures var stop := Run(l, goal, timeout, deadline, start, available, obs).final;
            var c := Counts(stop.newPods, stop.oldPods);
            var r := Run(back, goal', timeout', deadline', c, available', obs');
            r.status == Done && r.final == Counts(0, back.desired)
  {
    var stop := Run(l, goal, timeout, deadline, start, available, obs).final;
    SurgeBound(l, goal, timeout, deadline, start, available, obs);
    Finishes(back, goal', timeout', deadline', Counts(stop.newPods, stop.oldPods), available', obs');
  }
}
