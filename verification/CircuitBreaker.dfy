/**
 The circuit breaker in front of the schedule API, over real-valued time.

 A call is admitted or refused under the lock, runs without it, and reports its
 outcome under the lock again, so admissions and outcomes of several calls may
 interleave in any order.
 */
module CircuitBreaker {
  import opened Wrappers

  datatype Status = Closed | Open | HalfOpen

  datatype Breaker = Breaker(status: Status, failures: nat, openedAt: real)

  datatype Config = Config(failMax: nat, resetTimeout: real)

  const INITIAL: Breaker := Breaker(Closed, 0, 0.0)

  /** `Read` looks at the state property, which may move it just as a call does;
      `Excluded` is an error that does not count. */
  datatype Action = Admit | Read | Success | Failure | Excluded

  datatype Step = Step(at: real, action: Action)

  function Peek(c: Config, b: Breaker, now: real): Breaker {
    if b.status == Open && now - b.openedAt >= c.resetTimeout then b.(status := HalfOpen) else b
  }

  function Fail(c: Config, b: Breaker, now: real): Breaker {
    var failures := b.failures + 1;
    if b.status == HalfOpen || failures >= c.failMax then Breaker(Open, failures, now) else b.(failures := failures)
  }

  function Succeed(b: Breaker): Breaker { b.(status := Closed, failures := 0) }

  function Next(c: Config, b: Breaker, s: Step): Breaker {
    match s.action
    case Admit => Peek(c, b, s.at)
    case Read => Peek(c, b, s.at)
    case Success => Succeed(b)
    case Failure => Fail(c, b, s.at)
    case Excluded => b
  }

  /** The call is let through. */
  predicate Admitted(c: Config, b: Breaker, s: Step) {
    s.action.Admit? && Peek(c, b, s.at).status != Open
  }

  /** A failure that opens the breaker, or opens it again. */
  predicate Trips(c: Config, b: Breaker, s: Step) {
    s.action.Failure? && (b.status == HalfOpen || b.failures + 1 >= c.failMax)
  }

  ghost predicate IsRun(c: Config, run: seq<Breaker>, steps: seq<Step>) {
    && |run| == |steps| + 1
    && (forall i :: 0 <= i < |steps| ==> run[i + 1] == Next(c, run[i], steps[i]))
    && (forall i, j :: 0 <= i < j < |steps| ==> steps[i].at <= steps[j].at)
  }

  function FailuresSinceSuccess(steps: seq<Step>): nat {
    if steps == [] then 0
    else
      var n := |steps| - 1;
      match steps[n].action
      case Success => 0
      case Failure => FailuresSinceSuccess(steps[..n]) + 1
      case _ => FailuresSinceSuccess(steps[..n])
  }

  /** Main result, state: over every interleaving the breaker is away from CLOSED
      exactly when the failures since the last success have reached the limit. */
  lemma {:induction false} StateFollowsFailures(c: Config, run: seq<Breaker>, steps: seq<Step>, i: nat)
    requires IsRun(c, run, steps) && run[0] == INITIAL && c.failMax >= 1
    requires i < |run|
    ensures run[i].failures == FailuresSinceSuccess(steps[..i])
    ensures run[i].status != Closed <==> run[i].failures >= c.failMax
  {
    if i > 0 {
      StateFollowsFailures(c, run, steps, i - 1);
      assert steps[..i][..i - 1] == steps[..i - 1];
    }
  }

  // ----------------------------------------------------------- after a trip

  /** The trip that still holds at step j: the last one, unless a success followed. */
  function LastTrip(c: Config, run: seq<Breaker>, steps: seq<Step>, j: nat): Option<nat>
    requires j <= |steps| < |run|
  {
    if j == 0 then None
    else if Trips(c, run[j - 1], steps[j - 1]) then Some(j - 1)
    else if steps[j - 1].action.Success? then None
    else LastTrip(c, run, steps, j - 1)
  }

  /** Closed without such a trip, once closed at all; with one, open since then, or
      half open once the timeout has passed. */
  lemma {:induction false} StateFollowsTrip(c: Config, run: seq<Breaker>, steps: seq<Step>, j: nat)
    requires IsRun(c, run, steps) && j <= |steps|
    ensures match LastTrip(c, run, steps, j)
      case None =>
        && (run[0].status == Closed ==> run[j].status == Closed)
        && ((exists k :: 0 <= k < j && steps[k].action.Success?) ==> run[j].status == Closed)
        && forall i :: 0 <= i < j && Trips(c, run[i], steps[i]) ==> exists k :: i < k < j && steps[k].action.Success?
      case Some(i) =>
        && i < j && Trips(c, run[i], steps[i])
        && (forall k :: i < k < j ==> !Trips(c, run[k], steps[k]) && !steps[k].action.Success?)
        && (|| (run[j].status == Open && run[j].openedAt == steps[i].at)
            || (run[j].status == HalfOpen && steps[j - 1].at - steps[i].at >= c.resetTimeout))
  {
    if j > 0 {
      StateFollowsTrip(c, run, steps, j - 1);
      assert run[j] == Next(c, run[j - 1], steps[j - 1]);
      if j > 1 { assert steps[j - 2].at <= steps[j - 1].at; }
    }
  }

  /** Step i tripped the breaker, less than the timeout before step j, and no success
      was reported in between. */
  ghost predicate Shields(c: Config, run: seq<Breaker>, steps: seq<Step>, i: nat, j: nat)
    requires i < j < |steps| < |run|
  {
    && Trips(c, run[i], steps[i])
    && steps[j].at - steps[i].at < c.resetTimeout
    && forall k :: i < k < j ==> !steps[k].action.Success?
  }

  /** Main result, shielding: a call is refused exactly when the breaker tripped less
      than the reset timeout before it and no success was reported since. */
  lemma RefusedExactly(c: Config, run: seq<Breaker>, steps: seq<Step>, j: nat)
    requires IsRun(c, run, steps) && run[0].status == Closed && j < |steps| && steps[j].action.Admit?
    ensures !Admitted(c, run[j], steps[j]) <==> exists i :: 0 <= i < j && Shields(c, run, steps, i, j)
  {
    StateFollowsTrip(c, run, steps, j);
    match LastTrip(c, run, steps, j)
    case None =>
    case Some(last) =>
      assert steps[j - 1].at <= steps[j].at;
      if i :| 0 <= i < j && Shields(c, run, steps, i, j) {
        assert i <= last && steps[i].at <= steps[last].at;
      }
      assert Admitted(c, run[j], steps[j]) || Shields(c, run, steps, last, j);
  }

  /** From any starting state: after a trip nothing is let through within the timeout
      without a success in between; and after the last trip, that is all it takes. */
  lemma NothingWithinTimeout(c: Config, run: seq<Breaker>, steps: seq<Step>, i: nat, j: nat)
    requires IsRun(c, run, steps) && i < j < |steps| && steps[j].action.Admit? && Trips(c, run[i], steps[i])
    ensures Admitted(c, run[j], steps[j]) ==>
      steps[j].at - steps[i].at >= c.resetTimeout || exists k :: i < k < j && steps[k].action.Success?
    ensures (forall k :: i < k < j ==> !Trips(c, run[k], steps[k])) ==>
      (Admitted(c, run[j], steps[j]) <==>
        steps[j].at - steps[i].at >= c.resetTimeout || exists k :: i < k < j && steps[k].action.Success?)
  {
    StateFollowsTrip(c, run, steps, j);
    assert steps[j - 1].at <= steps[j].at;
    match LastTrip(c, run, steps, j)
    case None =>
    case Some(last) =>
      if i <= last { assert steps[i].at <= steps[last].at; }
  }

  // ------------------------------------------------------ runs given by steps

  function StateAfter(c: Config, b: Breaker, steps: seq<Step>): Breaker {
    if steps == [] then b
    else
      var n := |steps| - 1;
      Next(c, StateAfter(c, b, steps[..n]), steps[n])
  }

  function RunOf(c: Config, steps: seq<Step>): seq<Breaker> {
    seq(|steps| + 1, i requires 0 <= i <= |steps| => StateAfter(c, INITIAL, steps[..i]))
  }

  lemma RunOfIsRun(c: Config, steps: seq<Step>)
    requires forall i, j :: 0 <= i < j < |steps| ==> steps[i].at <= steps[j].at
    ensures IsRun(c, RunOf(c, steps), steps) && RunOf(c, steps)[0] == INITIAL
  {
    forall i | 0 <= i < |steps| ensures RunOf(c, steps)[i + 1] == Next(c, RunOf(c, steps)[i], steps[i]) {
      assert steps[..i + 1][..i] == steps[..i];
    }
  }

  lemma {:induction false} StateAfterConcat(c: Config, b: Breaker, x: seq<Step>, y: seq<Step>)
    ensures StateAfter(c, b, x + y) == StateAfter(c, StateAfter(c, b, x), y)
  {
    if y == [] {
      assert x + y == x;
    } else {
      var n := |y| - 1;
      StateAfterConcat(c, b, x, y[..n]);
      assert (x + y)[..|x + y| - 1] == x + y[..n];
    }
  }

  function Times(n: nat, s: Step): seq<Step> { seq(n, _ => s) }

  lemma {:induction false} AdmitsChangeNothing(c: Config, b: Breaker, n: nat, at: real)
    requires b.status != Open
    ensures StateAfter(c, b, Times(n, Step(at, Admit))) == b
  {
    if n > 0 {
      AdmitsChangeNothing(c, b, n - 1, at);
      assert Times(n, Step(at, Admit))[..n - 1] == Times(n - 1, Step(at, Admit));
    }
  }

  lemma {:induction false} FailuresTrip(c: Config, n: nat, at: real)
    requires n <= c.failMax && c.failMax >= 1
    ensures StateAfter(c, INITIAL, Times(n, Step(at, Failure)))
      == if n < c.failMax then INITIAL.(failures := n) else Breaker(Open, n, at)
  {
    if n > 0 {
      FailuresTrip(c, n - 1, at);
      assert Times(n, Step(at, Failure))[..n - 1] == Times(n - 1, Step(at, Failure));
    }
  }

  /** `callers` calls let through at once, and failMax of them failing. */
  function Burst(c: Config, callers: nat, at: real): seq<Step> {
    Times(callers, Step(at, Admit)) + Times(c.failMax, Step(at, Failure))
  }

  lemma BurstTrips(c: Config, callers: nat, at: real)
    requires c.failMax >= 1
    ensures StateAfter(c, INITIAL, Burst(c, callers, at)) == Breaker(Open, c.failMax, at)
    ensures |Burst(c, callers, at)| == callers + c.failMax
    ensures var n, burst := callers + c.failMax, Burst(c, callers, at);
      Trips(c, StateAfter(c, INITIAL, burst[..n - 1]), burst[n - 1])
  {
    var admits, fails := Times(callers, Step(at, Admit)), Times(c.failMax, Step(at, Failure));
    AdmitsChangeNothing(c, INITIAL, callers, at);
    StateAfterConcat(c, INITIAL, admits, fails);
    FailuresTrip(c, c.failMax, at);
    FailuresTrip(c, c.failMax - 1, at);
    var fewer := Times(c.failMax - 1, Step(at, Failure));
    StateAfterConcat(c, INITIAL, admits, fewer);
    assert (admits + fails)[..callers + c.failMax - 1] == admits + fewer;
  }

  /** One caller more than the limit: all but it fail, it succeeds after the trip. */
  function LateSuccess(c: Config, at: real): seq<Step> {
    Burst(c, c.failMax + 1, at) + [Step(at, Success), Step(at, Admit)]
  }

  /** The exception is real, whatever the limit: a call admitted before the trip that
      succeeds after it closes the breaker, and the next call is let through at once. */
  lemma LateSuccessReopens(c: Config, at: real)
    requires c.failMax >= 1 && c.resetTimeout > 0.0
    ensures var steps := LateSuccess(c, at); var run := RunOf(c, steps); var j := |steps| - 1;
      && IsRun(c, run, steps) && run[0] == INITIAL && j >= 2
      && Trips(c, run[j - 2], steps[j - 2]) && steps[j - 1].action.Success? && Admitted(c, run[j], steps[j])
      && steps[j].at - steps[j - 2].at < c.resetTimeout
  {
    hide Trips, Burst, StateAfter, Next, Admitted;
    var burst, steps := Burst(c, c.failMax + 1, at), LateSuccess(c, at);
    var n := |burst|;
    BurstTimes(c, c.failMax + 1, at);
    RunOfIsRun(c, steps);
    BurstTrips(c, c.failMax + 1, at);
    assert steps[..n] == burst && steps[..n - 1] == burst[..n - 1] && steps[n - 1] == burst[n - 1];
    SuccessReopens(c, steps, at, n);
  }

  lemma SuccessReopens(c: Config, steps: seq<Step>, at: real, n: nat)
    requires n + 1 < |steps| && steps[n].action.Success? && steps[n + 1].action.Admit?
    ensures Admitted(c, StateAfter(c, INITIAL, steps[..n + 1]), steps[n + 1])
  {
    assert steps[..n + 1][..n] == steps[..n];
  }

  // ------------------------------------------------------- while half open

  predicate Outcome(s: Step) { s.action.Success? || s.action.Failure? }

  /** A half-open spell lasts exactly until the first reported outcome. */
  lemma {:induction false} HalfOpenLastsExactly(c: Config, run: seq<Breaker>, steps: seq<Step>, i: nat, j: nat)
    requires IsRun(c, run, steps) && i <= j <= |steps| && run[i].status == HalfOpen
    ensures (forall k :: i <= k <= j ==> run[k].status == HalfOpen) <==> forall k :: i <= k < j ==> !Outcome(steps[k])
    decreases j
  {
    if i < j {
      HalfOpenLastsExactly(c, run, steps, i, j - 1);
      assert run[j] == Next(c, run[j - 1], steps[j - 1]);
    }
  }

  /** Calls let through from step i up to step j. */
  function Probes(c: Config, run: seq<Breaker>, steps: seq<Step>, i: nat, j: nat): nat
    requires i <= j <= |steps| < |run|
    decreases j
  {
    if i == j then 0 else Probes(c, run, steps, i, j - 1) + if Admitted(c, run[j - 1], steps[j - 1]) then 1 else 0
  }

  function Asked(steps: seq<Step>, i: nat, j: nat): nat
    requires i <= j <= |steps|
    decreases j
  {
    if i == j then 0 else Asked(steps, i, j - 1) + if steps[j - 1].action.Admit? then 1 else 0
  }

  /** Every caller of a half-open spell is let through, up to its first outcome j, so
      there is one probe at most exactly when one caller at most asks before it. */
  lemma {:induction false} ProbesExactly(c: Config, run: seq<Breaker>, steps: seq<Step>, i: nat, j: nat)
    requires IsRun(c, run, steps) && i <= j <= |steps| && run[i].status == HalfOpen
    requires forall k :: i <= k < j ==> !Outcome(steps[k])
    ensures Probes(c, run, steps, i, j) == Asked(steps, i, j)
    ensures Probes(c, run, steps, i, j) <= 1 <==> Asked(steps, i, j) <= 1
    ensures j < |steps| && Outcome(steps[j]) ==> run[j + 1].status != HalfOpen
    decreases j
  {
    HalfOpenLastsExactly(c, run, steps, i, j);
    if i < j {
      ProbesExactly(c, run, steps, i, j - 1);
    }
    if j < |steps| { assert run[j + 1] == Next(c, run[j], steps[j]); }
  }

  lemma {:induction false} AllAsk(steps: seq<Step>, i: nat, j: nat)
    requires i <= j <= |steps| && forall k :: i <= k < j ==> steps[k].action.Admit?
    ensures Asked(steps, i, j) == j - i
    decreases j
  {
    if i < j { AllAsk(steps, i, j - 1); }
  }

  /** A trip, the timeout, a look at the state, and then any number of callers. */
  function ManyProbes(c: Config, callers: nat, at: real): seq<Step> {
    Burst(c, c.failMax, at) + [Step(at + c.resetTimeout, Read)] + Times(callers, Step(at + c.resetTimeout, Admit))
  }

  /** There is no limit to the probes of one half-open spell. */
  lemma ManyCallersProbe(c: Config, callers: nat, at: real)
    requires c.failMax >= 1 && c.resetTimeout >= 0.0
    ensures var steps := ManyProbes(c, callers, at); var run := RunOf(c, steps); var i := 2 * c.failMax + 1;
      && IsRun(c, run, steps) && run[0] == INITIAL && |steps| == i + callers
      && (forall k :: i <= k <= |steps| ==> run[k].status == HalfOpen)
      && Probes(c, run, steps, i, |steps|) == callers
  {
    hide Burst, StateAfter, Next, Peek;
    var steps := ManyProbes(c, callers, at);
    var run := RunOf(c, steps);
    var i := 2 * c.failMax + 1;
    BurstTimes(c, c.failMax, at);
    RunOfIsRun(c, steps);
    TimeoutOpensHalf(c, steps, at, i - 1);
    HalfOpenLastsExactly(c, run, steps, i, |steps|);
    ProbesExactly(c, run, steps, i, |steps|);
    AllAsk(steps, i, |steps|);
  }

  lemma BurstTimes(c: Config, callers: nat, at: real)
    ensures |Burst(c, callers, at)| == callers + c.failMax
    ensures forall s <- Burst(c, callers, at) :: s.at == at
  {
  }

  lemma TimeoutOpensHalf(c: Config, steps: seq<Step>, at: real, n: nat)
    requires c.failMax >= 1 && n < |steps| && steps[..n] == Burst(c, c.failMax, at)
    requires steps[n] == Step(at + c.resetTimeout, Read)
    ensures StateAfter(c, INITIAL, steps[..n + 1]).status == HalfOpen
  {
    hide Burst, Trips;
    BurstTrips(c, c.failMax, at);
    assert steps[..n + 1][..n] == steps[..n];
  }

  // --------------------------------------------------- calls one at a time

  /** A whole call: asked at `at`, over at `end` if it was let through. */
  datatype Call = Call(at: real, end: real, outcome: Action)

  predicate LetThrough(c: Config, b: Breaker, call: Call) {
    Peek(c, b, call.at).status != Open
  }

  function AfterCall(c: Config, b: Breaker, call: Call): Breaker {
    var b1 := Peek(c, b, call.at);
    if b1.status == Open then b1 else Next(c, b1, Step(call.end, call.outcome))
  }

  predicate CallFails(c: Config, b: Breaker, call: Call) {
    LetThrough(c, b, call) && call.outcome.Failure?
  }

  /** Calls that do not overlap, without a success, between s and t. */
  ghost predicate FailingSpell(c: Config, run: seq<Breaker>, calls: seq<Call>, s: real, t: real) {
    && |run| == |calls| + 1
    && (forall i :: 0 <= i < |calls| ==> run[i + 1] == AfterCall(c, run[i], calls[i]))
    && (forall i :: 0 <= i < |calls| ==> calls[i].at <= calls[i].end && s <= calls[i].end <= t)
    && (forall i :: 0 <= i < |calls| ==> !calls[i].outcome.Success?)
    && (forall i, j :: 0 <= i < j < |calls| ==> calls[i].end <= calls[j].at)
  }

  /** Failures among the first n calls. */
  function Failed(c: Config, run: seq<Breaker>, calls: seq<Call>, n: nat): nat
    requires n <= |calls| < |run|
  {
    if n == 0 then 0
    else Failed(c, run, calls, n - 1) + if CallFails(c, run[n - 1], calls[n - 1]) then 1 else 0
  }

  /** Time that m failures take at least: the first failMax are free. */
  function Cost(c: Config, m: int): real { (m - c.failMax) as real * c.resetTimeout }

  lemma CostGrows(c: Config, m: int)
    requires c.resetTimeout > 0.0
    ensures Cost(c, m + 1) == Cost(c, m) + c.resetTimeout
    ensures m <= c.failMax ==> Cost(c, m) <= 0.0
  {
    var x, r := (m - c.failMax) as real, c.resetTimeout;
    assert (m + 1 - c.failMax) as real == x + 1.0;
    assert (x + 1.0) * r == x * r + r;
    if m <= c.failMax { assert x <= 0.0; }
  }

  predicate Consistent(c: Config, b: Breaker) { b.status != Closed <==> b.failures >= c.failMax }

  /** What m failures since s, the last of them by `now`, leave behind. */
  predicate Budget(c: Config, b: Breaker, m: nat, s: real, now: real) {
    && Consistent(c, b)
    && (b.status == Closed ==> m <= b.failures)
    && (b.status != Closed && m > 0 ==> s <= b.openedAt <= now && Cost(c, m) <= b.openedAt - s)
    && (b.status == HalfOpen && m > 0 ==> b.openedAt + c.resetTimeout <= now)
  }

  lemma CallKeepsBudget(c: Config, b: Breaker, call: Call, m: nat, s: real, now: real)
    requires c.failMax >= 1 && c.resetTimeout > 0.0
    requires Budget(c, b, m, s, now) && (m > 0 ==> now <= call.at)
    requires call.at <= call.end && s <= call.end && !call.outcome.Success?
    ensures Budget(c, AfterCall(c, b, call), if CallFails(c, b, call) then m + 1 else m, s, call.end)
  {
    hide Cost;
    CostGrows(c, m);
    CostGrows(c, m + 1);
    if CallFails(c, b, call) {
      var b1 := AfterCall(c, b, call);
      assert Consistent(c, b1);
      assert b1.status == Closed ==> m + 1 <= b1.failures;
      assert b1.status != Closed ==> b1.openedAt == call.end;
      assert b1.status != Closed ==> Cost(c, m + 1) <= b1.openedAt - s;
      assert b1.status != HalfOpen;
    } else {
      var b1 := AfterCall(c, b, call);
      assert Consistent(c, b1);
      assert b1.openedAt == b.openedAt;
      assert b1.status == Closed ==> m <= b1.failures;
      assert b1.status == HalfOpen && m > 0 ==> b.openedAt + c.resetTimeout <= call.end;
    }
  }

  lemma {:induction false} SpellKeepsBudget(c: Config, run: seq<Breaker>, calls: seq<Call>, s: real, t: real, i: nat)
    requires c.failMax >= 1 && c.resetTimeout > 0.0
    requires FailingSpell(c, run, calls, s, t) && Consistent(c, run[0]) && i <= |calls|
    ensures Budget(c, run[i], Failed(c, run, calls, i), s, if i == 0 then s else calls[i - 1].end)
  {
    hide Budget, Consistent, AfterCall;
    if i == 0 {
      FreshBudget(c, run[0], s);
    } else {
      SpellKeepsBudget(c, run, calls, s, t, i - 1);
      if i > 1 { assert calls[i - 2].end <= calls[i - 1].at; }
      var now := if i == 1 then s else calls[i - 2].end;
      CallKeepsBudget(c, run[i - 1], calls[i - 1], Failed(c, run, calls, i - 1), s, now);
    }
  }

  lemma FreshBudget(c: Config, b: Breaker, s: real)
    requires Consistent(c, b)
    ensures Budget(c, b, 0, s, s)
  {
  }

  lemma WholeTimeouts(m: int, span: real, r: real)
    requires r > 0.0 && m as real * r <= span
    ensures m <= (span / r).Floor
  {
    var q := span / r;
    assert q * r == span;
    if q < m as real {
      ProductGrows(q, m as real, r);
    }
  }

  lemma ProductGrows(x: real, y: real, r: real)
    requires x < y && r > 0.0
    ensures x * r < y * r
  {
    assert (y - x) * r > 0.0;
  }

  lemma SpellCost(c: Config, run: seq<Breaker>, calls: seq<Call>, s: real, t: real)
    requires c.failMax >= 1 && c.resetTimeout > 0.0 && s <= t
    requires FailingSpell(c, run, calls, s, t) && Consistent(c, run[0])
    ensures Cost(c, Failed(c, run, calls, |calls|)) <= t - s
  {
    hide Cost, Failed, AfterCall;
    var m := Failed(c, run, calls, |calls|);
    SpellKeepsBudget(c, run, calls, s, t, |calls|);
    CostGrows(c, m);
  }

  /** Main result, budget: calls that do not overlap and never succeed fail at most
      failMax times, plus once for every whole timeout in the window. */
  lemma SpellBound(c: Config, run: seq<Breaker>, calls: seq<Call>, s: real, t: real)
    requires c.failMax >= 1 && c.resetTimeout > 0.0 && s <= t
    requires FailingSpell(c, run, calls, s, t) && Consistent(c, run[0])
    ensures Failed(c, run, calls, |calls|) <= c.failMax + ((t - s) / c.resetTimeout).Floor
  {
    hide Consistent, Failed;
    SpellCost(c, run, calls, s, t);
    WholeTimeouts(Failed(c, run, calls, |calls|) - c.failMax, t - s, c.resetTimeout);
  }

  /** The worst spell: failMax failures at once, then every probe fails. */
  function WorstTime(c: Config, s: real, i: nat): real {
    if i < c.failMax then s else s + (i + 1 - c.failMax) as real * c.resetTimeout
  }

  function WorstCalls(c: Config, s: real, n: nat): seq<Call> {
    seq(n, i requires 0 <= i < n => Call(WorstTime(c, s, i), WorstTime(c, s, i), Failure))
  }

  function WorstState(c: Config, s: real, i: nat): Breaker
    requires c.failMax >= 1
  {
    if i < c.failMax then Breaker(Closed, i, 0.0) else Breaker(Open, i, WorstTime(c, s, i - 1))
  }

  function WorstRun(c: Config, s: real, n: nat): seq<Breaker>
    requires c.failMax >= 1
  {
    seq(n + 1, i requires 0 <= i <= n => WorstState(c, s, i))
  }

  lemma WorstTimeGrows(c: Config, s: real, i: nat)
    requires c.resetTimeout > 0.0 && c.failMax >= 1
    ensures i >= c.failMax ==> WorstTime(c, s, i) == WorstTime(c, s, i - 1) + c.resetTimeout
    ensures i > 0 ==> WorstTime(c, s, i - 1) <= WorstTime(c, s, i)
    ensures WorstTime(c, s, i) >= s
  {
    var r := c.resetTimeout;
    if i >= c.failMax {
      var x := (i - c.failMax) as real;
      assert (i + 1 - c.failMax) as real == x + 1.0;
      assert (x + 1.0) * r == x * r + r;
      assert x * r >= 0.0;
    }
  }

  lemma WorstStep(c: Config, s: real, i: nat)
    requires c.resetTimeout > 0.0 && c.failMax >= 1
    ensures var call := Call(WorstTime(c, s, i), WorstTime(c, s, i), Failure);
      CallFails(c, WorstState(c, s, i), call) && AfterCall(c, WorstState(c, s, i), call) == WorstState(c, s, i + 1)
  {
    WorstTimeGrows(c, s, i);
  }

  lemma {:induction false} WorstTimesOrdered(c: Config, s: real, i: nat, j: nat)
    requires c.resetTimeout > 0.0 && c.failMax >= 1 && i <= j
    ensures s <= WorstTime(c, s, i) <= WorstTime(c, s, j)
    decreases j
  {
    WorstTimeGrows(c, s, j);
    if i < j { WorstTimesOrdered(c, s, i, j - 1); }
  }

  lemma {:induction false} WorstAllFail(c: Config, s: real, n: nat, i: nat)
    requires c.resetTimeout > 0.0 && c.failMax >= 1 && i <= n
    ensures Failed(c, WorstRun(c, s, n), WorstCalls(c, s, n), i) == i
  {
    if i > 0 {
      WorstStep(c, s, i - 1);
      WorstAllFail(c, s, n, i - 1);
    }
  }

  /** The budget is tight: a spell over k timeouts with failMax + k failures exists. */
  lemma BoundIsReached(c: Config, s: real, k: nat) returns (run: seq<Breaker>, calls: seq<Call>, t: real)
    requires c.resetTimeout > 0.0 && c.failMax >= 1
    ensures FailingSpell(c, run, calls, s, t) && run[0] == INITIAL && t == s + k as real * c.resetTimeout
    ensures Failed(c, run, calls, |calls|) == c.failMax + k
  {
    hide WorstTime, WorstState, AfterCall, CallFails, Failed;
    var n := c.failMax + k;
    run, calls, t := WorstRun(c, s, n), WorstCalls(c, s, n), s + k as real * c.resetTimeout;
    LastWorstTime(c, s, k);
    forall i | 0 <= i < n ensures run[i + 1] == AfterCall(c, run[i], calls[i]) {
      WorstStep(c, s, i);
    }
    forall i, j | 0 <= i < j < n ensures calls[i].end <= calls[j].at {
      WorstTimesOrdered(c, s, i, j);
    }
    forall i | 0 <= i < n ensures s <= calls[i].end <= t {
      WorstTimesOrdered(c, s, i, n - 1);
    }
    WorstAllFail(c, s, n, n);
  }

  lemma LastWorstTime(c: Config, s: real, k: nat)
    requires c.failMax >= 1
    ensures WorstTime(c, s, c.failMax + k - 1) == s + k as real * c.resetTimeout
    ensures WorstState(c, s, 0) == INITIAL
  {
  }

  /** The breaker, changed in place. */
  class CircuitBreaker {
    const failMax: nat
    const resetTimeout: real
    var status: Status
    var failures: nat
    var openedAt: real

    function Settings(): Config { Config(failMax, resetTimeout) }

    ghost function Value(): Breaker
      reads this
    {
      Breaker(status, failures, openedAt)
    }

    constructor (failMax: nat, resetTimeout: real)
      ensures Settings() == Config(failMax, resetTimeout) && Value() == INITIAL
    {
      this.failMax, this.resetTimeout := failMax, resetTimeout;
      status, failures, openedAt := Closed, 0, 0.0;
    }

    method GetState(now: real) returns (state: Status)
      modifies this
      ensures Value() == Next(Settings(), old(Value()), Step(now, Read)) && state == status
    {
      if status == Open {
        if now - openedAt >= resetTimeout {
          status := HalfOpen;
        }
      }
      state := status;
    }

    /** The clock is read a second time for the hint given to a refused caller. */
    method Ask(now: real, later: real) returns (admitted: bool, retryAfter: real)
      modifies this
      ensures Value() == Next(Settings(), old(Value()), Step(now, Admit))
      ensures admitted <==> Admitted(Settings(), old(Value()), Step(now, Admit))
      ensures !admitted ==> retryAfter >= 0.0
      ensures !admitted && retryAfter > 0.0 ==> Peek(Settings(), Value(), later + retryAfter).status == HalfOpen
      ensures !admitted ==> forall t :: later <= t < later + retryAfter ==> Peek(Settings(), Value(), t).status == Open
    {
      var state := GetState(now);
      admitted, retryAfter := state != Open, 0.0;
      if state == Open {
        retryAfter := resetTimeout - (later - openedAt);
        if retryAfter < 0.0 { retryAfter := 0.0; }
      }
    }

    method OnSuccess(now: real)
      modifies this
      ensures Value() == Next(Settings(), old(Value()), Step(now, Success))
    {
      status, failures := Closed, 0;
    }

    method OnFailure(now: real)
      modifies this
      ensures Value() == Next(Settings(), old(Value()), Step(now, Failure))
    {
      failures := failures + 1;
      if status == HalfOpen || failures >= failMax {
        status := Open;
        openedAt := now;
      }
    }
  }
}
