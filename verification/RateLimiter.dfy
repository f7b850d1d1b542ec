/**
 The token bucket that paces outgoing messages, over real-valued time.

 Callers are served one at a time under a lock, so a run is a sequence of calls:
 each has the time it read the clock and, if it had to sleep, the time it woke or
 was cancelled.  A caller cancelled before it has the lock changes nothing.
 */
module RateLimiter {

  datatype Bucket = Bucket(rate: real, burst: real, tokens: real, lastRefill: real)

  /** `cancelled` says that the caller gives up while it sleeps, at time `wake`. */
  datatype Call = Call(now: real, wake: real, cancelled: bool)

  function Min(a: real, b: real): real { if a <= b then a else b }

  function Max(a: real, b: real): real { if a >= b then a else b }

  function NewBucket(rate: real, burst: real): Bucket { Bucket(rate, burst, burst, 0.0) }

  /** Tokens in the bucket once it is refilled; a zero refill time means never. */
  function Available(b: Bucket, now: real): real {
    Min(b.burst, b.tokens + (if b.lastRefill == 0.0 then 0.0 else now - b.lastRefill) * b.rate)
  }

  predicate MustSleep(b: Bucket, now: real) { Available(b, now) < 1.0 }

  function Wait(b: Bucket, now: real): real
    requires b.rate != 0.0
  {
    (1.0 - Available(b, now)) / b.rate
  }

  /** A caller cancelled in its sleep is not granted. */
  predicate Served(b: Bucket, c: Call) { !(MustSleep(b, c.now) && c.cancelled) }

  function EndTime(b: Bucket, c: Call): real { if MustSleep(b, c.now) then c.wake else c.now }

  function Next(b: Bucket, c: Call): Bucket {
    if !Served(b, c) then b.(tokens := Available(b, c.now), lastRefill := c.now)
    else if MustSleep(b, c.now) then b.(tokens := 0.0, lastRefill := c.wake)
    else b.(tokens := Available(b, c.now) - 1.0, lastRefill := c.now)
  }

  /** A sleep may end late, never early, unless it is cancelled. */
  predicate Patient(b: Bucket, c: Call)
    requires b.rate != 0.0
  {
    MustSleep(b, c.now) ==> c.wake >= c.now + if c.cancelled then 0.0 else Wait(b, c.now)
  }

  /** The buckets between calls with a monotone clock, the times the calls end, and
      which of them were granted. */
  ghost predicate IsRun(buckets: seq<Bucket>, calls: seq<Call>, ends: seq<real>, served: seq<bool>) {
    && |buckets| == |calls| + 1 && |ends| == |calls| == |served|
    && buckets[0].rate > 0.0
    && forall i :: 0 <= i < |calls| ==>
         && buckets[i].rate == buckets[0].rate
         && Patient(buckets[i], calls[i])
         && buckets[i + 1] == Next(buckets[i], calls[i])
         && ends[i] == EndTime(buckets[i], calls[i])
         && served[i] == Served(buckets[i], calls[i])
         && (i > 0 ==> ends[i - 1] <= calls[i].now)
  }

  lemma RunStep(buckets: seq<Bucket>, calls: seq<Call>, ends: seq<real>, served: seq<bool>, i: nat)
    requires IsRun(buckets, calls, ends, served) && i < |calls|
    ensures buckets[i].rate == buckets[0].rate > 0.0 && Patient(buckets[i], calls[i])
    ensures buckets[i + 1] == Next(buckets[i], calls[i]) && ends[i] == EndTime(buckets[i], calls[i])
    ensures served[i] == Served(buckets[i], calls[i])
    ensures i > 0 ==> ends[i - 1] <= calls[i].now
    ensures Next(buckets[i], calls[i]).rate == buckets[i].rate && Next(buckets[i], calls[i]).burst == buckets[i].burst
  {
  }

  /** Tokens that flow in between two times. */
  function Refill(first: real, last: real, rate: real): real { (last - first) * rate }

  lemma NoRefill(s: real, r: real)
    ensures Refill(s, s, r) == 0.0
  {
  }

  lemma Distribute(x: real, y: real, z: real, r: real)
    ensures Refill(x, z, r) == Refill(x, y, r) + Refill(y, z, r)
  {
  }

  lemma RefillInWindow(first: real, last: real, s: real, t: real, r: real)
    requires s <= first && last <= t && r > 0.0
    ensures Refill(first, last, r) <= Refill(s, t, r)
  {
    var x, y := last - first, t - s;
    assert (y - x) * r >= 0.0;
  }

  /** What a bucket amounts to at a time, between calls. */
  function Level(b: Bucket, at: real): real { Min(b.burst, b.tokens + Refill(b.lastRefill, at, b.rate)) }

  /** What holds of a bucket after a call that ended at `at`. */
  predicate Kept(b: Bucket, at: real) {
    b.lastRefill <= at && 0.0 <= b.tokens <= b.burst
  }

  lemma WaitFills(rate: real, missing: real, slept: real)
    requires rate > 0.0 && slept >= missing / rate
    ensures slept * rate >= missing
  {
    assert missing / rate * rate == missing;
    assert (slept - missing / rate) * rate >= 0.0;
  }

  lemma AvailableIsLess(b: Bucket, now: real)
    requires b.rate > 0.0 && b.burst >= 1.0 && 0.0 <= b.tokens <= b.burst && b.lastRefill <= now
    ensures 0.0 <= Available(b, now) <= Level(b, now)
  {
    NoRefill(now, b.rate);
    RefillInWindow(now, now, b.lastRefill, now, b.rate);
  }

  lemma LevelGrows(b: Bucket, x: real, y: real)
    requires b.rate > 0.0 && x <= y
    ensures Level(b, x) <= Level(b, y) <= Level(b, x) + Refill(x, y, b.rate)
  {
    hide Refill;
    Distribute(b.lastRefill, x, y, b.rate);
    NoRefill(x, b.rate);
    RefillInWindow(x, x, x, y, b.rate);
  }

  lemma LevelIsPositive(b: Bucket, at: real)
    requires b.rate > 0.0 && b.burst >= 1.0 && Kept(b, at)
    ensures 0.0 <= Level(b, at)
  {
    hide Refill;
    NoRefill(at, b.rate);
    RefillInWindow(at, at, b.lastRefill, at, b.rate);
  }

  lemma WaitRefills(b: Bucket, now: real, wake: real)
    requires b.rate > 0.0 && MustSleep(b, now) && wake >= now + Wait(b, now)
    ensures wake >= now && Available(b, now) + Refill(now, wake, b.rate) >= 1.0
  {
    hide Available;
    WaitFills(b.rate, 1.0 - Available(b, now), wake - now);
    Quotient(1.0 - Available(b, now), b.rate);
  }

  lemma LevelAfterWait(b: Bucket, now: real, wake: real)
    requires b.rate > 0.0 && b.burst >= 1.0 && 0.0 <= b.tokens <= b.burst && b.lastRefill <= now
    requires MustSleep(b, now) && wake >= now + Wait(b, now)
    ensures wake >= now && Level(b, wake) >= 1.0
  {
    WaitRefills(b, now, wake);
    LevelAfterRefill(b, now, wake);
  }

  lemma LevelAfterRefill(b: Bucket, now: real, later: real)
    requires b.rate > 0.0 && b.burst >= 1.0 && 0.0 <= b.tokens <= b.burst && b.lastRefill <= now <= later
    ensures Min(b.burst, Available(b, now) + Refill(now, later, b.rate)) <= Level(b, later)
  {
    hide Refill;
    AvailableIsLess(b, now);
    Distribute(b.lastRefill, now, later, b.rate);
    NoRefill(now, b.rate);
    RefillInWindow(now, now, now, later, b.rate);
  }

  /** Each grant costs a token: a call leaves the bucket with no more than it would have
      had when the call ended, less one if it was granted. */
  lemma CallCosts(b: Bucket, c: Call, at: real)
    requires b.rate > 0.0 && b.burst >= 1.0 && Kept(b, at) && at <= c.now && Patient(b, c)
    ensures var n, end := Next(b, c), EndTime(b, c);
      && at <= end && Kept(n, end) && n.rate == b.rate && n.burst == b.burst
      && Level(n, end) <= Level(b, end) - (if Served(b, c) then 1.0 else 0.0)
      && (Served(b, c) ==> n.lastRefill == end && n.tokens <= n.burst - 1.0)
  {
    hide Refill, Available, Wait;
    AvailableIsLess(b, c.now);
    AvailableAtMost(b, c.now);
    var n := Next(b, c);
    NoRefill(EndTime(b, c), b.rate);
    if !Served(b, c) {
      LevelAfterRefill(b, c.now, c.wake);
    } else if MustSleep(b, c.now) {
      LevelAfterWait(b, c.now, c.wake);
    }
  }

  lemma AvailableAtMost(b: Bucket, now: real)
    ensures Available(b, now) <= b.burst
  {
  }

  lemma FirstCall(b: Bucket, c: Call)
    requires b.rate > 0.0 && b.burst >= 1.0 && b == NewBucket(b.rate, b.burst)
    ensures Served(b, c) && Kept(Next(b, c), EndTime(b, c))
    ensures Next(b, c).lastRefill == EndTime(b, c) && Next(b, c).tokens <= b.burst - 1.0
  {
  }

  lemma {:induction false} RunKeeps(buckets: seq<Bucket>, calls: seq<Call>, ends: seq<real>, served: seq<bool>, i: nat)
    requires IsRun(buckets, calls, ends, served) && i < |calls|
    requires buckets[0] == NewBucket(buckets[0].rate, buckets[0].burst) && buckets[0].burst >= 1.0
    ensures Kept(buckets[i + 1], ends[i])
    ensures buckets[i + 1].burst == buckets[0].burst && buckets[i + 1].rate == buckets[0].rate
    ensures served[i] ==> buckets[i + 1].lastRefill == ends[i] && buckets[i + 1].tokens <= buckets[0].burst - 1.0
  {
    hide Next, EndTime, Served, Patient, Kept, Level;
    RunStep(buckets, calls, ends, served, i);
    if i == 0 {
      FirstCall(buckets[0], calls[0]);
    } else {
      RunKeeps(buckets, calls, ends, served, i - 1);
      CallCosts(buckets[i], calls[i], ends[i - 1]);
    }
  }

  /** Grants after call i, up to call j. */
  function Grants(served: seq<bool>, i: nat, j: nat): nat
    requires i <= j < |served|
    decreases j
  {
    if i == j then 0 else Grants(served, i, j - 1) + if served[j] then 1 else 0
  }

  lemma {:induction false} SpanBound(buckets: seq<Bucket>, calls: seq<Call>, ends: seq<real>, served: seq<bool>,
                                     i: nat, j: nat)
    requires IsRun(buckets, calls, ends, served) && i <= j < |calls|
    requires buckets[0] == NewBucket(buckets[0].rate, buckets[0].burst) && buckets[0].burst >= 1.0
    ensures ends[i] <= ends[j]
    ensures Level(buckets[j + 1], ends[j]) <=
      Level(buckets[i + 1], ends[i]) + Refill(ends[i], ends[j], buckets[0].rate) - Grants(served, i, j) as real
    decreases j
  {
    hide Next, EndTime, Served, Patient, Kept, Level, Refill, NewBucket;
    NoRefill(ends[i], buckets[0].rate);
    if i < j {
      SpanBound(buckets, calls, ends, served, i, j - 1);
      RunKeeps(buckets, calls, ends, served, j - 1);
      RunStep(buckets, calls, ends, served, j);
      CallCosts(buckets[j], calls[j], ends[j - 1]);
      LevelGrows(buckets[j], ends[j - 1], ends[j]);
      Distribute(ends[i], ends[j - 1], ends[j], buckets[0].rate);
    }
  }

  lemma FullLevel(b: Bucket)
    ensures Level(b, b.lastRefill) <= b.tokens
  {
  }

  lemma GrantsBound(buckets: seq<Bucket>, calls: seq<Call>, ends: seq<real>, served: seq<bool>, i: nat, j: nat)
    requires IsRun(buckets, calls, ends, served) && i <= j < |calls| && served[i]
    requires buckets[0] == NewBucket(buckets[0].rate, buckets[0].burst) && buckets[0].burst >= 1.0
    ensures Grants(served, i, j) as real <= buckets[0].burst - 1.0 + Refill(ends[i], ends[j], buckets[0].rate)
  {
    hide NewBucket, Next, EndTime, Served, Patient, Refill, Kept, Level;
    SpanBound(buckets, calls, ends, served, i, j);
    RunKeeps(buckets, calls, ends, served, i);
    RunKeeps(buckets, calls, ends, served, j);
    FullLevel(buckets[i + 1]);
    LevelIsPositive(buckets[j + 1], ends[j]);
  }

  /** Number of grants in the closed window from s to t. */
  function Count(ends: seq<real>, served: seq<bool>, s: real, t: real): nat
    requires |ends| == |served|
  {
    if ends == [] then 0
    else
      var n := |ends| - 1;
      Count(ends[..n], served[..n], s, t) + if served[n] && s <= ends[n] <= t then 1 else 0
  }

  lemma {:induction false} GrantsPrefix(served: seq<bool>, n: nat, i: nat, j: nat)
    requires i <= j < n <= |served|
    ensures Grants(served[..n], i, j) == Grants(served, i, j)
    decreases j
  {
    if i < j { GrantsPrefix(served, n, i, j - 1); }
  }

  /** The first grant in the window, and the last call that ends in it as a grant. */
  lemma {:induction false} CountSpan(ends: seq<real>, served: seq<bool>, s: real, t: real) returns (i: nat, j: nat)
    requires |ends| == |served| && Count(ends, served, s, t) > 0
    ensures i <= j < |ends| && served[i] && s <= ends[i] && ends[j] <= t
    ensures Count(ends, served, s, t) <= Grants(served, i, j) + 1
  {
    var n := |ends| - 1;
    if Count(ends[..n], served[..n], s, t) == 0 {
      i, j := n, n;
    } else {
      i, j := CountSpan(ends[..n], served[..n], s, t);
      GrantsPrefix(served, n, i, j);
      if served[n] && s <= ends[n] <= t {
        GrantsGrow(served, i, j, n - 1);
        j := n;
      }
    }
  }

  lemma {:induction false} GrantsGrow(served: seq<bool>, i: nat, j: nat, k: nat)
    requires i <= j <= k < |served|
    ensures Grants(served, i, j) <= Grants(served, i, k)
    decreases k
  {
    if j < k { GrantsGrow(served, i, j, k - 1); }
  }

  lemma WindowBound(buckets: seq<Bucket>, calls: seq<Call>, ends: seq<real>, served: seq<bool>, s: real, t: real)
    requires IsRun(buckets, calls, ends, served) && s <= t
    requires buckets[0] == NewBucket(buckets[0].rate, buckets[0].burst) && buckets[0].burst >= 1.0
    ensures Count(ends, served, s, t) as real <= buckets[0].burst + Refill(s, t, buckets[0].rate)
  {
    hide NewBucket, Next, EndTime, Served, Patient, MustSleep, Refill, Grants;
    var b := buckets[0];
    if Count(ends, served, s, t) == 0 {
      RefillInWindow(s, s, s, t, b.rate);
      NoRefill(s, b.rate);
    } else {
      var i, j := CountSpan(ends, served, s, t);
      GrantsBound(buckets, calls, ends, served, i, j);
      RefillInWindow(ends[i], ends[j], s, t, b.rate);
      var n := Grants(served, i, j);
      assert Count(ends, served, s, t) as real <= (n + 1) as real == n as real + 1.0;
    }
  }

  lemma RefillOfWindow(s: real, t: real, r: real)
    ensures Refill(s, t, r) == r * (t - s)
  {
  }

  /** Main result: with room for at least one token, every window of every run has
      at most burst + rate * length grants, however late the sleeps end and whichever
      callers give up. */
  lemma RateBound(buckets: seq<Bucket>, calls: seq<Call>, ends: seq<real>, served: seq<bool>, s: real, t: real)
    requires IsRun(buckets, calls, ends, served) && s <= t
    requires buckets[0] == NewBucket(buckets[0].rate, buckets[0].burst) && buckets[0].burst >= 1.0
    ensures Count(ends, served, s, t) as real <= buckets[0].burst + buckets[0].rate * (t - s)
  {
    hide Refill, Count, NewBucket;
    WindowBound(buckets, calls, ends, served, s, t);
    RefillOfWindow(s, t, buckets[0].rate);
  }

  lemma {:induction false} CountsItself(ends: seq<real>, served: seq<bool>, k: nat)
    requires k < |ends| == |served| && served[k]
    ensures Count(ends, served, ends[k], ends[k]) >= 1
  {
    var n := |ends| - 1;
    if k < n { CountsItself(ends[..n], served[..n], k); }
  }

  /** The bound in every window. */
  ghost predicate Bounded(b: Bucket, ends: seq<real>, served: seq<bool>)
    requires |ends| == |served|
  {
    forall s, t :: s <= t ==> Count(ends, served, s, t) as real <= b.burst + b.rate * (t - s)
  }

  /** The condition on the burst is exact: a smaller bucket breaks the bound with
      its first grant already. */
  lemma RateBoundExactly(buckets: seq<Bucket>, calls: seq<Call>, ends: seq<real>, served: seq<bool>)
    requires IsRun(buckets, calls, ends, served) && true in served
    requires buckets[0] == NewBucket(buckets[0].rate, buckets[0].burst)
    ensures Bounded(buckets[0], ends, served) <==> buckets[0].burst >= 1.0
  {
    hide Count;
    var b := buckets[0];
    if b.burst >= 1.0 {
      forall s, t | s <= t ensures Count(ends, served, s, t) as real <= b.burst + b.rate * (t - s) {
        RateBound(buckets, calls, ends, served, s, t);
      }
    } else {
      var k :| 0 <= k < |served| && served[k];
      CountsItself(ends, served, k);
      assert b.rate * (ends[k] - ends[k]) == 0.0;
    }
  }

  /** A bucket without room for a token lets its first caller sleep, and grants. */
  lemma SmallBucketGrants(rate: real, burst: real, now: real)
    returns (buckets: seq<Bucket>, calls: seq<Call>, ends: seq<real>, served: seq<bool>)
    requires rate > 0.0 && burst < 1.0
    ensures IsRun(buckets, calls, ends, served) && buckets[0] == NewBucket(rate, burst) && served == [true]
    ensures !Bounded(buckets[0], ends, served)
  {
    var b := NewBucket(rate, burst);
    var c := Call(now, now + Wait(b, now), false);
    buckets, calls, ends, served := [b, Next(b, c)], [c], [EndTime(b, c)], [true];
    RateBoundExactly(buckets, calls, ends, served);
  }

  /** Callers that all wait from s on, each served as soon as the one before is,
      with sleeps that end exactly on time and nobody giving up. */
  ghost predicate BackToBack(buckets: seq<Bucket>, calls: seq<Call>, ends: seq<real>, served: seq<bool>, s: real) {
    && IsRun(buckets, calls, ends, served)
    && forall i :: 0 <= i < |calls| ==>
         && !calls[i].cancelled
         && calls[i].now == (if i == 0 then s else ends[i - 1])
         && (MustSleep(buckets[i], calls[i].now) ==> calls[i].wake == calls[i].now + Wait(buckets[i], calls[i].now))
  }

  function Due(s: real, k: nat, available: real, rate: real): real
    requires rate > 0.0
  {
    s + Max(0.0, (k as real - available) / rate)
  }

  /** One more caller, whose turn comes as soon as the one before was granted. */
  lemma OneMoreGrant(b: Bucket, c: Call, s: real, available: real, k: nat)
    requires b.rate > 0.0 && k > 0
    requires c.now == Due(s, k - 1, available, b.rate)
    requires Available(b, c.now) == Max(0.0, available - (k - 1) as real)
    requires !c.cancelled && (MustSleep(b, c.now) ==> c.wake == c.now + Wait(b, c.now))
    ensures EndTime(b, c) == Due(s, k, available, b.rate)
    ensures Next(b, c).tokens == Max(0.0, available - k as real)
  {
    hide Available;
    Quotient((k - 1) as real - available, b.rate);
    Quotient(k as real - available, b.rate);
    QuotientAdds((k - 1) as real - available, b.rate);
  }

  lemma Quotient(x: real, r: real)
    requires r > 0.0
    ensures x > 0.0 <==> x / r > 0.0
    ensures x == 0.0 <==> x / r == 0.0
  {
    assert x / r * r == x;
  }

  lemma QuotientAdds(x: real, r: real)
    requires r > 0.0
    ensures (x + 1.0) / r == x / r + 1.0 / r
  {
  }

  lemma BucketRefills(b: Bucket, s: real)
    requires b.rate > 0.0 && 0.0 <= b.tokens <= b.burst && (b.lastRefill == 0.0 || b.lastRefill <= s)
    ensures 0.0 <= Available(b, s) <= b.burst
  {
    if b.lastRefill != 0.0 { assert (s - b.lastRefill) * b.rate >= 0.0; }
  }

  lemma NothingRefilled(b: Bucket, now: real)
    requires b.lastRefill == now && b.tokens <= b.burst
    ensures Available(b, now) == b.tokens
  {
  }

  /** Exact pacing: the k-th of the waiting callers is granted precisely when the
      bucket, refilling from its content at s, has had k tokens in all. */
  lemma {:induction false} BackToBackGrants(buckets: seq<Bucket>, calls: seq<Call>, ends: seq<real>, served: seq<bool>,
                                            s: real, k: nat)
    requires BackToBack(buckets, calls, ends, served, s) && 0 < k <= |calls|
    requires 0.0 <= buckets[0].tokens <= buckets[0].burst
    requires buckets[0].lastRefill == 0.0 || buckets[0].lastRefill <= s
    ensures buckets[0].rate > 0.0
    ensures served[k - 1] && ends[k - 1] == Due(s, k, Available(buckets[0], s), buckets[0].rate)
    ensures buckets[k].burst == buckets[0].burst && buckets[k].rate == buckets[0].rate
    ensures buckets[k].lastRefill == ends[k - 1]
    ensures buckets[k].tokens == Max(0.0, Available(buckets[0], s) - k as real) <= buckets[k].burst
  {
    hide Available;
    var a := Available(buckets[0], s);
    var b, c := buckets[k - 1], calls[k - 1];
    RunStep(buckets, calls, ends, served, k - 1);
    BucketRefills(buckets[0], s);
    Quotient(-a, buckets[0].rate);
    if k > 1 {
      BackToBackGrants(buckets, calls, ends, served, s, k - 1);
      NothingRefilled(b, c.now);
    }
    OneMoreGrant(b, c, s, a, k);
  }

  // ---------------------------------------------------------- idle time

  /** The clock never reads zero, which the bucket takes for "never". */
  ghost predicate PositiveClock(calls: seq<Call>) {
    forall i :: 0 <= i < |calls| ==> calls[i].now > 0.0
  }

  lemma EndIsPositive(b: Bucket, c: Call)
    requires b.rate > 0.0 && Patient(b, c) && c.now > 0.0
    ensures EndTime(b, c) >= c.now && Next(b, c).lastRefill > 0.0
  {
    hide Available;
    if MustSleep(b, c.now) && !c.cancelled { WaitRefills(b, c.now, c.wake); }
  }

  /** Since call k was granted, the bucket has taken in all that flowed, up to its size. */
  lemma {:induction false} TokensSince(
      buckets: seq<Bucket>, calls: seq<Call>, ends: seq<real>, served: seq<bool>, k: nat, i: nat)
    requires IsRun(buckets, calls, ends, served) && k < i < |calls| && PositiveClock(calls)
    requires buckets[0] == NewBucket(buckets[0].rate, buckets[0].burst) && buckets[0].burst >= 1.0
    requires served[k] && forall m :: k < m < i ==> !served[m]
    ensures Available(buckets[i], calls[i].now) >= Min(buckets[0].burst, Refill(ends[k], calls[i].now, buckets[0].rate))
    decreases i
  {
    hide Next, EndTime, Served, Patient, Kept, Refill, Level, Available, NewBucket;
    var n := i - 1;
    RunKeeps(buckets, calls, ends, served, n);
    RunStep(buckets, calls, ends, served, n);
    RunStep(buckets, calls, ends, served, i);
    EndIsPositive(buckets[n], calls[n]);
    AvailableIsRefill(buckets[i], calls[i].now);
    if n == k {
      KeptHasTokens(buckets[i], ends[k]);
    } else {
      TokensSince(buckets, calls, ends, served, k, n);
      CancelledKeeps(buckets[n], calls[n]);
      Distribute(ends[k], calls[n].now, calls[i].now, buckets[0].rate);
      NoRefill(calls[n].now, buckets[0].rate);
      RefillInWindow(calls[n].now, calls[n].now, calls[n].now, calls[i].now, buckets[0].rate);
    }
  }

  lemma AvailableIsRefill(b: Bucket, now: real)
    requires b.lastRefill > 0.0
    ensures Available(b, now) == Min(b.burst, b.tokens + Refill(b.lastRefill, now, b.rate))
  {
  }

  lemma KeptHasTokens(b: Bucket, at: real)
    requires Kept(b, at)
    ensures b.tokens >= 0.0 && b.lastRefill <= at
  {
  }

  lemma CancelledKeeps(b: Bucket, c: Call)
    requires !Served(b, c)
    ensures Next(b, c) == b.(tokens := Available(b, c.now), lastRefill := c.now)
    ensures Available(b, c.now) <= b.burst && EndTime(b, c) == c.wake
  {
  }

  /** A caller who comes at least 1/rate after the last grant is granted when it asks, and
      so is the very first one. */
  lemma IdleIsServed(buckets: seq<Bucket>, calls: seq<Call>, ends: seq<real>, served: seq<bool>, i: nat)
    requires IsRun(buckets, calls, ends, served) && i < |calls| && PositiveClock(calls)
    requires buckets[0] == NewBucket(buckets[0].rate, buckets[0].burst) && buckets[0].burst >= 1.0
    requires forall k :: 0 <= k < i && served[k] ==> calls[i].now - ends[k] >= 1.0 / buckets[0].rate
    ensures served[i] && ends[i] == calls[i].now
  {
    hide Refill, Next, Patient, Kept;
    FirstCall(buckets[0], calls[0]);
    if i > 0 {
      var k := LastServed(served, i);
      TokensSince(buckets, calls, ends, served, k, i);
      FillsUp(buckets[0].rate, 1.0, ends[k], calls[i].now);
    }
  }

  lemma {:induction false} LastServed(served: seq<bool>, i: nat) returns (k: nat)
    requires 0 < i <= |served| && served[0]
    ensures k < i && served[k] && forall m :: k < m < i ==> !served[m]
  {
    if served[i - 1] {
      k := i - 1;
    } else {
      k := LastServed(served, i - 1);
    }
  }

  lemma WholeTokenExactly(first: real, last: real, rate: real)
    requires rate > 0.0
    ensures Refill(first, last, rate) >= 1.0 <==> last - first >= 1.0 / rate
  {
    var gap, t := last - first, 1.0 / rate;
    assert t * rate == 1.0;
    if gap < t { ProductGrows(gap, t, rate); }
    if gap >= t { WaitFills(rate, 1.0, gap); }
  }

  lemma ProductGrows(x: real, y: real, r: real)
    requires x < y && r > 0.0
    ensures x * r < y * r
  {
    assert (y - x) * r > 0.0;
  }

  /** A sleep that ends late saves nothing up: whoever comes next is granted at once if and
      only if it comes 1/rate or more after the sleeper woke. */
  lemma AfterSleepExactly(buckets: seq<Bucket>, calls: seq<Call>, ends: seq<real>, served: seq<bool>, k: nat)
    requires IsRun(buckets, calls, ends, served) && k + 1 < |calls| && PositiveClock(calls)
    requires buckets[k].burst >= 1.0 && MustSleep(buckets[k], calls[k].now) && served[k]
    ensures !MustSleep(buckets[k + 1], calls[k + 1].now) <==> calls[k + 1].now - ends[k] >= 1.0 / buckets[0].rate
  {
    hide Refill, Available, Patient;
    var b, next := buckets[k + 1], calls[k + 1].now;
    RunStep(buckets, calls, ends, served, k);
    EndIsPositive(buckets[k], calls[k]);
    AvailableIsRefill(b, next);
    WholeTokenExactly(ends[k], next, b.rate);
  }

  /** A bucket that stood idle for burst/rate is full, and serves as many callers in a
      row as it holds whole tokens, without a wait, however close they come. */
  lemma {:induction false} IdleServesBurst(
      buckets: seq<Bucket>, calls: seq<Call>, ends: seq<real>, served: seq<bool>, i: nat, j: nat)
    requires IsRun(buckets, calls, ends, served) && i <= j < |calls| && PositiveClock(calls)
    requires buckets[0] == NewBucket(buckets[0].rate, buckets[0].burst) && buckets[0].burst >= 1.0
    requires forall k :: 0 <= k < i && served[k] ==> calls[i].now - ends[k] >= buckets[0].burst / buckets[0].rate
    requires j - i + 1 <= buckets[0].burst.Floor
    ensures served[j] && ends[j] == calls[j].now
    ensures Available(buckets[j], calls[j].now) >= buckets[0].burst - (j - i) as real
    decreases j
  {
    hide Next, EndTime, Served, Patient, Kept, Refill, Level, Available, NewBucket;
    if i == j {
      FullAfterIdle(buckets, calls, ends, served, i);
    } else {
      var n := j - 1;
      IdleServesBurst(buckets, calls, ends, served, i, n);
      RunStep(buckets, calls, ends, served, n);
      RunStep(buckets, calls, ends, served, j);
      RunKeeps(buckets, calls, ends, served, n);
      EndIsPositive(buckets[n], calls[n]);
      AtOnceCostsOne(buckets[n], calls[n]);
      AvailableIsRefill(buckets[j], calls[j].now);
      NoRefill(calls[n].now, buckets[0].rate);
      RefillInWindow(calls[n].now, calls[n].now, calls[n].now, calls[j].now, buckets[0].rate);
    }
    EnoughIsServed(buckets, calls, ends, served, j);
  }

  lemma EnoughIsServed(buckets: seq<Bucket>, calls: seq<Call>, ends: seq<real>, served: seq<bool>, j: nat)
    requires IsRun(buckets, calls, ends, served) && j < |calls|
    requires Available(buckets[j], calls[j].now) >= 1.0
    ensures served[j] && ends[j] == calls[j].now && !MustSleep(buckets[j], calls[j].now)
  {
  }

  lemma AtOnceCostsOne(b: Bucket, c: Call)
    requires Available(b, c.now) >= 1.0
    ensures Next(b, c) == b.(tokens := Available(b, c.now) - 1.0, lastRefill := c.now) && EndTime(b, c) == c.now
  {
  }

  lemma NewIsFull(b: Bucket, now: real)
    requires b == NewBucket(b.rate, b.burst)
    ensures Available(b, now) == b.burst
  {
  }

  lemma FillsUp(rate: real, size: real, first: real, last: real)
    requires rate > 0.0 && last - first >= size / rate
    ensures Refill(first, last, rate) >= size
  {
    WaitFills(rate, size, last - first);
  }

  lemma FullAfterIdle(buckets: seq<Bucket>, calls: seq<Call>, ends: seq<real>, served: seq<bool>, i: nat)
    requires IsRun(buckets, calls, ends, served) && i < |calls| && PositiveClock(calls)
    requires buckets[0] == NewBucket(buckets[0].rate, buckets[0].burst) && buckets[0].burst >= 1.0
    requires forall k :: 0 <= k < i && served[k] ==> calls[i].now - ends[k] >= buckets[0].burst / buckets[0].rate
    ensures Available(buckets[i], calls[i].now) >= buckets[0].burst
  {
    hide Available, Refill, Next, Patient, MustSleep, Kept;
    if i == 0 {
      NewIsFull(buckets[0], calls[0].now);
    } else {
      RunStep(buckets, calls, ends, served, 0);
      FirstCall(buckets[0], calls[0]);
      var k := LastServed(served, i);
      TokensSince(buckets, calls, ends, served, k, i);
      FillsUp(buckets[0].rate, buckets[0].burst, ends[k], calls[i].now);
    }
  }

  // --------------------------------------------- no wait without a reason

  /** Sleeps that are not cancelled end exactly on time. */
  ghost predicate ExactSleeps(buckets: seq<Bucket>, calls: seq<Call>)
    requires |calls| < |buckets|
  {
    forall i :: 0 <= i < |calls| && MustSleep(buckets[i], calls[i].now) ==>
      calls[i].cancelled || buckets[i].rate == 0.0 || calls[i].wake == calls[i].now + Wait(buckets[i], calls[i].now)
  }

  /** From one call to the next the content changes by the grant and the flow alone. */
  lemma ContentStep(buckets: seq<Bucket>, calls: seq<Call>, ends: seq<real>, served: seq<bool>, n: nat)
    requires IsRun(buckets, calls, ends, served) && n + 1 < |calls|
    requires PositiveClock(calls) && ExactSleeps(buckets, calls)
    ensures var b := buckets[0];
      Available(buckets[n + 1], calls[n + 1].now) ==
        Min(buckets[n].burst, Available(buckets[n], calls[n].now) - (if served[n] then 1.0 else 0.0)
                              + Refill(calls[n].now, calls[n + 1].now, b.rate))
  {
    hide Refill, Available, Kept, Level;
    var b, c, later := buckets[n], calls[n], calls[n + 1].now;
    RunStep(buckets, calls, ends, served, n);
    EndIsPositive(b, c);
    AvailableIsRefill(buckets[n + 1], later);
    if served[n] && MustSleep(b, c.now) {
      Distribute(c.now, c.wake, later, b.rate);
      ExactWait(b, c.now, c.wake);
    }
  }

  lemma ExactWait(b: Bucket, now: real, wake: real)
    requires b.rate > 0.0 && wake == now + Wait(b, now)
    ensures Refill(now, wake, b.rate) == 1.0 - Available(b, now)
  {
    hide Available;
    var missing := 1.0 - Available(b, now);
    assert missing / b.rate * b.rate == missing;
  }

  /** Grants from call m up to, not including, call i. */
  function GrantsFrom(served: seq<bool>, m: nat, i: nat): nat
    requires m <= i <= |served|
    decreases i
  {
    if m == i then 0 else GrantsFrom(served, m, i - 1) + if served[i - 1] then 1 else 0
  }

  /** Since the bucket was last full, at call m, it has lost a token for each grant and
      taken in all that flowed. */
  lemma {:induction false} BusySince(buckets: seq<Bucket>, calls: seq<Call>, ends: seq<real>, served: seq<bool>, i: nat)
    returns (m: nat)
    requires IsRun(buckets, calls, ends, served) && i < |calls| && PositiveClock(calls) && ExactSleeps(buckets, calls)
    requires buckets[0] == NewBucket(buckets[0].rate, buckets[0].burst)
    ensures m <= i && buckets[i].burst == buckets[0].burst
    ensures Available(buckets[i], calls[i].now) ==
      buckets[0].burst + Refill(calls[m].now, calls[i].now, buckets[0].rate) - GrantsFrom(served, m, i) as real
  {
    hide Refill, Next, EndTime, Served, Patient;
    var b := buckets[0];
    if i == 0 {
      m := 0;
      NoRefill(calls[0].now, b.rate);
    } else {
      m := BusySince(buckets, calls, ends, served, i - 1);
      RunStep(buckets, calls, ends, served, i - 1);
      ContentStep(buckets, calls, ends, served, i - 1);
      Distribute(calls[m].now, calls[i - 1].now, calls[i].now, b.rate);
      GrantsFromStep(served, m, i);
      if Available(buckets[i], calls[i].now) == b.burst {
        m := i;
        NoRefill(calls[i].now, b.rate);
      }
    }
  }

  lemma GrantsFromStep(served: seq<bool>, m: nat, i: nat)
    requires m < i <= |served|
    ensures GrantsFrom(served, m, i) as real ==
      GrantsFrom(served, m, i - 1) as real + if served[i - 1] then 1.0 else 0.0
  {
  }

  lemma {:induction false} ClockIsMonotone(
      buckets: seq<Bucket>, calls: seq<Call>, ends: seq<real>, served: seq<bool>, m: nat, i: nat)
    requires IsRun(buckets, calls, ends, served) && m <= i < |calls| && PositiveClock(calls)
    ensures calls[m].now <= calls[i].now <= ends[i]
    ensures m < i ==> ends[m] <= calls[i].now
    decreases i
  {
    hide Next, Served, Patient, EndTime;
    RunStep(buckets, calls, ends, served, i);
    EndIsPositive(buckets[i], calls[i]);
    if m < i {
      ClockIsMonotone(buckets, calls, ends, served, m, i - 1);
      RunStep(buckets, calls, ends, served, m);
      EndIsPositive(buckets[m], calls[m]);
      if m == i - 1 {
        assert ends[m] <= calls[i].now;
      }
    }
  }

  lemma {:induction false} CountAtLeast(ends: seq<real>, served: seq<bool>, s: real, t: real, m: nat, i: nat)
    requires m <= i <= |ends| == |served| && forall k :: m <= k < i ==> s <= ends[k] <= t
    ensures Count(ends[..i], served[..i], s, t) >= GrantsFrom(served, m, i)
    decreases i
  {
    if m < i {
      CountAtLeast(ends, served, s, t, m, i - 1);
      CountStep(ends, served, s, t, i);
    }
  }

  lemma CountStep(ends: seq<real>, served: seq<bool>, s: real, t: real, i: nat)
    requires 0 < i <= |ends| == |served|
    ensures Count(ends[..i], served[..i], s, t) ==
      Count(ends[..i - 1], served[..i - 1], s, t) + if served[i - 1] && s <= ends[i - 1] <= t then 1 else 0
  {
    assert ends[..i][..i - 1] == ends[..i - 1] && served[..i][..i - 1] == served[..i - 1];
  }

  /** One more grant at `now` would keep the bound in every window that ends there. */
  ghost predicate RoomForOne(b: Bucket, ends: seq<real>, served: seq<bool>, now: real)
    requires |ends| == |served|
  {
    forall s :: s <= now ==> Count(ends, served, s, now) as real + 1.0 <= b.burst + b.rate * (now - s)
  }

  lemma RoomMeansTokens(buckets: seq<Bucket>, calls: seq<Call>, ends: seq<real>, served: seq<bool>, i: nat)
    requires IsRun(buckets, calls, ends, served) && i < |calls| && PositiveClock(calls) && ExactSleeps(buckets, calls)
    requires buckets[0] == NewBucket(buckets[0].rate, buckets[0].burst)
    requires RoomForOne(buckets[0], ends[..i], served[..i], calls[i].now)
    ensures !MustSleep(buckets[i], calls[i].now)
  {
    hide Refill, Available, Count, NewBucket, Next, Served, Patient, EndTime, RoomForOne, GrantsFrom;
    var b, now := buckets[0], calls[i].now;
    var m := BusySince(buckets, calls, ends, served, i);
    var s := calls[m].now;
    forall k | m <= k < i ensures s <= ends[k] <= now {
      ClockIsMonotone(buckets, calls, ends, served, m, k);
      ClockIsMonotone(buckets, calls, ends, served, k, i);
    }
    ClockIsMonotone(buckets, calls, ends, served, m, i);
    CountAtLeast(ends, served, s, now, m, i);
    RoomInWindow(b, ends[..i], served[..i], s, now);
    TokenLeft(Available(buckets[i], now), b.burst, Refill(s, now, b.rate), GrantsFrom(served, m, i),
              Count(ends[..i], served[..i], s, now));
  }

  lemma RoomInWindow(b: Bucket, ends: seq<real>, served: seq<bool>, s: real, now: real)
    requires |ends| == |served| && RoomForOne(b, ends, served, now) && s <= now
    ensures Count(ends, served, s, now) as real + 1.0 <= b.burst + Refill(s, now, b.rate)
  {
    hide Count, Refill;
    RefillOfWindow(s, now, b.rate);
  }

  lemma TokenLeft(available: real, burst: real, flow: real, grants: nat, count: nat)
    requires available == burst + flow - grants as real && grants <= count && count as real + 1.0 <= burst + flow
    ensures available >= 1.0
  {
  }

  lemma PrefixIsRun(buckets: seq<Bucket>, calls: seq<Call>, ends: seq<real>, served: seq<bool>, n: nat)
    requires IsRun(buckets, calls, ends, served) && n <= |calls|
    ensures IsRun(buckets[..n + 1], calls[..n], ends[..n], served[..n])
  {
  }

  lemma TokensMeanRoom(buckets: seq<Bucket>, calls: seq<Call>, ends: seq<real>, served: seq<bool>, i: nat)
    requires IsRun(buckets, calls, ends, served) && i < |calls|
    requires buckets[0] == NewBucket(buckets[0].rate, buckets[0].burst) && buckets[0].burst >= 1.0
    requires !MustSleep(buckets[i], calls[i].now)
    ensures RoomForOne(buckets[0], ends[..i], served[..i], calls[i].now)
  {
    hide Count, Next, Patient, MustSleep;
    var b, now := buckets[0], calls[i].now;
    assert served[i] && ends[i] == now;
    PrefixIsRun(buckets, calls, ends, served, i + 1);
    forall s | s <= now ensures Count(ends[..i], served[..i], s, now) as real + 1.0 <= b.burst + b.rate * (now - s) {
      RateBound(buckets[..i + 2], calls[..i + 1], ends[..i + 1], served[..i + 1], s, now);
      CountStep(ends, served, s, now, i + 1);
    }
  }

  /** Main result, no wait without a reason: with sleeps that end exactly on time, a caller
      is granted when it asks if and only if one more grant then keeps the bound of burst
      + rate * length in every window that ends there. */
  lemma GrantedAtOnceExactly(buckets: seq<Bucket>, calls: seq<Call>, ends: seq<real>, served: seq<bool>, i: nat)
    requires IsRun(buckets, calls, ends, served) && i < |calls| && PositiveClock(calls) && ExactSleeps(buckets, calls)
    requires buckets[0] == NewBucket(buckets[0].rate, buckets[0].burst) && buckets[0].burst >= 1.0
    ensures !MustSleep(buckets[i], calls[i].now) <==> RoomForOne(buckets[0], ends[..i], served[..i], calls[i].now)
    ensures !MustSleep(buckets[i], calls[i].now) ==> served[i] && ends[i] == calls[i].now
  {
    hide MustSleep, RoomForOne, Patient, Next;
    if MustSleep(buckets[i], calls[i].now) {
      if RoomForOne(buckets[0], ends[..i], served[..i], calls[i].now) {
        RoomMeansTokens(buckets, calls, ends, served, i);
      }
    } else {
      TokensMeanRoom(buckets, calls, ends, served, i);
    }
  }

  /** The limiter, changed in place. */
  class TokenBucket {
    const rate: real
    const burst: real
    var tokens: real
    var lastRefill: real

    ghost function Value(): Bucket
      reads this
    {
      Bucket(rate, burst, tokens, lastRefill)
    }

    constructor (rate: real, burst: real)
      ensures Value() == NewBucket(rate, burst)
    {
      this.rate, this.burst := rate, burst;
      tokens, lastRefill := burst, 0.0;
    }

    /** `wake` is the clock after the sleep, if there is one, and `cancelled` says that
        the sleep is cut short by a cancellation. */
    method Acquire(now: real, wake: real, cancelled: bool) returns (granted: bool, end: real)
      modifies this
      ensures Value() == Next(old(Value()), Call(now, wake, cancelled))
      ensures granted == Served(old(Value()), Call(now, wake, cancelled))
      ensures end == EndTime(old(Value()), Call(now, wake, cancelled))
    {
      if lastRefill == 0.0 {
        lastRefill := now;
      }
      var elapsed := now - lastRefill;
      tokens := Min(burst, tokens + elapsed * rate);
      lastRefill := now;
      granted, end := true, now;
      if tokens < 1.0 {
        end := wake;
        if cancelled {
          return false, end;
        }
        tokens := 0.0;
        lastRefill := wake;
      } else {
        tokens := tokens - 1.0;
      }
    }
  }
}
