/**
 The middleware that drops a user's updates when they come too fast: a bounded map
 from users to the time of their last accepted update, cleaned from time to time.
 */
module Throttle {
  import opened Wrappers

  const CLEANUP_INTERVAL: real := 300.0
  const ENTRY_TTL: real := 60.0

  datatype Config = Config(rateLimit: real, maxEntries: nat)

  datatype State = State(lastCall: map<int, real>, lastCleanup: real)

  datatype Call = Call(user: int, at: real)

  function Unexpired(lastCall: map<int, real>, now: real): map<int, real> {
    map u | u in lastCall && lastCall[u] > now - ENTRY_TTL :: lastCall[u]
  }

  /** `after` keeps `cap` entries of `before`, and none it dropped is newer than one
      it kept; which of several equally old ones go is left open. */
  ghost predicate KeepsNewest(before: map<int, real>, after: map<int, real>, cap: nat) {
    && after.Keys <= before.Keys && (forall u <- after.Keys :: after[u] == before[u])
    && |after| == (if |before| > cap then cap else |before|)
    && forall u, v :: u in after && v in before && v !in after ==> before[v] <= before[u]
  }

  ghost predicate Cleaned(c: Config, before: State, now: real, after: State) {
    if now - before.lastCleanup > CLEANUP_INTERVAL then
      KeepsNewest(Unexpired(before.lastCall, now), after.lastCall, c.maxEntries) && after.lastCleanup == now
    else after == before
  }

  /** A user without an entry counts as last seen at time zero. */
  predicate Accepts(c: Config, lastCall: map<int, real>, user: int, now: real) {
    !(now - (if user in lastCall then lastCall[user] else 0.0) < c.rateLimit)
  }

  function Recorded(s: State, call: Call, accepted: bool): State {
    if accepted then s.(lastCall := s.lastCall[call.user := call.at]) else s
  }

  /** Users accepted less than the rate limit ago, as far as the map knows. */
  function Young(c: Config, lastCall: map<int, real>, now: real): set<int> {
    set u | u in lastCall && now - lastCall[u] < c.rateLimit
  }

  // ------------------------------------------------------------ one cleanup

  /** Users whose entry is newer than x. */
  function Newer(lastCall: map<int, real>, x: real): set<int> {
    set u | u in lastCall && lastCall[u] > x
  }

  lemma CapSparesNewerExactly(before: map<int, real>, after: map<int, real>, cap: nat, x: real)
    requires KeepsNewest(before, after, cap)
    ensures Newer(before, x) <= after.Keys <==> |Newer(before, x)| <= cap
  {
    var newer := Newer(before, x);
    assert |after.Keys| == |after| && |before.Keys| == |before|;
    if newer <= after.Keys {
      Larger(newer, after.Keys);
    } else {
      var v := Outside(newer, after.Keys);
      forall u <- after.Keys ensures u in newer {
        assert before[v] <= before[u];
      }
      assert after.Keys + {v} <= newer;
      Larger(after.Keys + {v}, newer);
      Larger(after.Keys + {v}, before.Keys);
    }
  }

  lemma YoungIsNewer(c: Config, lastCall: map<int, real>, now: real)
    ensures Young(c, lastCall, now) == Newer(lastCall, now - c.rateLimit)
  {
  }

  /** Evicting down to the cap spares every young entry exactly when no more than
      the cap are young. */
  lemma CapSparesYoungExactly(c: Config, before: map<int, real>, after: map<int, real>, now: real)
    requires KeepsNewest(before, after, c.maxEntries)
    ensures Young(c, before, now) <= after.Keys <==> |Young(c, before, now)| <= c.maxEntries
  {
    YoungIsNewer(c, before, now);
    CapSparesNewerExactly(before, after, c.maxEntries, now - c.rateLimit);
  }

  /** From now on both maps decide alike. */
  ghost predicate Silent(c: Config, before: map<int, real>, after: map<int, real>, now: real) {
    forall u, later :: later >= now ==> (Accepts(c, after, u, later) <==> Accepts(c, before, u, later))
  }

  /** Dropping entries changes no later decision exactly when none of them is young,
      save one made at time zero, which is what a user without an entry counts as. */
  lemma DropIsSilentExactly(c: Config, before: map<int, real>, after: map<int, real>, now: real)
    requires after.Keys <= before.Keys && (forall u <- after.Keys :: after[u] == before[u])
    requires forall u <- before.Keys :: 0.0 <= before[u] <= now
    ensures Silent(c, before, after, now) <==> forall u <- Young(c, before, now) :: u in after || before[u] == 0.0
  {
    if u :| u in Young(c, before, now) && u !in after && before[u] != 0.0 {
      var later := if now >= c.rateLimit then now else c.rateLimit;
      assert Accepts(c, after, u, later) && !Accepts(c, before, u, later);
    } else {
      forall u, later | later >= now ensures Accepts(c, after, u, later) <==> Accepts(c, before, u, later) {
        if u in before && u !in after { assert u !in Young(c, before, now) || before[u] == 0.0; }
      }
    }
  }

  /** The time to live is long enough for every rate limit up to itself. */
  lemma ExpiryKeepsYoung(c: Config, lastCall: map<int, real>, now: real)
    requires c.rateLimit <= ENTRY_TTL
    ensures Young(c, Unexpired(lastCall, now), now) == Young(c, lastCall, now) <= Unexpired(lastCall, now).Keys
  {
  }

  // ------------------------------------------------------------- whole runs

  /** `run` before each call, `mids` after its cleanup. */
  ghost predicate IsRun(c: Config, run: seq<State>, mids: seq<State>, calls: seq<Call>, accepted: seq<bool>) {
    && |run| == |calls| + 1 && |mids| == |calls| == |accepted|
    && run[0].lastCall == map[]
    && (forall i :: 0 <= i < |calls| ==>
          && Cleaned(c, run[i], calls[i].at, mids[i])
          && accepted[i] == Accepts(c, mids[i].lastCall, calls[i].user, calls[i].at)
          && run[i + 1] == Recorded(mids[i], calls[i], accepted[i]))
    && (forall i, j :: 0 <= i < j < |calls| ==> calls[i].at <= calls[j].at)
  }

  /** At every cleanup, no more users than the cap had an update accepted within
      the rate limit. */
  ghost predicate Roomy(c: Config, run: seq<State>, calls: seq<Call>)
    requires |calls| <= |run|
  {
    forall i :: 0 <= i < |calls| && calls[i].at - run[i].lastCleanup > CLEANUP_INTERVAL ==>
      |Young(c, run[i].lastCall, calls[i].at)| <= c.maxEntries
  }

  /** The map knows every accepted call but those too old to matter. */
  ghost predicate Knows(c: Config, lastCall: map<int, real>, calls: seq<Call>, accepted: seq<bool>, i: nat, now: real)
    requires i <= |calls| == |accepted|
  {
    && (forall u <- lastCall.Keys :: exists j :: 0 <= j < i && accepted[j] && calls[j] == Call(u, lastCall[u]))
    && (forall j :: 0 <= j < i && accepted[j] ==>
          (calls[j].user in lastCall && calls[j].at <= lastCall[calls[j].user]) || calls[j].at <= now - c.rateLimit)
  }

  lemma CleanupKeepsKnowledge(c: Config, run: seq<State>, mids: seq<State>,
                              calls: seq<Call>, accepted: seq<bool>, i: nat)
    requires IsRun(c, run, mids, calls, accepted) && Roomy(c, run, calls) && c.rateLimit <= ENTRY_TTL
    requires i < |calls| && Knows(c, run[i].lastCall, calls, accepted, i, calls[i].at)
    ensures Knows(c, mids[i].lastCall, calls, accepted, i, calls[i].at)
  {
    var before, after, now := run[i].lastCall, mids[i].lastCall, calls[i].at;
    if now - run[i].lastCleanup > CLEANUP_INTERVAL {
      ExpiryKeepsYoung(c, before, now);
      CapSparesYoungExactly(c, Unexpired(before, now), after, now);
      forall j | 0 <= j < i && accepted[j]
        ensures (calls[j].user in after && calls[j].at <= after[calls[j].user]) || calls[j].at <= now - c.rateLimit {
        var u := calls[j].user;
        if u in before && u !in after { assert u !in Young(c, before, now); }
      }
    }
  }

  lemma {:induction false} MapKnowsHistory(c: Config, run: seq<State>, mids: seq<State>,
                                           calls: seq<Call>, accepted: seq<bool>, i: nat)
    requires IsRun(c, run, mids, calls, accepted) && Roomy(c, run, calls) && c.rateLimit <= ENTRY_TTL
    requires i < |calls|
    ensures Knows(c, mids[i].lastCall, calls, accepted, i, calls[i].at)
  {
    if i > 0 {
      MapKnowsHistory(c, run, mids, calls, accepted, i - 1);
      RecordKeepsKnowledge(c, mids[i - 1], calls, accepted, i - 1, calls[i].at);
    }
    CleanupKeepsKnowledge(c, run, mids, calls, accepted, i);
  }

  lemma RecordKeepsKnowledge(c: Config, s: State, calls: seq<Call>, accepted: seq<bool>, i: nat, later: real)
    requires i < |calls| == |accepted| && Knows(c, s.lastCall, calls, accepted, i, calls[i].at)
    requires calls[i].at <= later && forall j :: 0 <= j < i ==> calls[j].at <= calls[i].at
    ensures Knows(c, Recorded(s, calls[i], accepted[i]).lastCall, calls, accepted, i + 1, later)
  {
    var after := Recorded(s, calls[i], accepted[i]).lastCall;
    forall u <- after.Keys ensures exists j :: 0 <= j < i + 1 && accepted[j] && calls[j] == Call(u, after[u]) {
      if u == calls[i].user && accepted[i] {
        assert calls[i] == Call(u, after[u]);
      } else {
        assert u in s.lastCall && after[u] == s.lastCall[u];
      }
    }
  }

  /** Main result: the bounded map decides as the full history would, on a clock that
      starts at zero.  A call is accepted exactly when the clock has reached the rate
      limit and no earlier call of the same user was accepted less than the rate
      limit before it. */
  lemma ThrottleRefinesHistory(c: Config, run: seq<State>, mids: seq<State>,
                               calls: seq<Call>, accepted: seq<bool>, i: nat)
    requires IsRun(c, run, mids, calls, accepted) && Roomy(c, run, calls) && c.rateLimit <= ENTRY_TTL
    requires i < |calls| && forall j :: 0 <= j < |calls| ==> calls[j].at >= 0.0
    ensures accepted[i] <==>
      && calls[i].at >= c.rateLimit
      && forall j :: 0 <= j < i && accepted[j] && calls[j].user == calls[i].user ==>
           calls[i].at - calls[j].at >= c.rateLimit
  {
    MapKnowsHistory(c, run, mids, calls, accepted, i);
    var m, u := mids[i].lastCall, calls[i].user;
    if u in m {
      var j :| 0 <= j < i && accepted[j] && calls[j] == Call(u, m[u]);
    }
  }

  lemma CleanupOnlyDrops(c: Config, before: State, now: real, after: State)
    requires Cleaned(c, before, now, after)
    ensures after.lastCall.Keys <= before.lastCall.Keys
    ensures forall u <- after.lastCall.Keys :: after.lastCall[u] == before.lastCall[u]
  {
  }

  lemma {:induction false} EntriesArePast(c: Config, run: seq<State>, mids: seq<State>,
                                          calls: seq<Call>, accepted: seq<bool>, i: nat)
    requires IsRun(c, run, mids, calls, accepted) && i < |calls|
    requires forall j :: 0 <= j < |calls| ==> calls[j].at >= 0.0
    ensures forall u <- run[i].lastCall.Keys :: 0.0 <= run[i].lastCall[u] <= calls[i].at
  {
    if i > 0 {
      EntriesArePast(c, run, mids, calls, accepted, i - 1);
      assert calls[i - 1].at <= calls[i].at;
      CleanupOnlyDrops(c, run[i - 1], calls[i - 1].at, mids[i - 1]);
    }
  }

  /** Right after a cleanup the map holds no more entries than the cap, none of them past
      its time to live; and as long as the cap is not reached, all the others. */
  lemma CleanupLeaves(c: Config, before: State, now: real, after: State)
    requires Cleaned(c, before, now, after) && now - before.lastCleanup > CLEANUP_INTERVAL
    ensures |after.lastCall| <= c.maxEntries && after.lastCleanup == now
    ensures forall u <- after.lastCall.Keys :: now - after.lastCall[u] < ENTRY_TTL
    ensures forall u <- before.lastCall.Keys :: u !in after.lastCall && now - before.lastCall[u] < ENTRY_TTL ==>
      |after.lastCall| == c.maxEntries
    ensures forall u, v :: u in before.lastCall && u !in after.lastCall && v in after.lastCall ==>
      before.lastCall[u] <= after.lastCall[v]
  {
    var kept := Unexpired(before.lastCall, now);
    if |kept| <= c.maxEntries {
      assert |after.lastCall| == |after.lastCall.Keys| && |kept| == |kept.Keys|;
      Larger(after.lastCall.Keys, kept.Keys);
    }
  }

  /** Users whose entry can still refuse a call: young, and not from time zero. */
  function Mattering(c: Config, lastCall: map<int, real>, now: real): set<int> {
    set u | u in Young(c, lastCall, now) && lastCall[u] > 0.0
  }

  lemma MatteringAreKept(c: Config, before: map<int, real>, after: map<int, real>, now: real)
    requires forall u <- before.Keys :: 0.0 <= before[u]
    ensures (forall u <- Young(c, before, now) :: u in after || before[u] == 0.0)
      <==> Mattering(c, before, now) <= after.Keys
  {
    if Mattering(c, before, now) <= after.Keys {
      forall u <- Young(c, before, now) ensures u in after || before[u] == 0.0 {
        assert u in Mattering(c, before, now) || before[u] == 0.0;
      }
    } else {
      var u := Outside(Mattering(c, before, now), after.Keys);
      assert u in Young(c, before, now) && u !in after && before[u] > 0.0;
    }
  }

  lemma CleanupIsSilentExactly(c: Config, before: State, now: real, after: State)
    requires Cleaned(c, before, now, after) && now - before.lastCleanup > CLEANUP_INTERVAL
    requires c.rateLimit <= ENTRY_TTL && forall u <- before.lastCall.Keys :: 0.0 <= before.lastCall[u] <= now
    ensures Silent(c, before.lastCall, after.lastCall, now) <==> |Mattering(c, before.lastCall, now)| <= c.maxEntries
  {
    hide Silent;
    var kept := Unexpired(before.lastCall, now);
    var x := if now - c.rateLimit > 0.0 then now - c.rateLimit else 0.0;
    assert Mattering(c, before.lastCall, now) == Newer(kept, x);
    CapSparesNewerExactly(kept, after.lastCall, c.maxEntries, x);
    CleanupOnlyDrops(c, before, now, after);
    DropIsSilentExactly(c, before.lastCall, after.lastCall, now);
    MatteringAreKept(c, before.lastCall, after.lastCall, now);
  }

  /** In every run, on a clock that starts at zero: a cleanup changes no later decision
      if and only if no more users than the cap were accepted less than the rate limit
      before it, those accepted at time zero aside. */
  lemma EveryCleanupIsSilentExactly(c: Config, run: seq<State>, mids: seq<State>,
                                    calls: seq<Call>, accepted: seq<bool>, i: nat)
    requires IsRun(c, run, mids, calls, accepted) && c.rateLimit <= ENTRY_TTL && i < |calls|
    requires forall j :: 0 <= j < |calls| ==> calls[j].at >= 0.0
    requires calls[i].at - run[i].lastCleanup > CLEANUP_INTERVAL
    ensures Silent(c, run[i].lastCall, mids[i].lastCall, calls[i].at)
      <==> |Mattering(c, run[i].lastCall, calls[i].at)| <= c.maxEntries
  {
    hide Cleaned, Mattering, Silent;
    EntriesArePast(c, run, mids, calls, accepted, i);
    CleanupIsSilentExactly(c, run[i], calls[i].at, mids[i]);
  }

  /** The users below n, all last accepted at the same moment. */
  function Crowd(n: nat, at: real): map<int, real> {
    if n == 0 then map[] else Crowd(n - 1, at)[n - 1 := at]
  }

  lemma OneMore(m: map<int, real>, u: int, at: real)
    requires u !in m
    ensures |m[u := at]| == |m| + 1
  {
    assert |m| == |m.Keys| && |m[u := at]| == |m[u := at].Keys| && m[u := at].Keys == m.Keys + {u};
  }

  lemma {:induction false} CrowdHas(n: nat, at: real)
    ensures |Crowd(n, at)| == n
    ensures forall u :: u in Crowd(n, at) <==> 0 <= u < n
    ensures forall u <- Crowd(n, at).Keys :: Crowd(n, at)[u] == at
  {
    if n > 0 {
      CrowdHas(n - 1, at);
      OneMore(Crowd(n - 1, at), n - 1, at);
    }
  }

  /** One user more than the cap, each calling once at `at`, and then the last of
      them again at `later`. */
  function CrowdCalls(n: nat, at: real, later: real): seq<Call> {
    seq(n, u => Call(u, at)) + [Call(n - 1, later)]
  }

  lemma CrowdCleaned(c: Config, n: nat, at: real, later: real)
    requires n == c.maxEntries + 1 && 0.0 < c.rateLimit <= ENTRY_TTL && at < later < at + c.rateLimit
    ensures Cleaned(c, State(Crowd(n, at), at - CLEANUP_INTERVAL), later, State(Crowd(n - 1, at), later))
    ensures |Young(c, Crowd(n, at), later)| == n
  {
    CrowdHas(n, at);
    CrowdHas(n - 1, at);
    hide Crowd;
    var before := Crowd(n, at);
    forall u <- before.Keys ensures u in Young(c, before, later) && u in Unexpired(before, later) {
      assert before[u] == at;
    }
    assert Young(c, before, later) == before.Keys;
    assert |before| == |before.Keys|;
    assert Unexpired(before, later) == before;
  }

  /** A cap that is too small lets a call through too early, in every configuration:
      the cleanup at `later` may evict the user who calls then. */
  lemma EvictedTooEarly(c: Config, at: real, later: real)
    returns (run: seq<State>, mids: seq<State>, accepted: seq<bool>)
    requires 0.0 < c.rateLimit <= ENTRY_TTL && CLEANUP_INTERVAL <= at < later < at + c.rateLimit
    ensures var n := c.maxEntries + 1; var calls := CrowdCalls(n, at, later);
      && IsRun(c, run, mids, calls, accepted) && !Roomy(c, run, calls)
      && accepted[n - 1] && accepted[n] && calls[n - 1].user == calls[n].user
      && calls[n].at - calls[n - 1].at < c.rateLimit
  {
    hide Crowd, KeepsNewest;
    var n := c.maxEntries + 1;
    var calls := CrowdCalls(n, at, later);
    var start := at - CLEANUP_INTERVAL;
    var end := State(Crowd(n - 1, at), later);
    mids := seq(n, i requires 0 <= i < n => State(Crowd(i, at), start)) + [end];
    run := seq(n + 1, i requires 0 <= i <= n => State(Crowd(i, at), start)) + [Recorded(end, calls[n], true)];
    accepted := seq(n + 1, _ => true);
    CrowdCleaned(c, n, at, later);
    CrowdHas(n - 1, at);
    CrowdIsEmpty(at);
    forall i | 0 <= i < n ensures Accepts(c, Crowd(i, at), i, at) && Crowd(i + 1, at) == Crowd(i, at)[i := at] {
      CrowdHas(i, at);
      CrowdGrows(i, at);
    }
    assert calls[n].at - run[n].lastCleanup > CLEANUP_INTERVAL;
  }

  lemma CrowdIsEmpty(at: real)
    ensures Crowd(0, at) == map[]
  {
  }

  lemma CrowdGrows(i: nat, at: real)
    ensures Crowd(i + 1, at) == Crowd(i, at)[i := at]
  {
  }

  // ---------------------------------------------------------- the middleware

  lemma {:induction false} HasOldest(m: map<int, real>, users: set<int>) returns (u: int)
    requires users != {} && users <= m.Keys
    ensures u in users && forall v <- users :: m[u] <= m[v]
  {
    u := Any(users);
    if users != {u} {
      assert users - {u} != {};
      var w := HasOldest(m, users - {u});
      assert forall v <- users :: v == u || v in users - {u};
      if m[w] < m[u] { u := w; }
    }
  }

  class ThrottleMiddleware {
    const rateLimit: real
    const maxEntries: nat
    var lastCall: map<int, real>
    var lastCleanup: real

    function Settings(): Config { Config(rateLimit, maxEntries) }

    ghost function Value(): State
      reads this
    {
      State(lastCall, lastCleanup)
    }

    constructor (rateLimit: real, maxEntries: nat, now: real)
      ensures Settings() == Config(rateLimit, maxEntries) && Value() == State(map[], now)
    {
      this.rateLimit, this.maxEntries := rateLimit, maxEntries;
      lastCall, lastCleanup := map[], now;
    }

    /** Drops the oldest entries until the cap is met. */
    method EvictOldest()
      modifies this`lastCall
      ensures KeepsNewest(old(lastCall), lastCall, maxEntries)
    {
      while |lastCall| > maxEntries
        invariant lastCall.Keys <= old(lastCall).Keys && forall u <- lastCall.Keys :: lastCall[u] == old(lastCall)[u]
        invariant forall u, v :: u in lastCall && v in old(lastCall) && v !in lastCall ==>
          old(lastCall)[v] <= old(lastCall)[u]
        invariant |lastCall| <= |old(lastCall)| && (|old(lastCall)| > maxEntries ==> |lastCall| >= maxEntries)
        invariant |old(lastCall)| <= maxEntries ==> lastCall == old(lastCall)
        decreases |lastCall|
      {
        ghost var oldest := HasOldest(lastCall, lastCall.Keys);
        var u :| u in lastCall && forall v <- lastCall.Keys :: lastCall[u] <= lastCall[v];
        var rest := lastCall - {u};
        assert rest.Keys == lastCall.Keys - {u} && |rest| == |rest.Keys|;
        lastCall := rest;
      }
    }

    method Cleanup(now: real)
      modifies this
      ensures Cleaned(Settings(), old(Value()), now, Value())
    {
      if now - lastCleanup > CLEANUP_INTERVAL {
        lastCall := Unexpired(lastCall, now);
        EvictOldest();
        lastCleanup := now;
      }
    }

    /** An event without a user is let through untouched. */
    method Handle(user: Option<int>, now: real) returns (accepted: bool, ghost mid: State)
      modifies this
      ensures user.None? ==> accepted && Value() == old(Value())
      ensures user.Some? ==>
        && Cleaned(Settings(), old(Value()), now, mid)
        && (accepted <==> Accepts(Settings(), mid.lastCall, user.value, now))
        && Value() == Recorded(mid, Call(user.value, now), accepted)
    {
      accepted, mid := true, Value();
      if user.Some? {
        Cleanup(now);
        mid := Value();
        accepted := Accepts(Settings(), lastCall, user.value, now);
        if accepted { lastCall := lastCall[user.value := now]; }
      }
    }
  }
}
