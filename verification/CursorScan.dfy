/**
 Paging through the users of a queue by id while other steps insert, activate,
 deactivate and move users between one page and the next.
 */
module CursorScan {
  import opened Wrappers

  datatype User = User(active: bool, region: Option<string>, queue: Option<string>)

  type Table = map<int, User>

  datatype Filter = Filter(region: string, queue: Option<string>)

  predicate Matches(f: Filter, u: User) {
    u.active && u.region == Some(f.region) && (f.queue.Some? ==> u.queue == f.queue)
  }

  function Matching(t: Table, f: Filter): set<int> {
    set id | id in t && Matches(f, t[id])
  }

  // ------------------------------------------------------------- one query

  predicate IsLeast(s: set<int>, m: int) { m in s && forall x <- s :: m <= x }

  lemma {:induction false} HasLeast(s: set<int>) returns (m: int)
    requires s != {}
    ensures IsLeast(s, m)
  {
    var y := Any(s);
    if s == {y} {
      m := y;
    } else {
      assert s - {y} != {};
      m := HasLeast(s - {y});
      if y < m { m := y; }
      assert forall x <- s :: x == y || x in s - {y};
    }
  }

  function Least(s: set<int>): (m: int)
    requires s != {}
    ensures IsLeast(s, m)
  {
    assert exists m :: IsLeast(s, m) by { var m := HasLeast(s); }
    var m :| IsLeast(s, m);
    m
  }

  function Ordered(s: set<int>): seq<int> {
    if s == {} then [] else [Least(s)] + Ordered(s - {Least(s)})
  }

  predicate Increasing(q: seq<int>) {
    forall i, j :: 0 <= i < j < |q| ==> q[i] < q[j]
  }

  lemma {:induction false} OrderedLists(s: set<int>)
    ensures Increasing(Ordered(s)) && forall x :: x in Ordered(s) <==> x in s
  {
    if s != {} {
      OrderedLists(s - {Least(s)});
      var q := Ordered(s - {Least(s)});
      forall i | 0 <= i < |q| ensures Least(s) < q[i] { assert q[i] in q; }
    }
  }

  /** The rows after a cursor, by id, at most `limit` of them. */
  function Page(t: set<int>, after: int, limit: nat): seq<int> {
    var q := Ordered(set x | x in t && after < x);
    if |q| <= limit then q else q[..limit]
  }

  /** A page is the stretch of matching ids from the cursor to its own last id, or
      to the end of the table if it is short. */
  lemma PageIsStretch(t: set<int>, after: int, limit: nat)
    requires limit > 0
    ensures var p := Page(t, after, limit);
      && |p| <= limit && Increasing(p)
      && (forall x :: x in p <==> x in t && after < x && (|p| == limit ==> x <= p[limit - 1]))
  {
    hide Ordered;
    var s := set x | x in t && after < x;
    OrderedLists(s);
    var q := Ordered(s);
    if |q| > limit {
      forall x { PrefixIsBounded(q, limit, x); }
    } else if |q| == limit {
      forall x <- q ensures x <= q[limit - 1] {
        var i :| 0 <= i < |q| && q[i] == x;
      }
    }
  }

  lemma PrefixIsBounded(q: seq<int>, limit: nat, x: int)
    requires Increasing(q) && 0 < limit < |q|
    ensures x in q[..limit] <==> x in q && x <= q[limit - 1]
  {
    if x in q {
      var i :| 0 <= i < |q| && q[i] == x;
      if i < limit { assert q[..limit][i] == x; }
    }
  }

  // -------------------------------------------------------------- the scan

  /** The matching ids at each query, while the table changes. */
  type History = nat -> set<int>

  ghost predicate Bounded(h: History, bound: int) {
    forall n: nat :: forall x <- h(n) :: x <= bound
  }

  function Last(p: seq<int>): int
    requires p != []
  {
    p[|p| - 1]
  }

  lemma FullPageAdvances(h: History, bound: int, n: nat, after: int, limit: nat)
    requires Bounded(h, bound) && limit > 0 && |Page(h(n), after, limit)| == limit
    ensures after < Last(Page(h(n), after, limit)) <= bound
  {
    PageIsStretch(h(n), after, limit);
    assert Last(Page(h(n), after, limit)) in Page(h(n), after, limit);
  }

  /** The ids visited from the n-th query on. */
  ghost function Visited(h: History, bound: int, n: nat, after: int, limit: nat): seq<int>
    requires Bounded(h, bound) && limit > 0
    decreases bound - after
  {
    var p := Page(h(n), after, limit);
    if |p| < limit then p
    else
      FullPageAdvances(h, bound, n, after, limit);
      p + Visited(h, bound, n + 1, Last(p), limit)
  }

  /** How many queries the scan makes from the n-th on. */
  ghost function Queries(h: History, bound: int, n: nat, after: int, limit: nat): nat
    requires Bounded(h, bound) && limit > 0
    decreases bound - after
  {
    var p := Page(h(n), after, limit);
    if |p| < limit then 1
    else
      FullPageAdvances(h, bound, n, after, limit);
      1 + Queries(h, bound, n + 1, Last(p), limit)
  }

  /** Nobody is visited twice: ids go up, across pages too. */
  lemma {:induction false} VisitedOnce(h: History, bound: int, n: nat, after: int, limit: nat)
    requires Bounded(h, bound) && limit > 0
    ensures Increasing(Visited(h, bound, n, after, limit))
    ensures forall x <- Visited(h, bound, n, after, limit) :: after < x <= bound
    decreases bound - after
  {
    var p := Page(h(n), after, limit);
    PageIsStretch(h(n), after, limit);
    if |p| == limit {
      FullPageAdvances(h, bound, n, after, limit);
      VisitedOnce(h, bound, n + 1, Last(p), limit);
      Joined(p, Visited(h, bound, n + 1, Last(p), limit));
    }
  }

  lemma Joined(p: seq<int>, q: seq<int>)
    requires p != [] && Increasing(p) && Increasing(q) && forall x <- q :: Last(p) < x
    ensures Increasing(p + q)
  {
    var r := p + q;
    forall i, j | 0 <= i < j < |r| ensures r[i] < r[j] {
      if i < |p| <= j { assert q[j - |p|] in q; }
    }
  }

  /** Who matches at every query of the scan, with an id beyond the cursor, is visited, short
      page or not. */
  lemma {:induction false} SteadyUsersVisited(h: History, bound: int, n: nat, after: int, limit: nat, x: int)
    requires Bounded(h, bound) && limit > 0
    requires after < x && forall k :: n <= k < n + Queries(h, bound, n, after, limit) ==> x in h(k)
    ensures x in Visited(h, bound, n, after, limit)
    decreases bound - after
  {
    var p := Page(h(n), after, limit);
    PageIsStretch(h(n), after, limit);
    if |p| == limit && x !in p {
      FullPageAdvances(h, bound, n, after, limit);
      SteadyUsersVisited(h, bound, n + 1, Last(p), limit, x);
    }
  }

  /** Who is visited matched at some query of the scan. */
  lemma {:induction false} VisitedMatched(h: History, bound: int, n: nat, after: int, limit: nat, x: int)
    requires Bounded(h, bound) && limit > 0
    requires x in Visited(h, bound, n, after, limit)
    ensures exists k :: n <= k < n + Queries(h, bound, n, after, limit) && x in h(k)
    decreases bound - after
  {
    var p := Page(h(n), after, limit);
    PageIsStretch(h(n), after, limit);
    if |p| == limit && x !in p {
      FullPageAdvances(h, bound, n, after, limit);
      VisitedMatched(h, bound, n + 1, Last(p), limit, x);
    }
  }

  lemma {:induction false} SameOrder(p: seq<int>, q: seq<int>)
    requires Increasing(p) && Increasing(q) && forall x :: x in p <==> x in q
    ensures p == q
  {
    assert (p != [] ==> p[0] in p) && (q != [] ==> q[0] in q);
    assert (p != [] ==> p[0] in q) && (q != [] ==> q[0] in p);
    if p != [] {
      assert p[0] == q[0];
      forall x ensures x in p[1..] <==> x in q[1..] {
        assert x in p <==> x in q;
        assert p == [p[0]] + p[1..] && q == [q[0]] + q[1..];
      }
      SameOrder(p[1..], q[1..]);
    }
  }

  /** On a table that stays as it is, the pages make up the whole sorted result. */
  lemma PagesMakeTheWhole(h: History, bound: int, limit: nat, t: set<int>)
    requires Bounded(h, bound) && limit > 0 && (forall k: nat :: h(k) == t) && forall x <- t :: 0 < x
    ensures Visited(h, bound, 0, 0, limit) == Ordered(t)
  {
    var v := Visited(h, bound, 0, 0, limit);
    OrderedLists(t);
    VisitedOnce(h, bound, 0, 0, limit);
    forall x ensures x in v <==> x in Ordered(t) {
      if x in t { SteadyUsersVisited(h, bound, 0, 0, limit, x); }
      if x in v { VisitedMatched(h, bound, 0, 0, limit, x); }
    }
    SameOrder(v, Ordered(t));
  }

  lemma OnePage(h: History, bound: int, visited: seq<int>, n: nat, after: int, limit: nat)
    requires Bounded(h, bound) && limit > 0
    ensures var p := Page(h(n), after, limit);
      && (|p| < limit ==>
            && visited + Visited(h, bound, n, after, limit) == visited + p
            && Queries(h, bound, n, after, limit) == 1)
      && (|p| >= limit ==>
            && after < Last(p) <= bound
            && Queries(h, bound, n, after, limit) == 1 + Queries(h, bound, n + 1, Last(p), limit)
            && visited + Visited(h, bound, n, after, limit) == (visited + p) + Visited(h, bound, n + 1, Last(p), limit))
  {
    var p := Page(h(n), after, limit);
    PageIsStretch(h(n), after, limit);
    if |p| >= limit {
      FullPageAdvances(h, bound, n, after, limit);
      var rest := Visited(h, bound, n + 1, Last(p), limit);
      assert visited + (p + rest) == (visited + p) + rest;
    }
  }

  lemma BoundedMatches(users: nat -> Table, f: Filter, bound: int)
    requires forall n: nat :: forall id <- users(n) :: id <= bound
    ensures Bounded((n: nat) => Matching(users(n), f), bound)
  {
  }

  /** Who the scan is for: active users of the region, and of the queue if one is given. */
  predicate Wanted(f: Filter, u: User) {
    && u.active && u.region == Some(f.region)
    && match f.queue case None => true case Some(queue) => u.queue == Some(queue)
  }

  /** The user is there and meets the filter at each of the first queries. */
  ghost predicate WantedThroughout(users: nat -> Table, f: Filter, queries: nat, x: int) {
    forall k :: 0 <= k < queries ==> x in users(k) && Wanted(f, users(k)[x])
  }

  lemma VisitsTheWanted(users: nat -> Table, f: Filter, bound: int, limit: nat)
    requires limit > 0 && Bounded((n: nat) => Matching(users(n), f), bound)
    ensures var h: History := (n: nat) => Matching(users(n), f);
      var visited, queries := Visited(h, bound, 0, 0, limit), Queries(h, bound, 0, 0, limit);
      && Increasing(visited)
      && (forall x <- visited :: exists k :: 0 <= k < queries && x in users(k) && Wanted(f, users(k)[x]))
      && (forall x :: 0 < x && WantedThroughout(users, f, queries, x) ==> x in visited)
  {
    hide Visited, Queries;
    var h: History := (n: nat) => Matching(users(n), f);
    var visited, queries := Visited(h, bound, 0, 0, limit), Queries(h, bound, 0, 0, limit);
    VisitedOnce(h, bound, 0, 0, limit);
    assert forall k: nat, x :: x in h(k) <==> x in users(k) && Wanted(f, users(k)[x]);
    forall x <- visited ensures exists k :: 0 <= k < queries && x in users(k) && Wanted(f, users(k)[x]) {
      VisitedMatched(h, bound, 0, 0, limit, x);
      var k :| 0 <= k < queries && x in h(k);
    }
    forall x | 0 < x && WantedThroughout(users, f, queries, x) ensures x in visited {
      SteadyUsersVisited(h, bound, 0, 0, limit, x);
    }
  }

  /** The scan as it runs, on the users' table itself. */
  method Scan(users: nat -> Table, f: Filter, limit: nat, ghost bound: int)
    returns (visited: seq<int>, total: nat, queries: nat)
    requires limit > 0
    requires forall n: nat :: forall id <- users(n) :: id <= bound
    ensures Bounded((n: nat) => Matching(users(n), f), bound)
    ensures visited == Visited((n: nat) => Matching(users(n), f), bound, 0, 0, limit)
    ensures queries == Queries((n: nat) => Matching(users(n), f), bound, 0, 0, limit)
    ensures Increasing(visited)
    ensures forall x <- visited :: exists k :: 0 <= k < queries && x in users(k) && Wanted(f, users(k)[x])
    ensures forall x :: 0 < x && WantedThroughout(users, f, queries, x) ==> x in visited
    ensures total == |visited| && (queries - 1) * limit <= total < queries * limit
  {
    hide Page, Matching, Visited, Queries;
    ghost var h: History := (n: nat) => Matching(users(n), f);
    assert Bounded(h, bound) by { BoundedMatches(users, f, bound); }
    var afterId := 0;
    visited, total, queries := [], 0, 0;
    while true
      invariant Bounded(h, bound)
      invariant visited + Visited(h, bound, queries, afterId, limit) == Visited(h, bound, 0, 0, limit)
      invariant queries + Queries(h, bound, queries, afterId, limit) == Queries(h, bound, 0, 0, limit)
      invariant total == |visited| == queries * limit
      decreases bound - afterId
    {
      var batch := Page(Matching(users(queries), f), afterId, limit);
      PageIsStretch(h(queries), afterId, limit);
      OnePage(h, bound, visited, queries, afterId, limit);
      queries := queries + 1;
      if batch == [] {
        break;
      }
      visited := visited + batch;
      total := total + |batch|;
      if |batch| < limit {
        break;
      }
      afterId := Last(batch);
    }
    VisitsTheWanted(users, f, bound, limit);
  }
}
