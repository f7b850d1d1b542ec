/**
 The write-back cache between the monitor's in-memory states and the
 user_power_states table.

 Every block that changes a saved field also marks the id dirty, and a flush has
 three suspension points: it copies the dirty rows, commits them, and only then
 clears the marks.  Anything may happen to the memory in between, and a flush of
 the monitor loop may still be running when the one at shutdown begins.
 */
module WriteBack {
  import opened Wrappers

  type Id = string

  /** The columns a flush saves; their meaning does not matter here. */
  datatype Saved = Saved(current: Option<string>, pending: Option<string>, pendingTime: Option<int>,
                         lastStable: Option<string>, lastStableAt: Option<int>, instabilityStart: Option<int>,
                         switchCount: nat, lastNotificationAt: Option<int>)

  /** A running flush: the marks it saw and the rows it copied. */
  datatype Flight = Flight(ids: set<Id>, rows: map<Id, Saved>, committed: bool)

  datatype Mem = Mem(states: map<Id, Saved>, dirty: set<Id>, table: map<Id, Saved>, flights: map<nat, Flight>)

  datatype Step =
    | Change(id: Id, row: Saved)
    | Mark(id: Id)
    | Drop(ids: set<Id>)
    | Begin(flush: nat)
    | Commit(flush: nat)
    | Finish(flush: nat)
    | Fail(flush: nat)
    | Restore(ids: set<Id>)

  /** What a flush copies: the marked ids that are still in memory. */
  function DirtyRows(states: map<Id, Saved>, dirty: set<Id>): (rows: map<Id, Saved>)
    ensures rows.Keys == dirty * states.Keys
    ensures forall id :: id in rows ==> rows[id] == states[id]
  {
    map id | id in dirty && id in states :: states[id]
  }

  predicate Enabled(m: Mem, s: Step) {
    match s
    case Begin(f) => f !in m.flights
    case Commit(f) => f in m.flights && !m.flights[f].committed
    case Finish(f) => f in m.flights && m.flights[f].committed
    case Fail(f) => f in m.flights
    case _ => true
  }

  function Next(m: Mem, s: Step): Mem
    requires Enabled(m, s)
  {
    match s
    case Change(id, row) => m.(states := m.states[id := row], dirty := m.dirty + {id})
    case Mark(id) => m.(dirty := m.dirty + {id})
    case Drop(ids) => m.(states := m.states - ids, dirty := m.dirty - (ids * m.states.Keys))
    case Begin(f) =>
      var rows := DirtyRows(m.states, m.dirty);
      if rows == map[] then m else m.(flights := m.flights[f := Flight(m.dirty, rows, false)])
    case Commit(f) =>
      m.(table := m.table + m.flights[f].rows, flights := m.flights[f := m.flights[f].(committed := true)])
    case Finish(f) => m.(dirty := m.dirty - m.flights[f].ids, flights := m.flights - {f})
    case Fail(f) => m.(flights := m.flights - {f})
    case Restore(ids) =>
      var found := ids * m.table.Keys;
      m.(states := m.states + (map id | id in found :: m.table[id]), dirty := m.dirty - found)
  }

  /** The table holds what the memory does. */
  predicate Stored(m: Mem, id: Id)
    requires id in m.states
  {
    id in m.table && m.table[id] == m.states[id]
  }

  /** An id in memory that is not marked has its row in the table. */
  ghost predicate Agreement(m: Mem) {
    forall id :: id in m.states && id !in m.dirty ==> Stored(m, id)
  }

  ghost predicate IsRun(run: seq<Mem>, steps: seq<Step>) {
    && |run| == |steps| + 1
    && forall i :: 0 <= i < |steps| ==> Enabled(run[i], steps[i]) && run[i + 1] == Next(run[i], steps[i])
  }

  function Empty(table: map<Id, Saved>): Mem { Mem(map[], {}, table, map[]) }

  // -------------------------------------------------------- exact conditions

  /** A flush clears the mark of an id whose present state is not in the table. */
  predicate ClearsStale(m: Mem, s: Step, id: Id) {
    s.Finish? && s.flush in m.flights && id in m.flights[s.flush].ids && id in m.states && !Stored(m, id)
  }

  /** A flush writes another row over that of an unmarked id. */
  predicate Overwrites(m: Mem, s: Step, id: Id) {
    && s.Commit? && s.flush in m.flights && id in m.flights[s.flush].rows
    && id in m.states && id !in m.dirty && m.flights[s.flush].rows[id] != m.states[id]
  }

  ghost predicate Forgets(m: Mem, s: Step) {
    exists id :: ClearsStale(m, s, id) || Overwrites(m, s, id)
  }

  /** One step: the agreement survives a flush's commit and its end exactly when no
      unmarked id is overwritten and no stale one is cleared, and every other step. */
  lemma StepAgreesExactly(m: Mem, s: Step)
    requires Agreement(m) && Enabled(m, s)
    ensures Agreement(Next(m, s)) <==> !Forgets(m, s)
  {
    var n := Next(m, s);
    if Forgets(m, s) {
      var id :| ClearsStale(m, s, id) || Overwrites(m, s, id);
      assert id in n.states && id !in n.dirty && !Stored(n, id);
    } else {
      forall id | id in n.states && id !in n.dirty ensures Stored(n, id) {
        assert !ClearsStale(m, s, id) && !Overwrites(m, s, id);
      }
    }
  }

  lemma {:induction false} AgreementSoFar(run: seq<Mem>, steps: seq<Step>, i: nat)
    requires IsRun(run, steps) && Agreement(run[0]) && i < |run|
    requires forall k :: 0 <= k < i ==> !Forgets(run[k], steps[k])
    ensures Agreement(run[i])
  {
    hide Agreement, Forgets, Next, Enabled;
    if i > 0 {
      AgreementSoFar(run, steps, i - 1);
      StepAgreesExactly(run[i - 1], steps[i - 1]);
    }
  }

  /** Main result, exact: over whole runs, with any number of flushes at a time, memory
      and table agree on every unmarked id at every point if and only if no commit
      overwrites an unmarked id with another row and no flush clears a stale mark. */
  lemma AgreesExactly(run: seq<Mem>, steps: seq<Step>)
    requires IsRun(run, steps) && Agreement(run[0])
    ensures (forall i :: 0 <= i < |run| ==> Agreement(run[i])) <==>
      forall k :: 0 <= k < |steps| ==> !Forgets(run[k], steps[k])
  {
    hide Agreement, Forgets, Next, Enabled;
    if forall k :: 0 <= k < |steps| ==> !Forgets(run[k], steps[k]) {
      forall i | 0 <= i < |run| ensures Agreement(run[i]) {
        AgreementSoFar(run, steps, i);
      }
    } else {
      var k :| 0 <= k < |steps| && Forgets(run[k], steps[k]);
      if Agreement(run[k]) {
        StepAgreesExactly(run[k], steps[k]);
      }
      assert !Agreement(run[k]) || !Agreement(run[k + 1]);
    }
  }

  // --------------------------------------------- nothing changed in flight

  /** What a flush will have saved of an id: the row it copied, or else, for an id it
      found marked but not in memory, what the table holds. */
  predicate Saves(m: Mem, f: nat, id: Id, row: Saved)
    requires f in m.flights
  {
    if id in m.flights[f].rows then m.flights[f].rows[id] == row else id in m.table && m.table[id] == row
  }

  /** The condition on a step: an id of a running flush is not given a state that the
      flush does not save. */
  ghost predicate Clean(m: Mem, s: Step) {
    match s
    case Change(id, row) => forall f <- m.flights :: id in m.flights[f].ids ==> Saves(m, f, id, row)
    case Restore(ids) =>
      forall id, f :: id in ids && id in m.table && f in m.flights && id in m.flights[f].ids ==>
        Saves(m, f, id, m.table[id])
    case _ => true
  }

  ghost predicate FlightOk(m: Mem, f: nat)
    requires f in m.flights
  {
    var flight := m.flights[f];
    && flight.rows.Keys <= flight.ids
    && (forall id :: id in flight.ids && id in m.states ==> Saves(m, f, id, m.states[id]))
    && (flight.committed ==> forall id :: id in flight.rows ==> id in m.table && m.table[id] == flight.rows[id])
  }

  /** Flushes that run at the same time copied the same rows. */
  ghost predicate FlightsMatch(m: Mem) {
    forall f, g, id :: f in m.flights && g in m.flights && id in m.flights[f].rows && id in m.flights[g].rows ==>
      m.flights[f].rows[id] == m.flights[g].rows[id]
  }

  ghost predicate Inv(m: Mem) {
    Agreement(m) && FlightsMatch(m) && forall f <- m.flights :: FlightOk(m, f)
  }

  lemma CleanNeverForgets(m: Mem, s: Step)
    requires Inv(m) && Enabled(m, s)
    ensures !Forgets(m, s)
  {
    if s.Commit? || s.Finish? { assert FlightOk(m, s.flush); }
  }

  lemma CleanKeepsFlight(m: Mem, s: Step, f: nat)
    requires Inv(m) && Enabled(m, s) && Clean(m, s) && f in Next(m, s).flights
    ensures FlightOk(Next(m, s), f)
  {
    if f in m.flights { assert FlightOk(m, f); }
    if s.Commit? { assert FlightOk(m, s.flush); }
  }

  lemma StepKeepsMatch(m: Mem, s: Step)
    requires Inv(m) && Enabled(m, s)
    ensures FlightsMatch(Next(m, s))
  {
    if s.Begin? {
      forall f, id | f in m.flights && id in m.flights[f].rows && id in DirtyRows(m.states, m.dirty)
        ensures m.flights[f].rows[id] == m.states[id]
      {
        assert FlightOk(m, f);
      }
    }
  }

  lemma StepKeepsInv(m: Mem, s: Step)
    requires Inv(m) && Enabled(m, s) && Clean(m, s)
    ensures Inv(Next(m, s))
  {
    hide Agreement, FlightOk, FlightsMatch, Forgets, Next, Clean;
    StepAgreesExactly(m, s);
    CleanNeverForgets(m, s);
    StepKeepsMatch(m, s);
    forall f <- Next(m, s).flights ensures FlightOk(Next(m, s), f) { CleanKeepsFlight(m, s, f); }
  }

  /** Main result: as long as no id of a running flush is changed before that flush
      ends, memory and table agree on every unmarked id at every point of every run,
      whichever flushes overlap or fail and whatever the table held at the start. */
  lemma {:induction false} WriteBackAgrees(run: seq<Mem>, steps: seq<Step>, i: nat)
    requires IsRun(run, steps) && run[0] == Empty(run[0].table)
    requires forall k :: 0 <= k < |steps| ==> Clean(run[k], steps[k])
    requires i < |run|
    ensures Inv(run[i])
  {
    hide Next, Enabled, Clean;
    if i > 0 {
      WriteBackAgrees(run, steps, i - 1);
      StepKeepsInv(run[i - 1], steps[i - 1]);
    }
  }

  // --------------------------------------------------------- failing inputs

  /** The id that is re-marked in flight: its change is neither marked nor saved. */
  lemma RemarkedIdIsForgotten(id: Id, first: Saved, second: Saved) returns (run: seq<Mem>, steps: seq<Step>)
    requires first != second
    ensures steps == [Change(id, first), Begin(0), Change(id, second), Commit(0), Finish(0)]
    ensures IsRun(run, steps) && run[0] == Empty(map[])
    ensures !Clean(run[2], steps[2]) && ClearsStale(run[4], steps[4], id)
    ensures id !in run[5].dirty && id in run[5].states && run[5].states[id] == second
    ensures id in run[5].table && run[5].table[id] == first
  {
    var one, two := map[id := first], map[id := second];
    var m1 := Mem(one, {id}, map[], map[]);
    var m2 := m1.(flights := map[0 := Flight({id}, one, false)]);
    var m3 := m2.(states := two);
    var m4 := m3.(table := one, flights := map[0 := Flight({id}, one, true)]);
    var m5 := Mem(two, {}, one, map[]);
    assert m1 == Next(Empty(map[]), Change(id, first));
    BeginCopies(m1, 0, id, first);
    assert m3 == Next(m2, Change(id, second));
    assert m4 == Next(m3, Commit(0));
    assert m5 == Next(m4, Finish(0));
    run := [Empty(map[]), m1, m2, m3, m4, m5];
    steps := [Change(id, first), Begin(0), Change(id, second), Commit(0), Finish(0)];
  }

  lemma BeginCopies(m: Mem, f: nat, id: Id, row: Saved)
    requires m.dirty == {id} && m.states == map[id := row] && f !in m.flights
    ensures Next(m, Begin(f)) == m.(flights := m.flights[f := Flight({id}, map[id := row], false)])
  {
    var rows := DirtyRows(m.states, m.dirty);
    assert id in rows && rows == map[id := row];
  }

  /** Two flushes at a time, as when the loop's own still waits at shutdown. */
  function OverlapSteps(id: Id, first: Saved, second: Saved): seq<Step> {
    [Change(id, first), Begin(0), Change(id, second), Begin(1), Commit(1), Finish(1), Commit(0)]
  }

  function OverlapRun(id: Id, first: Saved, second: Saved): seq<Mem> {
    var one, two := map[id := first], map[id := second];
    var older, newer := Flight({id}, one, false), Flight({id}, two, false);
    [Empty(map[]),
     Mem(one, {id}, map[], map[]),
     Mem(one, {id}, map[], map[0 := older]),
     Mem(two, {id}, map[], map[0 := older]),
     Mem(two, {id}, map[], map[0 := older, 1 := newer]),
     Mem(two, {id}, two, map[0 := older, 1 := newer.(committed := true)]),
     Mem(two, {}, two, map[0 := older]),
     Mem(two, {}, one, map[0 := older.(committed := true)])]
  }

  predicate Follows(run: seq<Mem>, steps: seq<Step>, k: nat)
    requires k < |steps| < |run|
  {
    Enabled(run[k], steps[k]) && run[k + 1] == Next(run[k], steps[k])
  }

  lemma OverlapBegins(id: Id, first: Saved, second: Saved)
    ensures forall k :: 0 <= k < 4 ==> Follows(OverlapRun(id, first, second), OverlapSteps(id, first, second), k)
  {
    var run := OverlapRun(id, first, second);
    BeginCopies(run[1], 0, id, first);
    BeginCopies(run[3], 1, id, second);
  }

  lemma OverlapEnds(id: Id, first: Saved, second: Saved)
    ensures forall k :: 4 <= k < 7 ==> Follows(OverlapRun(id, first, second), OverlapSteps(id, first, second), k)
  {
    var run := OverlapRun(id, first, second);
    assert run[4].flights[1 := run[4].flights[1].(committed := true)] == run[5].flights;
    assert run[5].flights - {1} == run[6].flights;
  }

  /** The older flush commits last and puts its row over an id that the newer one has
      saved and cleared.  No stale mark is cleared in this run. */
  lemma OlderFlushOverwrites(id: Id, first: Saved, second: Saved)
    requires first != second
    ensures var run, steps := OverlapRun(id, first, second), OverlapSteps(id, first, second);
      && IsRun(run, steps) && run[0] == Empty(map[])
      && (forall k, x :: 0 <= k < |steps| ==> !ClearsStale(run[k], steps[k], x))
      && Overwrites(run[6], steps[6], id)
      && id !in run[7].dirty && run[7].states == map[id := second] && run[7].table == map[id := first]
  {
    hide Next, Enabled;
    OverlapBegins(id, first, second);
    OverlapEnds(id, first, second);
    var run, steps := OverlapRun(id, first, second), OverlapSteps(id, first, second);
    forall k | 0 <= k < |steps| ensures Enabled(run[k], steps[k]) && run[k + 1] == Next(run[k], steps[k]) {
      assert Follows(run, steps, k);
    }
  }

  // ------------------------------------------------------ the life of a mark

  predicate Marks(s: Step, id: Id) {
    (s.Change? || s.Mark?) && s.id == id
  }

  predicate Unmarks(m: Mem, s: Step, id: Id) {
    || (s.Finish? && s.flush in m.flights && id in m.flights[s.flush].ids)
    || (s.Drop? && id in s.ids && id in m.states)
    || (s.Restore? && id in s.ids && id in m.table)
  }

  /** Since step k nothing has taken the mark of the id away, up to step i. */
  ghost predicate KeptSince(run: seq<Mem>, steps: seq<Step>, id: Id, k: nat, i: nat)
    requires i <= |steps| < |run|
  {
    forall l :: k <= l < i ==> !Unmarks(run[l], steps[l], id)
  }

  /** An id is marked exactly when it was at the start, or some step marked it, and
      since then no flush that had seen the mark has ended well, and the id was
      neither dropped from memory nor restored. */
  lemma {:induction false} MarkedExactly(run: seq<Mem>, steps: seq<Step>, id: Id, i: nat)
    requires IsRun(run, steps) && i <= |steps|
    ensures id in run[i].dirty <==>
      || (id in run[0].dirty && KeptSince(run, steps, id, 0, i))
      || exists k :: 0 <= k < i && Marks(steps[k], id) && KeptSince(run, steps, id, k + 1, i)
  {
    if i > 0 {
      var n := i - 1;
      MarkedExactly(run, steps, id, n);
      MarkStep(run[n], steps[n], id);
      if Marks(steps[n], id) {
        assert KeptSince(run, steps, id, n + 1, i);
      } else {
        forall k: nat | k <= n
          ensures KeptSince(run, steps, id, k, i) <==> KeptSince(run, steps, id, k, n) && !Unmarks(run[n], steps[n], id)
        {
        }
      }
    }
  }

  lemma MarkStep(m: Mem, s: Step, id: Id)
    requires Enabled(m, s)
    ensures id in Next(m, s).dirty <==> Marks(s, id) || (id in m.dirty && !Unmarks(m, s, id))
  {
  }

  /** Ids first marked while a flush runs are still marked after it, and a failed
      flush keeps every mark, unless something else takes the mark away: another flush
      that has seen it, a drop or a restore. */
  lemma MarksSurviveFlush(run: seq<Mem>, steps: seq<Step>, id: Id, f: nat)
    requires IsRun(run, steps) && |steps| > 0 && f in run[|steps| - 1].flights
    requires KeptSince(run, steps, id, 0, |steps| - 1)
    requires steps[|steps| - 1] == Finish(f) || steps[|steps| - 1] == Fail(f)
    ensures steps[|steps| - 1].Fail? && id in run[0].dirty ==> id in run[|steps|].dirty
    ensures id !in run[|steps| - 1].flights[f].ids && (exists k :: 0 <= k < |steps| && Marks(steps[k], id)) ==>
      id in run[|steps|].dirty
  {
    var n := |steps| - 1;
    MarkedExactly(run, steps, id, n);
    MarkStep(run[n], steps[n], id);
    if k :| 0 <= k < |steps| && Marks(steps[k], id) {
      assert KeptSince(run, steps, id, k + 1, n);
    }
  }

  // ------------------------------------------------- what is where, and why

  /** The step puts the id into memory, or gives it another state there. */
  predicate Puts(m: Mem, s: Step, id: Id) {
    (s.Change? && s.id == id) || (s.Restore? && id in s.ids && id in m.table)
  }

  function Given(m: Mem, s: Step, id: Id): Saved
    requires Puts(m, s, id)
  {
    if s.Change? then s.row else m.table[id]
  }

  predicate Removes(s: Step, id: Id) { s.Drop? && id in s.ids }

  /** Nothing has touched the id in memory from step k up to step i. */
  ghost predicate Untouched(run: seq<Mem>, steps: seq<Step>, id: Id, k: nat, i: nat)
    requires i <= |steps| < |run|
  {
    forall l :: k <= l < i ==> !Puts(run[l], steps[l], id) && !Removes(steps[l], id)
  }

  /** Step k put the id into memory, and nothing has touched it since. */
  ghost predicate PutBy(run: seq<Mem>, steps: seq<Step>, id: Id, k: nat, i: nat)
    requires k < i <= |steps| < |run|
  {
    Puts(run[k], steps[k], id) && Untouched(run, steps, id, k + 1, i)
  }

  lemma MemoryStep(m: Mem, s: Step, id: Id)
    requires Enabled(m, s)
    ensures Puts(m, s, id) ==> id in Next(m, s).states && Next(m, s).states[id] == Given(m, s, id)
    ensures Removes(s, id) ==> id !in Next(m, s).states
    ensures !Puts(m, s, id) && !Removes(s, id) ==>
      (id in Next(m, s).states <==> id in m.states) && (id in m.states ==> Next(m, s).states[id] == m.states[id])
  {
  }

  /** An id is in memory exactly when it was at the start and nothing has touched it, or
      some change or restore put it there and nothing has touched it since. */
  lemma {:induction false} InMemoryExactly(run: seq<Mem>, steps: seq<Step>, id: Id, i: nat)
    requires IsRun(run, steps) && i <= |steps|
    ensures id in run[i].states <==>
      || (id in run[0].states && Untouched(run, steps, id, 0, i))
      || exists k :: 0 <= k < i && PutBy(run, steps, id, k, i)
  {
    hide Enabled, Next, Puts, Removes;
    if i > 0 {
      var n := i - 1;
      InMemoryExactly(run, steps, id, n);
      MemoryStep(run[n], steps[n], id);
      PutsOrRemoves(run[n], steps[n], id);
      if Puts(run[n], steps[n], id) {
        assert PutBy(run, steps, id, n, i);
      } else if !Removes(steps[n], id) {
        if k :| 0 <= k < n && PutBy(run, steps, id, k, n) { assert PutBy(run, steps, id, k, i); }
        if k :| 0 <= k < i && PutBy(run, steps, id, k, i) { assert PutBy(run, steps, id, k, n); }
      }
    }
  }

  lemma PutsOrRemoves(m: Mem, s: Step, id: Id)
    ensures !(Puts(m, s, id) && Removes(s, id))
  {
  }

  /** And its state is the one that step gave it, or the one it had at the start. */
  lemma {:induction false} StateInMemory(run: seq<Mem>, steps: seq<Step>, id: Id, k: nat, i: nat)
    requires IsRun(run, steps) && k < i <= |steps| && PutBy(run, steps, id, k, i)
    ensures id in run[i].states && run[i].states[id] == Given(run[k], steps[k], id)
    decreases i
  {
    hide Enabled, Next, Puts, Removes, Given;
    if i - 1 > k { StateInMemory(run, steps, id, k, i - 1); }
    MemoryStep(run[i - 1], steps[i - 1], id);
  }

  lemma {:induction false} StateFromStart(run: seq<Mem>, steps: seq<Step>, id: Id, i: nat)
    requires IsRun(run, steps) && i <= |steps| && id in run[0].states && Untouched(run, steps, id, 0, i)
    ensures id in run[i].states && run[i].states[id] == run[0].states[id]
  {
    hide Enabled, Next, Puts, Removes;
    if i > 0 {
      StateFromStart(run, steps, id, i - 1);
      MemoryStep(run[i - 1], steps[i - 1], id);
    }
  }

  /** A flush keeps what it copied as it began, until it ends: the rows of all ids that
      were marked and in memory then. */
  lemma {:induction false} FlightIsSnapshot(run: seq<Mem>, steps: seq<Step>, f: nat, k: nat, i: nat)
    requires IsRun(run, steps) && k < i <= |steps| && steps[k] == Begin(f)
    requires forall l :: k < l < i ==> steps[l] != Finish(f) && steps[l] != Fail(f) && steps[l] != Begin(f)
    ensures f in run[i].flights <==> run[k].dirty * run[k].states.Keys != {}
    ensures f in run[i].flights ==>
      && run[i].flights[f].ids == run[k].dirty && run[i].flights[f].rows.Keys == run[k].dirty * run[k].states.Keys
      && forall id <- run[i].flights[f].rows :: run[i].flights[f].rows[id] == run[k].states[id]
    decreases i
  {
    assert Enabled(run[i - 1], steps[i - 1]) && run[i] == Next(run[i - 1], steps[i - 1]);
    if i - 1 > k {
      FlightIsSnapshot(run, steps, f, k, i - 1);
    } else {
      var rows := DirtyRows(run[k].states, run[k].dirty);
      assert rows == map[] <==> rows.Keys == {};
    }
  }

  /** The step writes the id's row into the table. */
  predicate Writes(m: Mem, s: Step, id: Id) { s.Commit? && s.flush in m.flights && id in m.flights[s.flush].rows }

  /** The table has a row of an id exactly when it had one at the start or some commit
      wrote one: rows are never lost. */
  lemma {:induction false} InTableExactly(run: seq<Mem>, steps: seq<Step>, id: Id, i: nat)
    requires IsRun(run, steps) && i <= |steps|
    ensures id in run[i].table <==> id in run[0].table || exists k :: 0 <= k < i && Writes(run[k], steps[k], id)
  {
    if i > 0 {
      InTableExactly(run, steps, id, i - 1);
      assert Enabled(run[i - 1], steps[i - 1]) && run[i] == Next(run[i - 1], steps[i - 1]);
    }
  }

  /** And it is the row of the last commit that wrote one, or that of the start. */
  lemma {:induction false} RowInTable(run: seq<Mem>, steps: seq<Step>, id: Id, k: nat, i: nat)
    requires IsRun(run, steps) && k <= i <= |steps| && id in run[k].table
    requires forall l :: k <= l < i ==> !Writes(run[l], steps[l], id)
    ensures id in run[i].table && run[i].table[id] == run[k].table[id]
    decreases i
  {
    if k < i {
      RowInTable(run, steps, id, k, i - 1);
      assert Enabled(run[i - 1], steps[i - 1]) && run[i] == Next(run[i - 1], steps[i - 1]);
    }
  }

  lemma CommitWrites(run: seq<Mem>, steps: seq<Step>, id: Id, k: nat)
    requires IsRun(run, steps) && k < |steps| && Writes(run[k], steps[k], id)
    ensures id in run[k + 1].table && run[k + 1].table[id] == run[k].flights[steps[k].flush].rows[id]
  {
    assert Enabled(run[k], steps[k]) && run[k + 1] == Next(run[k], steps[k]);
  }

  /** The cache and the table behind it, changed in place. */
  class Store {
    var userStates: map<Id, Saved>
    var dirtyStates: set<Id>
    var table: map<Id, Saved>
    var flights: map<nat, Flight>

    ghost function State(): Mem
      reads this
    {
      Mem(userStates, dirtyStates, table, flights)
    }

    constructor (rows: map<Id, Saved>)
      ensures State() == Empty(rows)
    {
      userStates, dirtyStates, table, flights := map[], {}, rows, map[];
    }

    method ChangeState(id: Id, row: Saved)
      modifies this
      ensures State() == Next(old(State()), Change(id, row))
    {
      userStates := userStates[id := row];
      MarkDirty(id);
    }

    method MarkDirty(id: Id)
      modifies this
      ensures State() == Next(old(State()), Mark(id))
    {
      dirtyStates := dirtyStates + {id};
    }

    method EvictEntries(stale: set<Id>)
      modifies this
      ensures State() == Next(old(State()), Drop(stale))
    {
      var left := stale * userStates.Keys;
      while left != {}
        invariant left <= stale * old(userStates).Keys
        invariant userStates == old(userStates) - (stale * old(userStates).Keys - left)
        invariant dirtyStates == old(dirtyStates) - (stale * old(userStates).Keys - left)
        invariant table == old(table) && flights == old(flights)
        decreases left
      {
        var id :| id in left;
        userStates := userStates - {id};
        dirtyStates := dirtyStates - {id};
        left := left - {id};
      }
      assert userStates == old(userStates) - stale;
    }

    /** `flush` names the new flush among those running. */
    method SnapshotDirty(flush: nat)
      requires flush !in flights
      modifies this
      ensures State() == Next(old(State()), Begin(flush))
    {
      if dirtyStates == {} {
        assert DirtyRows(userStates, dirtyStates).Keys == {};
        return;
      }
      var rows := DirtyRows(userStates, dirtyStates);
      if rows == map[] {
        return;
      }
      flights := flights[flush := Flight(dirtyStates, rows, false)];
    }

    method CommitRows(flush: nat)
      requires flush in flights && !flights[flush].committed
      modifies this
      ensures State() == Next(old(State()), Commit(flush))
    {
      table := table + flights[flush].rows;
      flights := flights[flush := flights[flush].(committed := true)];
    }

    method ClearMarks(flush: nat)
      requires flush in flights && flights[flush].committed
      modifies this
      ensures State() == Next(old(State()), Finish(flush))
    {
      dirtyStates := dirtyStates - flights[flush].ids;
      flights := flights - {flush};
    }

    method AbandonFlush(flush: nat)
      requires flush in flights
      modifies this
      ensures State() == Next(old(State()), Fail(flush))
    {
      flights := flights - {flush};
    }

    method RestoreStates(recent: set<Id>)
      modifies this
      ensures State() == Next(old(State()), Restore(recent))
    {
      var found := recent * table.Keys;
      userStates := userStates + (map id | id in found :: table[id]);
      dirtyStates := dirtyStates - found;
    }
  }
}
