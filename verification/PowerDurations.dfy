/**
 Durations of power states: the user_power_tracking row of one user, the mirror
 writes of pending states into it, and the update that records each change.

 The pending time a ping noted may or may not reach the row, so the update takes
 either that time or its own clock as the change instant.
 */
module PowerDurations {
  import opened Wrappers

  datatype Tracking = Tracking(changedAt: Option<int>, pendingAt: Option<int>)

  datatype Record = Record(changed: int, duration: Option<int>)

  /** `noted` is the pending time a ping holds in memory; `awaiting` says that a
      confirmed change has not been recorded yet. */
  datatype State = State(now: int, row: Tracking, noted: Option<int>, awaiting: bool, history: seq<Record>)

  datatype Action = Seed | Note | Mirror | Withdraw(mirrored: bool) | Confirm | Update

  datatype Step = Step(at: int, action: Action)

  predicate Enabled(s: State, step: Step) {
    && s.now <= step.at
    && match step.action
       case Seed => s.row.changedAt.None? && s.noted.None?
       case Note => s.noted.None?
       case Mirror => s.noted.Some?
       case Withdraw(_) => s.noted.Some?
       case Confirm => s.noted.Some?
       case Update => s.awaiting
  }

  /** The single statement that moves the row to the new state. */
  function Recorded(row: Tracking, now: int): (Tracking, Record) {
    var changed := if row.pendingAt.Some? then row.pendingAt.value else now;
    var duration := if row.changedAt.Some? then Some(changed - row.changedAt.value) else None;
    (Tracking(Some(changed), None), Record(changed, duration))
  }

  function Next(s: State, step: Step): State {
    var s' := s.(now := step.at);
    match step.action
    case Seed => s'.(row := s.row.(changedAt := Some(step.at)))
    case Note => s'.(noted := Some(step.at))
    case Mirror => s'.(row := s.row.(pendingAt := s.noted))
    case Withdraw(mirrored) => s'.(noted := None, row := if mirrored then s.row.(pendingAt := None) else s.row)
    case Confirm => s'.(noted := None, awaiting := true)
    case Update =>
      var (row, record) := Recorded(s.row, step.at);
      s'.(row := row, awaiting := false, history := s.history + [record])
  }

  ghost predicate IsRun(run: seq<State>, steps: seq<Step>) {
    && |run| == |steps| + 1
    && forall i :: 0 <= i < |steps| ==> Enabled(run[i], steps[i]) && run[i + 1] == Next(run[i], steps[i])
  }

  /** No ping notes a new pending state while a confirmed change awaits its record,
      and a row is seeded before it is given a pending time. */
  predicate Orderly(s: State, step: Step) {
    && (step.action.Note? ==> !s.awaiting)
    && (step.action.Seed? ==> s.row.pendingAt.None?)
  }

  function Sum(history: seq<Record>): int {
    if history == [] then 0
    else Sum(history[..|history| - 1]) +
         (if history[|history| - 1].duration.Some? then history[|history| - 1].duration.value else 0)
  }

  predicate Start(s: State) {
    && s.history == [] && s.noted.None? && !s.awaiting
    && (s.row.changedAt.Some? ==> s.row.changedAt.value <= s.now)
    && (s.row.changedAt.Some? && s.row.pendingAt.Some? ==> s.row.changedAt.value <= s.row.pendingAt.value)
    && (s.row.pendingAt.Some? ==> s.row.pendingAt.value <= s.now)
  }

  ghost predicate Tiled(h: seq<Record>) {
    && (forall i :: 0 <= i < |h| && h[i].duration.Some? ==> h[i].duration.value >= 0)
    && (forall i :: 0 < i < |h| ==> h[i].duration == Some(h[i].changed - h[i - 1].changed))
  }

  ghost predicate Inv(s: State) {
    && Tiled(s.history)
    && (s.history != [] ==> s.row.changedAt == Some(s.history[|s.history| - 1].changed))
    && (s.row.changedAt.Some? ==> s.row.changedAt.value <= s.now)
    && (s.row.pendingAt.Some? ==> s.row.pendingAt.value <= s.now)
    && (s.row.changedAt.Some? && s.row.pendingAt.Some? ==> s.row.changedAt.value <= s.row.pendingAt.value)
    && (s.noted.Some? ==> !s.awaiting && s.noted.value <= s.now
                          && (s.row.changedAt.Some? ==> s.row.changedAt.value <= s.noted.value))
  }

  lemma TiledAppend(h: seq<Record>, r: Record)
    requires Tiled(h) && (r.duration.Some? ==> r.duration.value >= 0)
    requires h != [] ==> r.duration == Some(r.changed - h[|h| - 1].changed)
    ensures Tiled(h + [r])
  {
  }

  lemma StepKeepsInv(s: State, step: Step)
    requires Inv(s) && Enabled(s, step) && Orderly(s, step)
    ensures Inv(Next(s, step))
  {
    hide Tiled;
    if step.action.Update? {
      TiledAppend(s.history, Recorded(s.row, step.at).1);
    }
  }

  lemma {:induction false} RunKeepsInv(run: seq<State>, steps: seq<Step>, i: nat)
    requires IsRun(run, steps) && Start(run[0])
    requires forall k :: 0 <= k < |steps| ==> Orderly(run[k], steps[k])
    requires i < |run|
    ensures Inv(run[i])
  {
    if i > 0 {
      RunKeepsInv(run, steps, i - 1);
      StepKeepsInv(run[i - 1], steps[i - 1]);
    }
  }

  lemma {:induction false} SumTelescopes(h: seq<Record>, i: nat, j: nat)
    requires Tiled(h) && i <= j < |h|
    ensures Sum(h[i + 1..j + 1]) == h[j].changed - h[i].changed
  {
    if i < j {
      SumTelescopes(h, i, j - 1);
      assert h[i + 1..j + 1][..j - i - 1] == h[i + 1..j];
    }
  }

  /** Main result: when each change is recorded before the next ping notes a
      pending state, no recorded duration is negative, and the durations between
      any two changes add up to the time between them, whichever of the mirrored
      pending time and the clock each change was given. */
  lemma DurationsTile(run: seq<State>, steps: seq<Step>, i: nat, j: nat)
    requires IsRun(run, steps) && Start(run[0])
    requires forall k :: 0 <= k < |steps| ==> Orderly(run[k], steps[k])
    requires i <= j < |run[|steps|].history|
    ensures var h := run[|steps|].history;
      && (forall k :: 0 <= k < |h| && h[k].duration.Some? ==> h[k].duration.value >= 0)
      && Sum(h[i + 1..j + 1]) == h[j].changed - h[i].changed
  {
    RunKeepsInv(run, steps, |steps|);
    SumTelescopes(run[|steps|].history, i, j);
  }

  /** Whatever the order of steps, the row never looks into the future. */
  lemma {:induction false} RowIsPast(run: seq<State>, steps: seq<Step>, i: nat)
    requires IsRun(run, steps) && Start(run[0])
    requires i < |run|
    ensures run[i].row.changedAt.Some? ==> run[i].row.changedAt.value <= run[i].now
    ensures run[i].row.pendingAt.Some? ==> run[i].row.pendingAt.value <= run[i].now
    ensures run[i].noted.Some? ==> run[i].noted.value <= run[i].now
  {
    if i > 0 {
      RowIsPast(run, steps, i - 1);
    }
  }

  /** At this update the row holds a pending time older than its last change. */
  predicate Backdated(s: State, step: Step) {
    step.action.Update? && RowBackdated(s.row)
  }

  /** The row gets a pending time older than its last change: a mirror writes a time
      noted before the change, or a first check stamps a row that has a pending time. */
  predicate Backdates(s: State, step: Step) {
    || (step.action.Mirror? && s.noted.Some? && s.row.changedAt.Some? && s.noted.value < s.row.changedAt.value)
    || (step.action.Seed? && s.row.pendingAt.Some? && s.row.pendingAt.value < step.at)
  }

  /** Steps that overwrite one of the row's times. */
  predicate Writes(step: Step) {
    step.action.Mirror? || step.action.Seed? || step.action.Update? || step.action == Withdraw(true)
  }

  predicate RowBackdated(row: Tracking) {
    row.changedAt.Some? && row.pendingAt.Some? && row.pendingAt.value < row.changedAt.value
  }

  /** Step m backdates the row and nothing writes it up to step i. */
  ghost predicate BackdatedSince(run: seq<State>, steps: seq<Step>, m: nat, i: nat)
    requires m < i <= |steps| < |run|
  {
    Backdates(run[m], steps[m]) && forall l :: m < l < i ==> !Writes(steps[l])
  }

  lemma {:induction false} RowBackdatedExactly(run: seq<State>, steps: seq<Step>, i: nat)
    requires IsRun(run, steps) && Start(run[0]) && i <= |steps|
    ensures RowBackdated(run[i].row) <==> exists m :: 0 <= m < i && BackdatedSince(run, steps, m, i)
  {
    if i > 0 {
      var n := i - 1;
      RowBackdatedExactly(run, steps, n);
      var s, step := run[n], steps[n];
      assert Enabled(s, step) && run[i] == Next(s, step);
      assert BackdatedSince(run, steps, n, i) <==> Backdates(s, step);
      if Writes(step) {
        assert RowBackdated(run[i].row) <==> Backdates(s, step);
        forall m | 0 <= m < i && BackdatedSince(run, steps, m, i) ensures m == n {}
      } else {
        assert run[i].row == s.row && !Backdates(s, step);
        if m :| 0 <= m < n && BackdatedSince(run, steps, m, n) {
          assert BackdatedSince(run, steps, m, i);
        }
        if m :| 0 <= m < i && BackdatedSince(run, steps, m, i) {
          assert m < n;
          assert BackdatedSince(run, steps, m, n);
        }
      }
    }
  }

  predicate NoneNegative(h: seq<Record>) {
    forall k :: 0 <= k < |h| && h[k].duration.Some? ==> h[k].duration.value >= 0
  }

  lemma NoneNegativeAppend(h: seq<Record>, r: Record)
    ensures NoneNegative(h + [r]) <==> NoneNegative(h) && (r.duration.Some? ==> r.duration.value >= 0)
  {
    var l := h + [r];
    assert l[|h|] == r;
    assert forall k :: 0 <= k < |h| ==> l[k] == h[k];
  }

  lemma NegativeStep(s: State, step: Step)
    requires Enabled(s, step) && (s.row.changedAt.Some? ==> s.row.changedAt.value <= s.now)
    ensures NoneNegative(Next(s, step).history) <==> NoneNegative(s.history) && !Backdated(s, step)
  {
    hide NoneNegative;
    if step.action.Update? {
      NoneNegativeAppend(s.history, Recorded(s.row, step.at).1);
    }
  }

  lemma {:induction false} NegativeAtUpdate(run: seq<State>, steps: seq<Step>, i: nat)
    requires IsRun(run, steps) && Start(run[0])
    requires i < |run|
    ensures NoneNegative(run[i].history) <==> forall k :: 0 <= k < i ==> !Backdated(run[k], steps[k])
  {
    hide Next, Enabled, Backdated;
    if i > 0 {
      NegativeAtUpdate(run, steps, i - 1);
      RowIsPast(run, steps, i - 1);
      NegativeStep(run[i - 1], steps[i - 1]);
    }
  }

  /** Exactly when a run records a negative duration: when the row is given a pending
      time older than its last change, and the next step that writes the row is the
      update. */
  lemma NegativeExactly(run: seq<State>, steps: seq<Step>, i: nat)
    requires IsRun(run, steps) && Start(run[0])
    requires i < |run|
    ensures NoneNegative(run[i].history) <==>
      !exists m, k :: 0 <= m < k < i && steps[k].action.Update? && BackdatedSince(run, steps, m, k)
  {
    NegativeAtUpdate(run, steps, i);
    forall k | 0 <= k < i
      ensures Backdated(run[k], steps[k]) <==>
        steps[k].action.Update? && exists m :: 0 <= m < k && BackdatedSince(run, steps, m, k)
    {
      RowBackdatedExactly(run, steps, k);
    }
  }

  function LateSteps(): seq<Step> {
    [Step(1, Note), Step(9, Confirm), Step(10, Note), Step(12, Update),
     Step(13, Mirror), Step(20, Confirm), Step(21, Update)]
  }

  function LateRun(): seq<State> {
    var zero, first := Tracking(Some(0), None), Record(12, Some(12));
    var late := Tracking(Some(12), Some(10));
    [State(0, zero, None, false, []),
     State(1, zero, Some(1), false, []),
     State(9, zero, None, true, []),
     State(10, zero, Some(10), true, []),
     State(12, Tracking(Some(12), None), Some(10), false, [first]),
     State(13, late, Some(10), false, [first]),
     State(20, late, None, true, [first]),
     State(21, Tracking(Some(10), None), None, false, [first, Record(10, Some(-2))])]
  }

  predicate Follows(run: seq<State>, steps: seq<Step>, k: nat)
    requires k < |steps| < |run|
  {
    Enabled(run[k], steps[k]) && run[k + 1] == Next(run[k], steps[k])
  }

  lemma LateRunBegins()
    ensures forall k :: 0 <= k < 4 ==> Follows(LateRun(), LateSteps(), k)
  {
  }

  lemma LateRunEnds()
    ensures forall k :: 4 <= k < 7 ==> Follows(LateRun(), LateSteps(), k)
  {
  }

  /** Recording each change before the next mirror write is not enough: here the
      second pending state is noted at 10, the first change is recorded at 12, and
      only then is the 10 written, so the second change lasts minus two. */
  lemma LateRecordGoesNegative()
    ensures IsRun(LateRun(), LateSteps()) && Start(LateRun()[0])
    ensures LateRun()[7].history == [Record(12, Some(12)), Record(10, Some(-2))]
  {
    hide Next, Enabled;
    LateRunBegins();
    LateRunEnds();
    forall k | 0 <= k < 7
      ensures Enabled(LateRun()[k], LateSteps()[k]) && LateRun()[k + 1] == Next(LateRun()[k], LateSteps()[k])
    {
      assert Follows(LateRun(), LateSteps(), k);
    }
  }

  // ------------------------------------------------- where the instants come from

  predicate TakesPending(step: Step) { step.action.Update? || step.action == Withdraw(true) }

  /** Step m mirrored a pending time and nothing has replaced or taken it since. */
  ghost predicate MirroredBy(steps: seq<Step>, m: nat, i: nat)
    requires m < i <= |steps|
  {
    steps[m].action.Mirror? && forall l :: m < l < i ==> !steps[l].action.Mirror? && !TakesPending(steps[l])
  }

  /** Step m noted a pending time and it has been neither withdrawn nor confirmed since. */
  ghost predicate NotedBy(steps: seq<Step>, m: nat, i: nat)
    requires m < i <= |steps|
  {
    steps[m].action.Note? && forall l :: m < l < i ==> !steps[l].action.Withdraw? && !steps[l].action.Confirm?
  }

  /** The pending time in memory is that of the ping that noted it. */
  lemma {:induction false} NotedExactly(run: seq<State>, steps: seq<Step>, i: nat)
    requires IsRun(run, steps) && run[0].noted.None? && i <= |steps|
    ensures run[i].noted.Some? <==> exists m :: 0 <= m < i && NotedBy(steps, m, i)
    ensures forall m :: 0 <= m < i && NotedBy(steps, m, i) ==> run[i].noted == Some(steps[m].at)
  {
    if i > 0 {
      var n := i - 1;
      NotedExactly(run, steps, n);
      assert Enabled(run[n], steps[n]) && run[i] == Next(run[n], steps[n]);
      assert NotedBy(steps, n, i) <==> steps[n].action.Note?;
      forall m: nat | m < n
        ensures NotedBy(steps, m, i) <==>
          NotedBy(steps, m, n) && !steps[n].action.Withdraw? && !steps[n].action.Confirm?
      {
      }
      if m :| 0 <= m < n && NotedBy(steps, m, n) { assert NotedBy(steps, m, i) || !NotedBy(steps, m, i); }
      if m :| 0 <= m < i && NotedBy(steps, m, i) { assert m < n ==> NotedBy(steps, m, n); }
    }
  }

  lemma PendingStep(s: State, step: Step)
    requires Enabled(s, step)
    ensures step.action.Mirror? ==> s.noted.Some?
    ensures Next(s, step).row.pendingAt ==
      if step.action.Mirror? then s.noted else if TakesPending(step) then None else s.row.pendingAt
  {
  }

  /** The pending time in the row is that of the last mirror write, as long as neither an
      update nor a withdrawal has taken it. */
  lemma {:induction false} PendingExactly(run: seq<State>, steps: seq<Step>, i: nat)
    requires IsRun(run, steps) && i <= |steps|
    ensures forall m :: 0 <= m < i && MirroredBy(steps, m, i) ==>
      run[m].noted.Some? && run[i].row.pendingAt == run[m].noted
    ensures (forall m :: 0 <= m < i ==> !MirroredBy(steps, m, i)) ==>
      run[i].row.pendingAt == if forall l :: 0 <= l < i ==> !TakesPending(steps[l]) then run[0].row.pendingAt else None
  {
    hide Next, Enabled;
    if i > 0 {
      var n := i - 1;
      PendingExactly(run, steps, n);
      assert Enabled(run[n], steps[n]) && run[i] == Next(run[n], steps[n]);
      PendingStep(run[n], steps[n]);
      assert MirroredBy(steps, n, i) <==> steps[n].action.Mirror?;
      forall m: nat | m < n
        ensures MirroredBy(steps, m, i) <==>
          MirroredBy(steps, m, n) && !steps[n].action.Mirror? && !TakesPending(steps[n])
      {
      }
      if m :| 0 <= m < n && MirroredBy(steps, m, n) { assert MirroredBy(steps, m, i) || !MirroredBy(steps, m, i); }
    }
  }

  /** Each update adds one record: the change at the mirrored pending time or else the
      clock, and its duration since the change before, or since the row's first stamp. */
  lemma UpdateRecords(run: seq<State>, steps: seq<Step>, k: nat)
    requires IsRun(run, steps) && Start(run[0]) && k < |steps| && steps[k].action.Update?
    requires forall l :: 0 <= l < |steps| ==> Orderly(run[l], steps[l])
    ensures |run[k + 1].history| == |run[k].history| + 1 && run[k + 1].history[..|run[k].history|] == run[k].history
    ensures var h, r := run[k].history, run[k + 1].history[|run[k].history|];
      && (forall m :: 0 <= m < k && MirroredBy(steps, m, k) ==> run[m].noted == Some(r.changed))
      && ((forall m :: 0 <= m < k ==> !MirroredBy(steps, m, k)) && run[0].row.pendingAt.None? ==>
        r.changed == steps[k].at)
      && (h != [] ==> r.duration == Some(r.changed - h[|h| - 1].changed))
      && (h == [] && run[k].row.changedAt.None? ==> r.duration.None?)
      && (h == [] && run[k].row.changedAt.Some? ==> r.duration == Some(r.changed - run[k].row.changedAt.value))
  {
    RunKeepsInv(run, steps, k);
    PendingExactly(run, steps, k);
    assert Enabled(run[k], steps[k]) && run[k + 1] == Next(run[k], steps[k]);
  }

  /** Until the first record, the row's stamp is that of the start or of a first check. */
  lemma {:induction false} FirstStamp(run: seq<State>, steps: seq<Step>, i: nat)
    requires IsRun(run, steps) && run[0].history == [] && i <= |steps| && run[i].history == []
    ensures run[i].row.changedAt.Some? <==>
      run[0].row.changedAt.Some? || exists m :: 0 <= m < i && steps[m].action.Seed?
    ensures run[0].row.changedAt.Some? ==> run[i].row.changedAt == run[0].row.changedAt
    ensures run[0].row.changedAt.None? ==>
      forall m :: 0 <= m < i && steps[m].action.Seed? ==> run[i].row.changedAt == Some(steps[m].at)
  {
    if i > 0 {
      assert Enabled(run[i - 1], steps[i - 1]) && run[i] == Next(run[i - 1], steps[i - 1]);
      FirstStamp(run, steps, i - 1);
    }
  }

  /** The row itself, overwritten in place. */
  class TrackingRow {
    var changedAt: Option<int>
    var pendingAt: Option<int>

    ghost function Value(): Tracking
      reads this
    {
      Tracking(changedAt, pendingAt)
    }

    method ChangePowerState(now: int) returns (record: Record)
      modifies this
      ensures (Value(), record) == Recorded(old(Value()), now)
    {
      var changed := now;
      if pendingAt.Some? {
        changed := pendingAt.value;
      }
      record := Record(changed, None);
      if changedAt.Some? {
        record := Record(changed, Some(changed - changedAt.value));
      }
      changedAt, pendingAt := Some(changed), None;
    }
  }
}
