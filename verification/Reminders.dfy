/**
 Reminders before an outage starts or ends: sent by the checker that runs every
 minute and by the catch-up after the quiet hours, kept apart by the table of
 reminders already sent, which is purged of old rows once a day.

 Times are whole microseconds. A pass reads the next event, looks up which of its
 reminders are recorded, sends the others one by one and records the successful
 ones at the end; the steps of the two runners and of the purge interleave.
 */
module Reminders {
  import Outages
  import opened Wrappers

  const MINUTE: int := 60_000_000
  const TTL: int := 48 * 60 * MINUTE

  const REMIND_MINUTES: seq<int> := [60, 30, 15]

  /** No reminder is sent this long before its event. */
  const HORIZON: int := 62 * MINUTE

  /** How long the table keeps a row, counted from its event. */
  const MARGIN: int := TTL - HORIZON

  datatype Runner = Regular | CatchUp

  datatype Key = Key(user: int, anchor: int, minutes: int)

  function MinutesUntil(anchor: int, now: int): int { (anchor - now) / MINUTE }

  /** The event found for any labels of the two days lies ahead of the clock that was
      read, and the minutes it comes with are those used below. */
  lemma NextEventIsAhead(today: seq<Outages.Label>, tomorrow: seq<Outages.Label>, now: int)
    ensures match Outages.FindNext(Outages.ParseSchedule(today, tomorrow), 0, now)
      case Some(e) => now < Outages.Time(e.time) && e.minutes == MinutesUntil(Outages.Time(e.time), now)
      case None => true
  {
    hide Outages.FindNext, Outages.ParseSchedule, Outages.TwoDays, Outages.WholeEvent;
    Outages.NextEventAgrees(today, tomorrow, now);
    var next := Outages.FindNext(Outages.ParseSchedule(today, tomorrow), 0, now);
    if next.Some? {
      Outages.SlotOfTime(next.value.time, now);
    }
  }

  predicate Due(r: Runner, minutesUntil: int, m: int) {
    match r
    case Regular => m - 1 <= minutesUntil <= m + 1
    case CatchUp => 0 < minutesUntil <= 61 && minutesUntil <= m + 1
  }

  /** Between the look at the schedule and the mark, `left` is still to be sent and
      `sent` went out without being recorded yet. */
  datatype Phase =
    | Idle
    | Looked(anchor: int, lookAt: int)
    | Sending(anchor: int, lookAt: int, left: set<Key>, sent: set<Key>)

  /** `rows` maps a recorded reminder to the time it was recorded. */
  datatype State = State(rows: map<Key, int>, regular: Phase, catchUp: Phase, log: seq<Key>, clock: int)

  datatype Action =
    | Look(anchor: int)
    | Check(candidates: set<Key>)
    | Send(key: Key, delivered: bool)
    | Mark
    | Abandon
    | Purge(cutoff: int)

  datatype Step = Step(at: int, runner: Runner, action: Action)

  function PhaseOf(s: State, r: Runner): Phase { if r.Regular? then s.regular else s.catchUp }

  function WithPhase(s: State, r: Runner, p: Phase): State {
    if r.Regular? then s.(regular := p) else s.(catchUp := p)
  }

  function Other(r: Runner): Runner { if r.Regular? then CatchUp else Regular }

  /** Insert, leaving rows that are there alone. */
  function Marked(rows: map<Key, int>, keys: set<Key>, at: int): map<Key, int> {
    map k | k in rows.Keys + keys :: if k in rows then rows[k] else at
  }

  function Purged(rows: map<Key, int>, cutoff: int): map<Key, int> {
    map k | k in rows && !(rows[k] < cutoff) :: rows[k]
  }

  predicate CanStep(s: State, st: Step) {
    var p := PhaseOf(s, st.runner);
    && s.clock <= st.at
    && match st.action
       case Look(anchor) => !p.Sending? && st.at < anchor
       case Check(candidates) =>
         && p.Looked?
         && (forall k <- candidates :: k.anchor == p.anchor && k.minutes in REMIND_MINUTES)
         && (forall k <- candidates :: Due(st.runner, MinutesUntil(p.anchor, p.lookAt), k.minutes))
       case Send(key, _) => p.Sending? && key in p.left
       case Mark => p.Sending? && p.left == {}
       case Abandon => p.Sending?
       case Purge(cutoff) => cutoff <= st.at - TTL
  }

  function Apply(s: State, st: Step): State
    requires CanStep(s, st)
  {
    var p := PhaseOf(s, st.runner);
    match st.action
    case Look(anchor) => WithPhase(s, st.runner, Looked(anchor, st.at)).(clock := st.at)
    case Check(candidates) =>
      WithPhase(s, st.runner, Sending(p.anchor, p.lookAt, candidates - s.rows.Keys, {})).(clock := st.at)
    case Send(key, delivered) =>
      if delivered then
        var p' := p.(left := p.left - {key}, sent := p.sent + {key});
        WithPhase(s, st.runner, p').(log := s.log + [key], clock := st.at)
      else WithPhase(s, st.runner, p.(left := p.left - {key})).(clock := st.at)
    case Mark =>
      WithPhase(s, st.runner, Looked(p.anchor, p.lookAt)).(rows := Marked(s.rows, p.sent, st.at), clock := st.at)
    case Abandon => WithPhase(s, st.runner, Idle).(clock := st.at)
    case Purge(cutoff) => s.(rows := Purged(s.rows, cutoff), clock := st.at)
  }

  /** No pass takes days from its look at the schedule to its last send, and none
      fails between a send and the mark. */
  predicate Timely(s: State, st: Step)
    requires CanStep(s, st)
  {
    var p := PhaseOf(s, st.runner);
    && (st.action.Check? || st.action.Send? ==> st.at <= p.lookAt + MARGIN)
    && (st.action.Abandon? ==> p.sent == {})
  }

  /** Besides, no lookup while the other runner is between its lookup and its mark. */
  predicate Orderly(s: State, st: Step)
    requires CanStep(s, st)
  {
    Timely(s, st) && (st.action.Check? ==> !PhaseOf(s, Other(st.runner)).Sending?)
  }

  /** A delivered send of what is recorded, or of what the other runner has sent and
      not marked yet. */
  predicate Repeats(s: State, st: Step) {
    && st.action.Send? && st.action.delivered
    && (st.action.key in s.rows || st.action.key in Unmarked(PhaseOf(s, Other(st.runner))))
  }

  function Unmarked(p: Phase): set<Key> { if p.Sending? then p.sent else {} }

  ghost predicate CanRun(s: State, steps: seq<Step>)
    decreases |steps|
  {
    steps == [] || (CanStep(s, steps[0]) && CanRun(Apply(s, steps[0]), steps[1..]))
  }

  ghost function After(s: State, steps: seq<Step>): State
    requires CanRun(s, steps)
    decreases |steps|
  {
    if steps == [] then s else After(Apply(s, steps[0]), steps[1..])
  }

  ghost predicate OrderlyRun(s: State, steps: seq<Step>)
    requires CanRun(s, steps)
    decreases |steps|
  {
    steps == [] || (Orderly(s, steps[0]) && OrderlyRun(Apply(s, steps[0]), steps[1..]))
  }

  ghost predicate TimelyRun(s: State, steps: seq<Step>)
    requires CanRun(s, steps)
    decreases |steps|
  {
    steps == [] || (Timely(s, steps[0]) && TimelyRun(Apply(s, steps[0]), steps[1..]))
  }

  ghost predicate NoRepeat(s: State, steps: seq<Step>)
    requires CanRun(s, steps)
    decreases |steps|
  {
    steps == [] || (!Repeats(s, steps[0]) && NoRepeat(Apply(s, steps[0]), steps[1..]))
  }

  const INITIAL: State := State(map[], Idle, Idle, [], 0)

  // ------------------------------------------------------------- invariant

  ghost predicate Distinct(log: seq<Key>) {
    forall i, j :: 0 <= i < j < |log| ==> log[i] != log[j]
  }

  function InFlight(s: State): set<Key> { Unmarked(s.regular) + Unmarked(s.catchUp) }

  /** A sent reminder is recorded, about to be, or its event is long past; and
      nothing else is recorded or about to be. */
  ghost predicate Remembered(s: State) {
    && (forall k <- s.log :: k in s.rows || k in InFlight(s) || k.anchor + MARGIN < s.clock)
    && (forall k <- s.rows.Keys + InFlight(s) :: k in s.log)
  }

  predicate Fresh(s: State) { forall k <- s.rows.Keys :: k.anchor < s.rows[k] + HORIZON }

  predicate PhaseOk(s: State, r: Runner) {
    match PhaseOf(s, r)
    case Idle => true
    case Looked(anchor, lookAt) => lookAt < anchor && lookAt <= s.clock
    case Sending(anchor, lookAt, left, sent) =>
      && lookAt < anchor && lookAt <= s.clock && left !! sent
      && (forall k <- left + sent :: k.anchor == anchor && k.minutes in REMIND_MINUTES)
      && (forall k <- left + sent :: Due(r, MinutesUntil(anchor, lookAt), k.minutes))
  }

  /** Kept by every timely step, overlapping or not. */
  ghost predicate Inv(s: State) {
    Remembered(s) && Fresh(s) && PhaseOk(s, Regular) && PhaseOk(s, CatchUp)
  }

  lemma DueSoon(r: Runner, anchor: int, lookAt: int, m: int)
    requires m in REMIND_MINUTES && Due(r, MinutesUntil(anchor, lookAt), m)
    ensures anchor < lookAt + HORIZON
  {
  }

  lemma SendKeepsMemory(s: State, st: Step)
    requires Inv(s) && CanStep(s, st) && st.action.Send?
    ensures Remembered(Apply(s, st))
  {
    hide Due, Fresh, PhaseOk;
    var s' := Apply(s, st);
    assert InFlight(s') == InFlight(s) + if st.action.delivered then {st.action.key} else {};
    assert forall k <- s'.log :: k in s.log || (st.action.delivered && k == st.action.key);
  }

  lemma SendKeepsInv(s: State, st: Step)
    requires Inv(s) && CanStep(s, st) && st.action.Send?
    ensures Inv(Apply(s, st))
  {
    hide Remembered, Due;
    SendKeepsMemory(s, st);
  }

  lemma MarkKeepsInv(s: State, st: Step)
    requires Inv(s) && CanStep(s, st) && st.action.Mark?
    ensures Inv(Apply(s, st))
  {
    var p := PhaseOf(s, st.runner);
    forall k <- p.sent ensures k.anchor < st.at + HORIZON {
      assert k in p.left + p.sent;
      DueSoon(st.runner, k.anchor, p.lookAt, k.minutes);
    }
    assert InFlight(s) == InFlight(Apply(s, st)) + p.sent;
  }

  lemma PurgeKeepsInv(s: State, st: Step)
    requires Inv(s) && CanStep(s, st) && st.action.Purge?
    ensures Inv(Apply(s, st))
  {
    assert InFlight(Apply(s, st)) == InFlight(s);
  }

  lemma OthersKeepInv(s: State, st: Step)
    requires Inv(s) && CanStep(s, st) && Timely(s, st) && (st.action.Look? || st.action.Check? || st.action.Abandon?)
    ensures Inv(Apply(s, st))
  {
    assert InFlight(Apply(s, st)) == InFlight(s);
  }

  lemma StepKeepsInv(s: State, st: Step)
    requires Inv(s) && CanStep(s, st) && Timely(s, st)
    ensures Inv(Apply(s, st))
  {
    hide Inv, CanStep, Apply, Timely;
    match st.action
    case Send(_, _) => SendKeepsInv(s, st);
    case Mark => MarkKeepsInv(s, st);
    case Purge(_) => PurgeKeepsInv(s, st);
    case Look(_) => OthersKeepInv(s, st);
    case Check(_) => OthersKeepInv(s, st);
    case Abandon => OthersKeepInv(s, st);
  }

  lemma {:induction false} RunKeepsInv(s: State, steps: seq<Step>)
    requires Inv(s) && CanRun(s, steps) && TimelyRun(s, steps)
    ensures Inv(After(s, steps))
    decreases |steps|
  {
    hide Inv, CanStep, Apply, Timely;
    if steps != [] {
      StepKeepsInv(s, steps[0]);
      RunKeepsInv(Apply(s, steps[0]), steps[1..]);
    }
  }

  /** What a pass finds unrecorded was sent before exactly when some runner has sent
      it and not marked it yet: no purge brings a reminder back. */
  lemma UnrecordedWasSentExactly(s: State, st: Step, k: Key)
    requires Inv(s) && CanStep(s, st) && Timely(s, st) && st.action.Check?
    requires k in st.action.candidates && k !in s.rows
    ensures k in s.log <==> k in InFlight(s)
  {
  }

  /** A send repeats an earlier one exactly when its key is recorded, or sent and not
      marked by the other runner: both can be looked up just before sending. */
  lemma SendRepeatsExactly(s: State, st: Step)
    requires Inv(s) && CanStep(s, st) && Timely(s, st) && st.action.Send?
    ensures st.action.key in s.log <==>
      st.action.key in s.rows || st.action.key in Unmarked(PhaseOf(s, Other(st.runner)))
  {
    var p, k := PhaseOf(s, st.runner), st.action.key;
    assert k in p.left + p.sent && k.anchor == p.anchor;
    assert InFlight(s) == p.sent + Unmarked(PhaseOf(s, Other(st.runner)));
  }

  lemma StaysDistinctExactly(s: State, st: Step)
    requires Inv(s) && CanStep(s, st) && Timely(s, st)
    ensures Distinct(Apply(s, st).log) <==> Distinct(s.log) && !Repeats(s, st)
  {
    if st.action.Send? && st.action.delivered {
      SendRepeatsExactly(s, st);
      DistinctAppend(s.log, st.action.key);
    }
  }

  lemma DistinctAppend(log: seq<Key>, k: Key)
    ensures Distinct(log + [k]) <==> Distinct(log) && k !in log
  {
    var l := log + [k];
    if Distinct(l) {
      assert forall i, j :: 0 <= i < j < |log| ==> log[i] == l[i] && log[j] == l[j];
      assert forall i :: 0 <= i < |log| ==> log[i] == l[i] != l[|log|];
    }
  }

  lemma {:induction false} DistinctExactly(s: State, steps: seq<Step>)
    requires Inv(s) && CanRun(s, steps) && TimelyRun(s, steps)
    ensures Distinct(After(s, steps).log) <==> Distinct(s.log) && NoRepeat(s, steps)
    decreases |steps|
  {
    hide Inv, CanStep, Apply, Timely, Repeats, Distinct;
    if steps != [] {
      StepKeepsInv(s, steps[0]);
      StaysDistinctExactly(s, steps[0]);
      DistinctExactly(Apply(s, steps[0]), steps[1..]);
    }
  }

  /** Main result: over any mix of regular passes, catch-ups and purges, overlapping
      as they may, every reminder of every user for every event goes out at most once
      if and only if no delivered send finds its key recorded, or sent and not yet
      marked by the other runner. */
  lemma SentOnceExactly(steps: seq<Step>)
    requires CanRun(INITIAL, steps) && TimelyRun(INITIAL, steps)
    ensures Distinct(After(INITIAL, steps).log) <==> NoRepeat(INITIAL, steps)
  {
    DistinctExactly(INITIAL, steps);
  }

  /** With lookups that keep out of the other runner's way, at most one runner is
      sending, and what it has left is unsent. */
  ghost predicate Serial(s: State) {
    && !(s.regular.Sending? && s.catchUp.Sending?)
    && (s.regular.Sending? ==> forall k <- s.regular.left :: k !in s.log)
    && (s.catchUp.Sending? ==> forall k <- s.catchUp.left :: k !in s.log)
  }

  lemma OrderlyStepIsSerial(s: State, st: Step)
    requires Inv(s) && Serial(s) && CanStep(s, st) && Orderly(s, st)
    ensures Serial(Apply(s, st)) && !Repeats(s, st)
  {
    if st.action.Check? {
      forall k <- st.action.candidates - s.rows.Keys ensures k !in s.log {
        UnrecordedWasSentExactly(s, st, k);
      }
    } else if st.action.Send? {
      SendRepeatsExactly(s, st);
    }
  }

  lemma {:induction false} OrderlyIsTimely(s: State, steps: seq<Step>)
    requires CanRun(s, steps) && OrderlyRun(s, steps)
    ensures TimelyRun(s, steps)
    decreases |steps|
  {
    if steps != [] { OrderlyIsTimely(Apply(s, steps[0]), steps[1..]); }
  }

  lemma {:induction false} OrderlyNeverRepeats(s: State, steps: seq<Step>)
    requires Inv(s) && Serial(s) && CanRun(s, steps) && OrderlyRun(s, steps)
    ensures NoRepeat(s, steps)
    decreases |steps|
  {
    hide Inv, CanStep, Apply, Repeats, Serial, Timely;
    if steps != [] {
      OrderlyStepIsSerial(s, steps[0]);
      StepKeepsInv(s, steps[0]);
      OrderlyNeverRepeats(Apply(s, steps[0]), steps[1..]);
    }
  }

  /** Hence passes that do not overlap send each reminder at most once. */
  lemma SentAtMostOnce(steps: seq<Step>, i: nat, j: nat)
    requires CanRun(INITIAL, steps) && OrderlyRun(INITIAL, steps)
    requires i < j < |After(INITIAL, steps).log|
    ensures After(INITIAL, steps).log[i] != After(INITIAL, steps).log[j]
  {
    OrderlyIsTimely(INITIAL, steps);
    OrderlyNeverRepeats(INITIAL, steps);
    SentOnceExactly(steps);
  }

  /** A reminder that goes out is due by the clock its pass has read, and the
      event still lies ahead of that clock. */
  lemma SentInTime(steps: seq<Step>, st: Step)
    requires CanRun(INITIAL, steps) && TimelyRun(INITIAL, steps)
    requires CanStep(After(INITIAL, steps), st) && st.action.Send?
    ensures var lookAt := PhaseOf(After(INITIAL, steps), st.runner).lookAt; var k := st.action.key;
      && lookAt < k.anchor < lookAt + HORIZON
      && k.anchor - lookAt < (k.minutes + 2) * MINUTE
      && (st.runner.Regular? ==> (k.minutes - 1) * MINUTE <= k.anchor - lookAt)
  {
    RunKeepsInv(INITIAL, steps);
    var s := After(INITIAL, steps);
    var p := PhaseOf(s, st.runner);
    assert st.action.key in p.left + p.sent;
    DueSoon(st.runner, p.anchor, p.lookAt, st.action.key.minutes);
  }

  /** Both runners look up before either marks. */
  function Overlap(k: Key, t: int): seq<Step> {
    [Step(t, Regular, Look(k.anchor)), Step(t, CatchUp, Look(k.anchor)),
     Step(t, Regular, Check({k})), Step(t, CatchUp, Check({k})),
     Step(t, Regular, Send(k, true)), Step(t, CatchUp, Send(k, true))]
  }

  /** The table alone does not exclude it: overlapping passes send twice. */
  lemma OverlapSendsTwice(k: Key, t: int)
    requires 0 <= t < k.anchor && k.minutes in REMIND_MINUTES
    requires Due(Regular, MinutesUntil(k.anchor, t), k.minutes) && Due(CatchUp, MinutesUntil(k.anchor, t), k.minutes)
    ensures CanRun(INITIAL, Overlap(k, t)) && TimelyRun(INITIAL, Overlap(k, t))
    ensures After(INITIAL, Overlap(k, t)).log == [k, k]
  {
    hide CanRun, After, TimelyRun;
    var steps := Overlap(k, t);
    var s1 := Apply(INITIAL, steps[0]);
    var s2 := Apply(s1, steps[1]);
    var s3 := Apply(s2, steps[2]);
    var s4 := Apply(s3, steps[3]);
    var s5 := Apply(s4, steps[4]);
    var s6 := Apply(s5, steps[5]);
    assert s6.log == [k, k];
    assert steps[6..] == [];
    NothingLeft(s6);
    Unroll(s5, steps, 5);
    Unroll(s4, steps, 4);
    Unroll(s3, steps, 3);
    Unroll(s2, steps, 2);
    Unroll(s1, steps, 1);
    Unroll(INITIAL, steps, 0);
    assert steps[0..] == steps;
  }

  lemma NothingLeft(s: State)
    ensures CanRun(s, []) && After(s, []) == s && TimelyRun(s, [])
  {
  }

  lemma Unroll(s: State, steps: seq<Step>, i: nat)
    requires i < |steps| && CanStep(s, steps[i]) && CanRun(Apply(s, steps[i]), steps[i + 1..])
    requires Timely(s, steps[i]) && TimelyRun(Apply(s, steps[i]), steps[i + 1..])
    ensures CanRun(s, steps[i..]) && After(s, steps[i..]) == After(Apply(s, steps[i]), steps[i + 1..])
    ensures TimelyRun(s, steps[i..])
  {
    assert steps[i..][1..] == steps[i + 1..];
  }

  // ------------------------------------------------------- nothing is skipped

  /** Reminders that runner r attempts in these steps, and those it delivers. */
  function Attempted(steps: seq<Step>, r: Runner): set<Key> {
    set i | 0 <= i < |steps| && steps[i].runner == r && steps[i].action.Send? :: steps[i].action.key
  }

  function DeliveredIn(steps: seq<Step>, r: Runner): set<Key> {
    set i | 0 <= i < |steps| && steps[i].runner == r && steps[i].action.Send? && steps[i].action.delivered ::
      steps[i].action.key
  }

  /** None of these steps ends the batch that r is sending. */
  predicate SameBatch(steps: seq<Step>, r: Runner) {
    forall st <- steps :: st.runner == r ==> !st.action.Mark? && !st.action.Abandon?
  }

  lemma SetsOfSteps(steps: seq<Step>, r: Runner)
    requires steps != []
    ensures var st := steps[0];
      && Attempted(steps, r) == Attempted(steps[1..], r)
        + (if st.runner == r && st.action.Send? then {st.action.key} else {})
      && DeliveredIn(steps, r) == DeliveredIn(steps[1..], r)
        + (if st.runner == r && st.action.Send? && st.action.delivered then {st.action.key} else {})
  {
    assert forall i :: 0 < i < |steps| ==> steps[i] == steps[1..][i - 1];
    forall k | k in Attempted(steps[1..], r) ensures k in Attempted(steps, r) {
      var i :| 0 <= i < |steps[1..]| && steps[1..][i].runner == r && steps[1..][i].action.Send?
        && steps[1..][i].action.key == k;
      assert steps[i + 1] == steps[1..][i];
    }
    forall k | k in DeliveredIn(steps[1..], r) ensures k in DeliveredIn(steps, r) {
      var i :| 0 <= i < |steps[1..]| && steps[1..][i].runner == r && steps[1..][i].action.Send?
        && steps[1..][i].action.delivered && steps[1..][i].action.key == k;
      assert steps[i + 1] == steps[1..][i];
    }
  }

  lemma StepInBatch(s: State, st: Step, r: Runner)
    requires CanStep(s, st) && PhaseOf(s, r).Sending? && (st.runner == r ==> !st.action.Mark? && !st.action.Abandon?)
    ensures var p, p' := PhaseOf(s, r), PhaseOf(Apply(s, st), r);
      && p'.Sending?
      && p'.left == p.left - (if st.runner == r && st.action.Send? then {st.action.key} else {})
      && p'.sent == p.sent + (if st.runner == r && st.action.Send? && st.action.delivered then {st.action.key} else {})
  {
  }

  lemma {:induction false} BatchSoFar(s: State, steps: seq<Step>, r: Runner)
    requires CanRun(s, steps) && PhaseOf(s, r).Sending? && SameBatch(steps, r)
    ensures var p, p' := PhaseOf(s, r), PhaseOf(After(s, steps), r);
      p'.Sending? && p'.left == p.left - Attempted(steps, r) && p'.sent == p.sent + DeliveredIn(steps, r)
    decreases |steps|
  {
    hide CanStep, Apply, Attempted, DeliveredIn;
    if steps == [] {
      NoStepsNoSends(r);
    } else {
      StepInBatch(s, steps[0], r);
      BatchSoFar(Apply(s, steps[0]), steps[1..], r);
      SetsOfSteps(steps, r);
    }
  }

  lemma NoStepsNoSends(r: Runner)
    ensures Attempted([], r) == {} && DeliveredIn([], r) == {}
  {
  }

  /** A batch from its lookup to its mark, other steps interleaving: everything asked for
      and not recorded at the lookup is attempted, and what was delivered is recorded by
      the mark, at its time unless it was recorded already. */
  lemma BatchSendsAll(s: State, check: Step, steps: seq<Step>, mark: Step)
    requires CanStep(s, check) && check.action.Check?
    requires CanRun(Apply(s, check), steps) && SameBatch(steps, check.runner)
    requires CanStep(After(Apply(s, check), steps), mark) && mark.action.Mark? && mark.runner == check.runner
    ensures forall k <- check.action.candidates :: k in s.rows || k in Attempted(steps, check.runner)
    ensures var before, after := After(Apply(s, check), steps), Apply(After(Apply(s, check), steps), mark);
      forall k :: k in after.rows <==> k in before.rows || k in DeliveredIn(steps, check.runner)
    ensures var before, after := After(Apply(s, check), steps), Apply(After(Apply(s, check), steps), mark);
      forall k <- after.rows.Keys :: after.rows[k] == if k in before.rows then before.rows[k] else mark.at
  {
    hide CanRun, After, Attempted, DeliveredIn;
    var r := check.runner;
    BatchSoFar(Apply(s, check), steps, r);
    var before := After(Apply(s, check), steps);
    var p := PhaseOf(before, r);
    assert p.sent == {} + DeliveredIn(steps, r) == DeliveredIn(steps, r);
    forall k <- check.action.candidates ensures k in s.rows || k in Attempted(steps, r) {
      assert k !in p.left;
    }
    assert Apply(before, mark).rows == Marked(before.rows, p.sent, mark.at);
  }

  /** The purge removes exactly the rows recorded before its cutoff. */
  lemma PurgeRemovesExactly(s: State, st: Step, k: Key)
    requires CanStep(s, st) && st.action.Purge?
    ensures k in Apply(s, st).rows <==> k in s.rows && s.rows[k] >= st.action.cutoff
    ensures k in Apply(s, st).rows ==> Apply(s, st).rows[k] == s.rows[k]
  {
  }

  // -------------------------------------------------------------- coverage

  /** Looks at the schedule no further than `gap` apart, the first one before the
      window of the reminder m and the last one not before its start. */
  ghost predicate Watched(looks: seq<int>, gap: int, anchor: int, m: int) {
    && |looks| > 0
    && (forall i :: 0 < i < |looks| ==> looks[i - 1] <= looks[i] <= looks[i - 1] + gap)
    && looks[0] <= anchor - (m + 2) * MINUTE < looks[|looks| - 1]
  }

  ghost predicate Caught(looks: seq<int>, anchor: int, m: int) {
    exists i :: 0 <= i < |looks| && Due(Regular, MinutesUntil(anchor, looks[i]), m)
  }

  lemma {:induction false} WindowIsHit(looks: seq<int>, gap: int, anchor: int, m: int)
    requires Watched(looks, gap, anchor, m) && gap <= 3 * MINUTE
    ensures Caught(looks, anchor, m)
  {
    var n := |looks| - 1;
    if looks[n - 1] <= anchor - (m + 2) * MINUTE {
      InWindow(anchor, looks[n], m);
      assert Due(Regular, MinutesUntil(anchor, looks[n]), m);
    } else {
      WindowIsHit(looks[..n], gap, anchor, m);
      var i :| 0 <= i < n && Due(Regular, MinutesUntil(anchor, looks[..n][i]), m);
      assert looks[..n][i] == looks[i];
    }
  }

  lemma InWindow(anchor: int, now: int, m: int)
    requires anchor - (m + 2) * MINUTE < now <= anchor - (m - 1) * MINUTE
    ensures Due(Regular, MinutesUntil(anchor, now), m)
  {
  }

  lemma WindowIsMissed(gap: int, anchor: int, m: int)
    requires gap > 3 * MINUTE
    ensures var first := anchor - (m + 2) * MINUTE;
      Watched([first, first + gap], gap, anchor, m) && !Caught([first, first + gap], anchor, m)
  {
    var first := anchor - (m + 2) * MINUTE;
    var looks := [first, first + gap];
    forall i | 0 <= i < |looks| ensures !Due(Regular, MinutesUntil(anchor, looks[i]), m) {
      assert looks[i] == first || looks[i] == first + gap;
    }
  }

  /** Coverage: passes cannot skip a reminder's window exactly when they are at
      most three minutes apart. */
  lemma NoWindowSkippedExactly(gap: int)
    ensures (forall looks, anchor, m ::
              m in REMIND_MINUTES && Watched(looks, gap, anchor, m) ==> Caught(looks, anchor, m))
      <==> gap <= 3 * MINUTE
  {
    if gap <= 3 * MINUTE {
      forall looks, anchor, m | m in REMIND_MINUTES && Watched(looks, gap, anchor, m) ensures Caught(looks, anchor, m) {
        WindowIsHit(looks, gap, anchor, m);
      }
    } else {
      WindowIsMissed(gap, 0, 15);
      assert 15 in REMIND_MINUTES;
    }
  }

  /** The catch-up is due exactly for the reminders whose window has opened, as long as a
      minute is left before the event. */
  lemma CatchUpDueExactly(anchor: int, now: int, m: int)
    requires m in REMIND_MINUTES
    ensures Due(CatchUp, MinutesUntil(anchor, now), m) <==>
      now + MINUTE <= anchor && exists t :: t <= now && Due(Regular, MinutesUntil(anchor, t), m)
  {
    if Due(CatchUp, MinutesUntil(anchor, now), m) {
      var opening := anchor - (m + 2) * MINUTE + 1;
      InWindow(anchor, opening, m);
      assert opening <= now;
    } else if now + MINUTE <= anchor {
      forall t | t <= now ensures !Due(Regular, MinutesUntil(anchor, t), m) {
        LaterIsCloser(anchor, t, now);
      }
    }
  }

  lemma LaterIsCloser(anchor: int, t: int, now: int)
    requires t <= now
    ensures MinutesUntil(anchor, now) <= MinutesUntil(anchor, t)
  {
  }

  // ------------------------------------------------------------ the passes

  /** A user with reminder settings: which reminders, and before which events. */
  datatype Settings = Settings(user: int, wants: set<int>, beforeOff: bool, beforeOn: bool)

  datatype Event = Event(powerOff: bool, anchor: int)

  predicate Wants(u: Settings, e: Event, m: int) {
    m in u.wants && (if e.powerOff then u.beforeOff else u.beforeOn)
  }

  /** The reminders a pass has to look up: by user, then by reminder. */
  ghost predicate IsDueKey(users: seq<Settings>, e: Event, r: Runner, minutesUntil: int, k: Key) {
    && k.anchor == e.anchor && k.minutes in REMIND_MINUTES && Due(r, minutesUntil, k.minutes)
    && exists u <- users ::
      && u.user == k.user && k.minutes in u.wants
      && (e.powerOff ==> u.beforeOff) && (!e.powerOff ==> u.beforeOn)
  }

  /** What goes out: due, not recorded, and delivered. */
  function Delivered(toSend: seq<Key>, already: set<Key>, delivers: Key -> bool): seq<Key> {
    if toSend == [] then []
    else
      var n := |toSend| - 1;
      Delivered(toSend[..n], already, delivers)
      + if toSend[n] !in already && delivers(toSend[n]) then [toSend[n]] else []
  }

  lemma {:induction false} DeliveredAre(toSend: seq<Key>, already: set<Key>, delivers: Key -> bool, k: Key)
    ensures k in Delivered(toSend, already, delivers) <==> k in toSend && k !in already && delivers(k)
  {
    if toSend != [] {
      var n := |toSend| - 1;
      DeliveredAre(toSend[..n], already, delivers, k);
      assert toSend == toSend[..n] + [toSend[n]];
    }
  }

  lemma {:induction false} DeliveredOnce(toSend: seq<Key>, already: set<Key>, delivers: Key -> bool)
    requires Distinct(toSend)
    ensures Distinct(Delivered(toSend, already, delivers))
  {
    if toSend != [] {
      var n := |toSend| - 1;
      var before := Delivered(toSend[..n], already, delivers);
      DeliveredOnce(toSend[..n], already, delivers);
      DeliveredAre(toSend[..n], already, delivers, toSend[n]);
      assert forall i :: 0 <= i < n ==> toSend[..n][i] == toSend[i] != toSend[n];
      DistinctAppend(before, toSend[n]);
      assert before + [] == before;
    }
  }

  class ReminderTable {
    var rows: map<Key, int>
    ghost var log: seq<Key>

    constructor ()
      ensures rows == map[] && log == []
    {
      rows, log := map[], [];
    }

    /** The regular pass over the users of one queue. */
    method CollectDue(users: seq<Settings>, e: Event, minutesUntil: int) returns (toSend: seq<Key>)
      ensures forall k :: k in toSend <==> IsDueKey(users, e, Regular, minutesUntil, k)
    {
      toSend := [];
      for i := 0 to |users|
        invariant forall k :: k in toSend <==> IsDueKey(users[..i], e, Regular, minutesUntil, k)
      {
        var u := users[i];
        ghost var before := toSend;
        for j := 0 to |REMIND_MINUTES|
          invariant forall k :: k in toSend <==>
            || k in before
            || (k.user == u.user && k.anchor == e.anchor && k.minutes in REMIND_MINUTES[..j]
                && Wants(u, e, k.minutes) && Due(Regular, minutesUntil, k.minutes))
        {
          var m := REMIND_MINUTES[j];
          assert REMIND_MINUTES[..j + 1] == REMIND_MINUTES[..j] + [m];
          if Wants(u, e, m) && Due(Regular, minutesUntil, m) {
            toSend := toSend + [Key(u.user, e.anchor, m)];
          }
        }
        assert REMIND_MINUTES[..|REMIND_MINUTES|] == REMIND_MINUTES;
        assert users[..i + 1] == users[..i] + [u];
      }
      assert users[..|users|] == users;
    }

    /** The catch-up collects one reminder type at a time. */
    method CollectMissed(users: seq<Settings>, e: Event, minutesUntil: int, m: int) returns (toSend: seq<Key>)
      requires m in REMIND_MINUTES
      ensures forall k :: k in toSend <==> k.minutes == m && IsDueKey(users, e, CatchUp, minutesUntil, k)
    {
      toSend := [];
      if minutesUntil <= 0 || minutesUntil > 61 || minutesUntil > m + 1 {
        return;
      }
      for i := 0 to |users|
        invariant forall k :: k in toSend <==> k.minutes == m && IsDueKey(users[..i], e, CatchUp, minutesUntil, k)
      {
        var u := users[i];
        assert users[..i + 1] == users[..i] + [u];
        if Wants(u, e, m) {
          toSend := toSend + [Key(u.user, e.anchor, m)];
        }
      }
      assert users[..|users|] == users;
    }

    /** The lookup of one batch. */
    method CheckSentBatch(checks: seq<Key>) returns (already: set<Key>)
      ensures already == (set k | k in checks && k in rows)
    {
      already := {};
      for i := 0 to |checks|
        invariant already == (set k | k in checks[..i] && k in rows)
      {
        if checks[i] in rows { already := already + {checks[i]}; }
      }
      assert checks[..|checks|] == checks;
    }

    method MarkBatch(toMark: seq<Key>, at: int)
      modifies this`rows
      ensures rows == Marked(old(rows), (set k | k in toMark), at)
    {
      for i := 0 to |toMark|
        invariant rows == Marked(old(rows), (set k | k in toMark[..i]), at)
      {
        if toMark[i] !in rows { rows := rows[toMark[i] := at]; }
      }
      assert toMark[..|toMark|] == toMark;
    }

    /** Look up, send, record: what goes out is exactly what was due, unrecorded
        and deliverable, and all of it is recorded. */
    method SendBatch(toSend: seq<Key>, delivers: Key -> bool, at: int)
      modifies this
      ensures log == old(log) + Delivered(toSend, old(rows).Keys, delivers)
      ensures rows == Marked(old(rows), (set k | k in toSend && delivers(k) && k !in old(rows)), at)
    {
      var already := CheckSentBatch(toSend);
      var toMark := [];
      for i := 0 to |toSend|
        invariant rows == old(rows)
        invariant toMark == Delivered(toSend[..i], rows.Keys, delivers)
        invariant log == old(log) + toMark
      {
        assert toSend[..i + 1][..i] == toSend[..i];
        if toSend[i] !in already {
          var sent := delivers(toSend[i]);
          if sent {
            log := log + [toSend[i]];
            toMark := toMark + [toSend[i]];
          }
        }
      }
      assert toSend[..|toSend|] == toSend;
      forall k ensures k in toMark <==> k in toSend && delivers(k) && k !in old(rows) {
        DeliveredAre(toSend, rows.Keys, delivers, k);
      }
      MarkBatch(toMark, at);
    }

    method CleanupOld(now: int) returns (deleted: nat)
      modifies this`rows
      ensures rows == Purged(old(rows), now - TTL)
      ensures deleted == |old(rows)| - |rows|
    {
      var kept := Purged(rows, now - TTL);
      assert kept.Keys <= rows.Keys;
      Larger(kept.Keys, rows.Keys);
      deleted := |rows| - |kept|;
      rows := kept;
    }
  }
}
