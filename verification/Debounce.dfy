/**
 The per-user power state machine of the router monitor: pings, debounce
 timers, evictions and the restart of timers after a reboot.

 Code between two suspension points runs without interruption, so each such
 block is one step.  `World` is everything one user owns: every state dict ever
 created for the id (a timer keeps the dict it captured, even after the id is
 evicted), which of them is registered, every timer ever created, and the check
 cycle that is suspended between noting a pending state and arming its timer.
 `log` and `since` are history: what happened, and where in the log the pending
 state of the registered dict was noted.
 */
module Debounce {
  import opened Wrappers

  /** Seconds used in place of a configured debounce of zero. */
  const MIN_STABILIZATION: nat := 30

  datatype Power = On | Off

  function Opposite(p: Power): Power {
    if p == On then Off else On
  }

  datatype Entry = Entry(
    current: Option<Power>,
    pending: Option<Power>,
    pendingTime: Option<int>,
    changeTime: Option<int>,
    task: Option<nat>,
    firstCheck: bool,
    switchCount: nat)

  const FRESH: Entry := Entry(None, None, None, None, None, true, 0)

  /** An ordinary timer keeps the dict; a restored one looks the id up again. */
  datatype Capture = Dict(index: nat) | Lookup(origin: Option<int>)

  datatype Status = Sleeping | Cancelled | Done

  datatype Timer = Timer(capture: Capture, newState: Power, delay: int, due: int, status: Status)

  datatype Arming = Arming(index: nat, newState: Power)

  datatype Event =
    | Restored(time: int, power: Power, pending: Option<Power>, pendingTime: Option<int>, switches: nat)
    | Seeded(time: int, power: Power)
    | Pinged(time: int, power: Power)
    | Confirmed(time: int, power: Power, delay: int, origin: Option<int>)
    | Evicted(time: int)

  datatype World = World(
    now: int,
    entries: seq<Entry>,
    user: Option<nat>,
    timers: seq<Timer>,
    arming: Option<Arming>,
    log: seq<Event>,
    since: nat)

  /** What a flush saves of a dict, as far as the state machine is concerned. */
  datatype Row = Row(current: Option<Power>, pending: Option<Power>, pendingTime: Option<int>, switchCount: nat)

  datatype Step =
    | Tick(seconds: nat)
    | Ping(available: Option<bool>, seed: Option<Power>)
    | Arm(setting: nat)
    | Fire(timer: nat)
    | Evict

  // ---------------------------------------------------------------- steps

  predicate Live(w: World, k: nat) {
    k < |w.timers| && w.timers[k].status == Sleeping
  }

  function CancelTimer(w: World, r: nat): World
    requires r < |w.entries|
  {
    match w.entries[r].task
    case None => w
    case Some(k) =>
      if Live(w, k) then
        w.(timers := w.timers[k := w.timers[k].(status := Cancelled)],
           entries := w.entries[r := w.entries[r].(task := None)])
      else w
  }

  function Lookup0(w: World): (w': World)
    ensures w'.user.Some? && (w.user.Some? ==> w' == w)
  {
    if w.user.Some? then w
    else w.(user := Some(|w.entries|), entries := w.entries + [FRESH])
  }

  function Note(w: World, e: Event): World {
    w.(log := w.log + [e])
  }

  function SetEntry(w: World, r: nat, e: Entry): World
    requires r < |w.entries|
  {
    w.(entries := w.entries[r := e])
  }

  /** One ping result for this user, up to the next suspension point. */
  function PingStep(w: World, available: Option<bool>, seed: Option<Power>): World
    requires w.user.Some? ==> w.user.value < |w.entries|
  {
    if available.None? then w else
    var power := if available.value then On else Off;
    var w0 := Lookup0(w);
    var w1 := Note(w0, Pinged(w.now, power));
    var r := w1.user.value;
    var e := w1.entries[r];
    if e.firstCheck then
      var start := if seed.Some? then seed.value else power;
      Note(SetEntry(w1, r, e.(current := Some(start), firstCheck := false)), Seeded(w.now, start))
    else if e.current == Some(power) then
      if e.pending.Some? && e.pending != Some(power) then
        var w2 := CancelTimer(w1, r);
        SetEntry(w2, r, w2.entries[r].(switchCount := e.switchCount + 1,
          pending := None, pendingTime := None, changeTime := None))
      else w1
    else if e.pending == Some(power) then w1
    else
      var w2 := CancelTimer(w1, r);
      SetEntry(w2, r, w2.entries[r].(
        switchCount := if e.pending.None? then 1 else e.switchCount + 1,
        pending := Some(power), pendingTime := Some(w.now), changeTime := Some(w.now)))
      .(arming := Some(Arming(r, power)), since := |w.log|)
  }

  function EffectiveDelay(setting: nat): nat {
    if setting == 0 then MIN_STABILIZATION else setting
  }

  /** The suspended check resumes with the configured delay and starts the timer. */
  function ArmStep(w: World, setting: nat): World
    requires w.arming.Some? && w.arming.value.index < |w.entries|
  {
    var a := w.arming.value;
    var d := EffectiveDelay(setting);
    SetEntry(w, a.index, w.entries[a.index].(task := Some(|w.timers|)))
    .(timers := w.timers + [Timer(Dict(a.index), a.newState, d, w.now + d, Sleeping)], arming := None)
  }

  function Settle(w: World, r: nat, t: Timer, origin: Option<int>): World
    requires r < |w.entries|
  {
    Note(SetEntry(w, r, w.entries[r].(current := Some(t.newState), task := None,
      pending := None, pendingTime := None, changeTime := None)),
      Confirmed(w.now, t.newState, t.delay, origin))
  }

  /** The timer wakes and confirms the state it was armed for. */
  function FireStep(w: World, k: nat): World
    requires k < |w.timers|
    requires w.timers[k].capture.Dict? ==> w.timers[k].capture.index < |w.entries|
    requires w.user.Some? ==> w.user.value < |w.entries|
  {
    var t := w.timers[k];
    var w1 := w.(timers := w.timers[k := t.(status := Done)]);
    match t.capture
    case Dict(r) => Settle(w1, r, t, w.entries[r].changeTime)
    case Lookup(origin) =>
      if w.user.None? || w.entries[w.user.value].pending != Some(t.newState) then w1
      else Settle(w1, w.user.value, t, origin)
  }

  /** The id leaves the map and the timer stored in its dict is cancelled. */
  function EvictStep(w: World): World
    requires w.user.Some? ==> w.user.value < |w.entries|
  {
    if w.user.None? then w
    else
      var r := w.user.value;
      var w1 := w.(user := None);
      var t := w.entries[r].task;
      Note(if t.Some? && Live(w, t.value)
           then w1.(timers := w.timers[t.value := w.timers[t.value].(status := Cancelled)])
           else w1, Evicted(w.now))
  }

  /** A process starts with what the table holds and re-arms a pending state.
      `read` is when the restart read its clock, `armed` when the timer was made. */
  function Boot(row: Option<Row>, read: int, armed: int, setting: nat): World {
    match row
    case None => World(armed, [], None, [], None, [], 0)
    case Some(s) =>
      var e := Entry(s.current, s.pending, s.pendingTime, s.pendingTime, None, false, s.switchCount);
      var power := if s.current.Some? then s.current.value else Off;
      var log := [Restored(armed, power, s.pending, s.pendingTime, s.switchCount)];
      if s.pending.None? then World(armed, [e], Some(0), [], None, log, 0)
      else
        var remaining := if s.pendingTime.None? then setting
                         else Max(0, setting - (read - s.pendingTime.value));
        var t := Timer(Lookup(s.pendingTime), s.pending.value, setting, armed + remaining, Sleeping);
        World(armed, [e.(task := Some(0))], Some(0), [t], None, log, 0)
  }

  function Max(a: int, b: int): int {
    if a >= b then a else b
  }

  predicate Enabled(w: World, s: Step) {
    match s
    case Tick(_) => true
    case Ping(_, _) => w.arming.None?
    case Arm(_) => w.arming.Some?
    case Fire(k) => Live(w, k) && w.timers[k].due <= w.now
    case Evict => w.arming.None?
  }

  ghost predicate Formed(w: World) {
    && (w.user.Some? ==> w.user.value < |w.entries|)
    && (w.arming.Some? ==> w.arming.value.index < |w.entries|)
    && (forall k :: 0 <= k < |w.timers| && w.timers[k].capture.Dict? ==> w.timers[k].capture.index < |w.entries|)
  }

  ghost function Next(w: World, s: Step): World
    requires Formed(w) && Enabled(w, s)
  {
    match s
    case Tick(d) => w.(now := w.now + d)
    case Ping(a, seed) => PingStep(w, a, seed)
    case Arm(d) => ArmStep(w, d)
    case Fire(k) => FireStep(w, k)
    case Evict => EvictStep(w)
  }

  /** `run` is what one process goes through: consecutive worlds are one step apart. */
  ghost predicate IsRun(run: seq<World>, steps: seq<Step>) {
    && |run| == |steps| + 1
    && forall i :: 0 <= i < |steps| ==>
         Formed(run[i]) && Enabled(run[i], steps[i]) && run[i + 1] == Next(run[i], steps[i])
  }

  // ----------------------------------------------------- what is promised

  /** A confirmation at log[i] rests on log[j], where the pending state was noted
      at `origin`: the debounce has passed since, and no ping in between disagreed. */
  ghost predicate Justified(log: seq<Event>, j: int, i: int) {
    && 0 <= j < i < |log|
    && log[i].Confirmed?
    && log[i].origin.Some?
    && log[i].origin.value + log[i].delay <= log[i].time
    && (|| log[j] == Pinged(log[i].origin.value, log[i].power)
        || (log[j].Restored? && log[j].pending == Some(log[i].power) && log[j].pendingTime == log[i].origin))
    && forall k :: j <= k < i && log[k].Pinged? ==> log[k].power == log[i].power
  }

  ghost predicate Sound(log: seq<Event>) {
    forall i :: 0 <= i < |log| && log[i].Confirmed? ==> exists j :: Justified(log, j, i)
  }

  predicate Settles(e: Event) {
    e.Restored? || e.Seeded? || e.Confirmed?
  }

  /** Each confirmation reports the opposite of the last state the user had. */
  ghost predicate Alternates(log: seq<Event>) {
    forall i, j ::
      (0 <= i < j < |log| && Settles(log[i]) && log[j].Confirmed? && (forall k :: i < k < j ==> !Settles(log[k])))
      ==> log[j].power == Opposite(log[i].power)
  }

  ghost predicate LastSettled(log: seq<Event>, p: Power) {
    exists i :: 0 <= i < |log| && Settles(log[i]) && log[i].power == p
      && forall k :: i < k < |log| ==> !Settles(log[k])
  }

  ghost predicate Healthy(e: Entry) {
    && !e.firstCheck
    && e.current.Some?
    && (e.pending.Some? ==> e.pending == Some(Opposite(e.current.value)) && e.pendingTime.Some?)
    && (e.pending.None? ==> e.pendingTime.None? && e.task.None?)
    && e.changeTime == e.pendingTime
  }

  /** The pending state of e was noted at log[j], or was pending already when the
      process started, and only pings that agree have come since. */
  ghost predicate NotedAt(log: seq<Event>, e: Entry, j: nat) {
    && e.pending.Some? && e.pendingTime.Some? && j < |log|
    && (|| log[j] == Pinged(e.pendingTime.value, e.pending.value)
        || (log[j].Restored? && log[j].pending == e.pending && log[j].pendingTime == e.pendingTime))
    && forall k :: j < k < |log| ==> log[k].Pinged? && log[k].power == e.pending.value
  }

  ghost predicate PendingBacked(w: World, e: Entry) {
    e.pending.Some? && e.pendingTime.Some? ==> e.pendingTime.value <= w.now && NotedAt(w.log, e, w.since)
  }

  /** A sleeping timer is the one stored in the registered dict, and it was armed
      for that dict's pending state at least `delay` after the state was noted. */
  ghost predicate Owned(w: World, k: nat)
    requires k < |w.timers|
  {
    && w.user.Some? && w.user.value < |w.entries|
    && var e := w.entries[w.user.value];
       && e.task == Some(k)
       && e.pending == Some(w.timers[k].newState)
       && e.pendingTime.Some?
       && e.pendingTime.value + w.timers[k].delay <= w.timers[k].due
       && (w.timers[k].capture == Dict(w.user.value) || w.timers[k].capture == Lookup(e.pendingTime))
  }

  /** What holds at every suspension point. */
  ghost predicate Inv(w: World) {
    && Formed(w)
    && (forall k :: 0 <= k < |w.timers| && w.timers[k].status == Sleeping ==> Owned(w, k))
    && (w.user.None? ==> w.arming.None?)
    && (w.user.Some? ==>
          var e := w.entries[w.user.value];
          && Healthy(e)
          && (e.task.Some? ==> Live(w, e.task.value))
          && PendingBacked(w, e)
          && LastSettled(w.log, e.current.value)
          && (match w.arming
              case None => e.pending.Some? ==> e.task.Some?
              case Some(a) => a.index == w.user.value && e.pending == Some(a.newState) && e.task.None?))
    && Sound(w.log)
    && Alternates(w.log)
  }

  // ------------------------------------------------------- step invariants

  lemma NoteKeepsHistory(log: seq<Event>, e: Event)
    requires Sound(log) && Alternates(log)
    requires !e.Confirmed?
    ensures Sound(log + [e]) && Alternates(log + [e])
  {
    var l := log + [e];
    forall i | 0 <= i < |l| && l[i].Confirmed? ensures exists j :: Justified(l, j, i) {
      var j :| Justified(log, j, i);
      assert Justified(l, j, i);
    }
    forall i, j | 0 <= i < j < |l| && Settles(l[i]) && l[j].Confirmed? && (forall k :: i < k < j ==> !Settles(l[k]))
      ensures l[j].power == Opposite(l[i].power)
    {
      assert forall k :: i < k < j ==> !Settles(log[k]) by {
        forall k | i < k < j ensures !Settles(log[k]) { assert l[k] == log[k]; }
      }
    }
  }

  lemma {:induction false} ConfirmKeepsHistory(log: seq<Event>, e: Event, since: nat)
    requires Sound(log) && Alternates(log)
    requires e.Confirmed?
    requires Justified(log + [e], since, |log|)
    requires LastSettled(log, Opposite(e.power))
    ensures Sound(log + [e]) && Alternates(log + [e])
  {
    var l := log + [e];
    forall i | 0 <= i < |l| && l[i].Confirmed? ensures exists j :: Justified(l, j, i) {
      if i < |log| {
        var j :| Justified(log, j, i);
        assert Justified(l, j, i);
      }
    }
    var s :| 0 <= s < |log| && Settles(log[s]) && log[s].power == Opposite(e.power)
      && forall k :: s < k < |log| ==> !Settles(log[k]);
    forall i, j | 0 <= i < j < |l| && Settles(l[i]) && l[j].Confirmed? && (forall k :: i < k < j ==> !Settles(l[k]))
      ensures l[j].power == Opposite(l[i].power)
    {
      if j == |log| {
        assert l[s] == log[s];
        assert i == s;
      } else {
        forall k | i < k < j ensures !Settles(log[k]) { assert l[k] == log[k]; }
      }
    }
  }

  lemma NoteKeepsLast(log: seq<Event>, e: Event, p: Power)
    requires if Settles(e) then e.power == p else LastSettled(log, p)
    ensures LastSettled(log + [e], p)
  {
    var l := log + [e];
    if Settles(e) {
      assert Settles(l[|log|]);
    } else {
      var s :| 0 <= s < |log| && Settles(log[s]) && log[s].power == p
        && forall k :: s < k < |log| ==> !Settles(log[k]);
      assert Settles(l[s]) && l[s].power == p;
    }
  }

  lemma SeedKeepsInv(w: World, available: bool, seed: Option<Power>)
    requires Inv(w) && w.arming.None? && w.user.None?
    ensures Inv(PingStep(w, Some(available), seed))
  {
    var power := if available then On else Off;
    var w1 := Note(Lookup0(w), Pinged(w.now, power));
    var start := if seed.Some? then seed.value else power;
    NoteKeepsHistory(w.log, Pinged(w.now, power));
    NoteKeepsHistory(w1.log, Seeded(w.now, start));
    NoteKeepsLast(w1.log, Seeded(w.now, start), start);
  }

  lemma SamePingKeepsInv(w: World, available: bool, seed: Option<Power>)
    requires Inv(w) && w.arming.None? && w.user.Some?
    requires w.entries[w.user.value].current == Some(if available then On else Off)
    ensures Inv(PingStep(w, Some(available), seed))
  {
    var power := if available then On else Off;
    NoteKeepsHistory(w.log, Pinged(w.now, power));
    NoteKeepsLast(w.log, Pinged(w.now, power), power);
  }

  lemma OtherPingKeepsInv(w: World, available: bool, seed: Option<Power>)
    requires Inv(w) && w.arming.None? && w.user.Some?
    requires w.entries[w.user.value].current == Some(if available then Off else On)
    ensures Inv(PingStep(w, Some(available), seed))
  {
    var power := if available then On else Off;
    NoteKeepsHistory(w.log, Pinged(w.now, power));
    NoteKeepsLast(w.log, Pinged(w.now, power), Opposite(power));
  }

  lemma PingKeepsInv(w: World, available: Option<bool>, seed: Option<Power>)
    requires Inv(w) && w.arming.None?
    ensures Inv(PingStep(w, available, seed))
  {
    if available.Some? {
      if w.user.None? {
        SeedKeepsInv(w, available.value, seed);
      } else if w.entries[w.user.value].current == Some(if available.value then On else Off) {
        SamePingKeepsInv(w, available.value, seed);
      } else {
        OtherPingKeepsInv(w, available.value, seed);
      }
    }
  }

  lemma FireKeepsHistory(w: World, k: nat)
    requires Inv(w) && Live(w, k) && w.timers[k].due <= w.now && w.user.Some?
    ensures var log := FireStep(w, k).log;
      Sound(log) && Alternates(log) && LastSettled(log, w.timers[k].newState)
  {
    hide Sound, Alternates, LastSettled;
    assert Owned(w, k);
    var t := w.timers[k];
    var e := w.entries[w.user.value];
    var c := Confirmed(w.now, t.newState, t.delay, e.pendingTime);
    assert Justified(w.log + [c], w.since, |w.log|);
    ConfirmKeepsHistory(w.log, c, w.since);
    NoteKeepsLast(w.log, c, t.newState);
  }

  lemma FireKeepsInv(w: World, k: nat)
    requires Inv(w) && Live(w, k) && w.timers[k].due <= w.now
    ensures Inv(FireStep(w, k))
  {
    hide Sound, Alternates, LastSettled, NotedAt;
    assert Owned(w, k);
    FireKeepsHistory(w, k);
  }

  lemma EvictKeepsInv(w: World)
    requires Inv(w) && w.arming.None?
    ensures Inv(EvictStep(w))
  {
    NoteKeepsHistory(w.log, Evicted(w.now));
  }

  lemma StepKeepsInv(w: World, s: Step)
    requires Inv(w) && Enabled(w, s)
    ensures Inv(Next(w, s))
  {
    match s
    case Tick(_) =>
    case Ping(a, seed) => PingKeepsInv(w, a, seed);
    case Arm(_) =>
    case Fire(k) => FireKeepsInv(w, k);
    case Evict => EvictKeepsInv(w);
  }

  /** A row that a flush can have written: a settled state, and a pending one
      only together with the time it was noted. */
  ghost predicate ValidRow(row: Row, now: int) {
    && row.current.Some?
    && (row.pending.Some? ==> row.pending == Some(Opposite(row.current.value)) && row.pendingTime.Some?
                              && row.pendingTime.value <= now)
    && (row.pending.None? ==> row.pendingTime.None?)
  }

  lemma BootHasInv(row: Option<Row>, read: int, armed: int, setting: nat)
    requires read <= armed
    requires row.Some? ==> ValidRow(row.value, read)
    ensures Inv(Boot(row, read, armed, setting))
  {
    if row.Some? {
      var w := Boot(row, read, armed, setting);
      assert Settles(w.log[0]);
    }
  }

  // ------------------------------------------------------------- theorems

  lemma {:induction false} RunKeepsInv(run: seq<World>, steps: seq<Step>, i: nat)
    requires IsRun(run, steps) && Inv(run[0])
    requires i < |run|
    ensures Inv(run[i])
  {
    if i > 0 {
      RunKeepsInv(run, steps, i - 1);
      StepKeepsInv(run[i - 1], steps[i - 1]);
    }
  }

  /** Main result: in every run of a process, whatever the interleaving, each
      confirmation waited out its debounce with no ping disagreeing, reports the
      time its state was first seen, and alternates with the one before. */
  lemma DebounceIsSound(row: Option<Row>, read: int, armed: int, setting: nat, run: seq<World>, steps: seq<Step>)
    requires read <= armed && (row.Some? ==> ValidRow(row.value, read))
    requires IsRun(run, steps) && run[0] == Boot(row, read, armed, setting)
    ensures forall i :: 0 <= i < |run| ==> Sound(run[i].log) && Alternates(run[i].log)
  {
    BootHasInv(row, read, armed, setting);
    forall i | 0 <= i < |run| ensures Sound(run[i].log) && Alternates(run[i].log) {
      RunKeepsInv(run, steps, i);
    }
  }

  /** Between check cycles a pending state has exactly one sleeping timer, the
      stored one, and without a pending state nothing is waiting. */
  lemma OneTimerPerPending(row: Option<Row>, read: int, armed: int, setting: nat,
                           run: seq<World>, steps: seq<Step>, i: nat)
    requires read <= armed && (row.Some? ==> ValidRow(row.value, read))
    requires IsRun(run, steps) && run[0] == Boot(row, read, armed, setting)
    requires i < |run| && run[i].arming.None?
    ensures var w := run[i];
      if w.user.Some? && w.user.value < |w.entries| && w.entries[w.user.value].pending.Some? then
        var e := w.entries[w.user.value];
        e.current == Some(Opposite(e.pending.value)) && e.task.Some?
        && forall k :: 0 <= k < |w.timers| ==> (Live(w, k) <==> k == e.task.value)
      else forall k :: 0 <= k < |w.timers| ==> !Live(w, k)
  {
    BootHasInv(row, read, armed, setting);
    RunKeepsInv(run, steps, i);
    var w := run[i];
    forall k | 0 <= k < |w.timers| && Live(w, k) ensures Owned(w, k) {}
  }

  /** A step that leaves the armed state alone: time passes, or a ping agrees. */
  predicate Agreeing(s: Step, power: Power) {
    s.Tick? || (s.Ping? && !Disagrees(s, power))
  }

  predicate Disagrees(s: Step, power: Power) {
    s.Ping? && s.available == Some(power == Off)
  }

  lemma AgreeingStepKeeps(w: World, s: Step, k: nat)
    requires Inv(w) && Enabled(w, s) && Live(w, k) && w.arming.None? && Agreeing(s, w.timers[k].newState)
    ensures var w' := Next(w, s);
      w'.arming.None? && w'.user == w.user && w'.timers == w.timers && w'.entries == w.entries
  {
    assert Owned(w, k);
  }

  lemma DueTimerConfirms(w: World, k: nat)
    requires Inv(w) && Live(w, k) && w.timers[k].due <= w.now
    ensures w.user.Some? && w.user.value < |w.entries|
    ensures var w', r := FireStep(w, k), w.user.value;
      && w'.user == w.user && r < |w'.entries|
      && w'.entries[r].current == Some(w.timers[k].newState)
      && w'.log == w.log + [Confirmed(w.now, w.timers[k].newState, w.timers[k].delay, w.entries[r].pendingTime)]
  {
    assert Owned(w, k);
  }

  /** A pending state that no ping contradicts is confirmed: its timer stays
      armed for the same moment, and waking it then settles the state. */
  lemma {:induction false} AgreeingPingsConfirm(run: seq<World>, steps: seq<Step>, i: nat, k: nat)
    requires IsRun(run, steps) && Inv(run[0]) && i < |run|
    requires Live(run[0], k) && run[0].arming.None?
    requires forall m :: 0 <= m < |steps| ==> Agreeing(steps[m], run[0].timers[k].newState)
    ensures Inv(run[i]) && run[i].arming.None? && run[i].user == run[0].user
    ensures run[i].timers == run[0].timers && run[i].entries == run[0].entries
    ensures run[i].now >= run[0].timers[k].due ==>
      && Enabled(run[i], Fire(k))
      && var w := FireStep(run[i], k);
         w.user.Some? && w.user.value < |w.entries|
         && w.entries[w.user.value].current == Some(run[0].timers[k].newState)
         && w.log == run[i].log + [Confirmed(run[i].now, run[0].timers[k].newState, run[0].timers[k].delay,
                                             run[0].entries[run[0].user.value].pendingTime)]
  {
    hide Next, Agreeing, FireStep, Sound, Alternates, LastSettled, PendingBacked, Owned;
    if i > 0 {
      AgreeingPingsConfirm(run, steps, i - 1, k);
      StepKeepsInv(run[i - 1], steps[i - 1]);
      AgreeingStepKeeps(run[i - 1], steps[i - 1], k);
    }
    if run[i].now >= run[0].timers[k].due { DueTimerConfirms(run[i], k); }
  }

  lemma TimerNeverRevives(w: World, s: Step, k: nat)
    requires Inv(w) && Enabled(w, s) && k < |w.timers|
    ensures k < |Next(w, s).timers|
    ensures Next(w, s).timers[k] == w.timers[k].(status := Next(w, s).timers[k].status)
    ensures Live(Next(w, s), k) ==> Live(w, k)
  {
  }

  /** A ping that contradicts the armed state kills the timer in the same step. */
  lemma ContradictionKillsTimer(w: World, s: Step, k: nat)
    requires Inv(w) && Enabled(w, s) && Live(w, k)
    requires Disagrees(s, w.timers[k].newState)
    ensures !Live(Next(w, s), k)
  {
    assert Owned(w, k);
  }

  lemma {:induction false} RestoredTimerSoFar(row: Row, read: int, armed: int, setting: nat,
                                              run: seq<World>, steps: seq<Step>, i: nat)
    requires read <= armed && ValidRow(row, read) && row.pending.Some?
    requires IsRun(run, steps) && run[0] == Boot(Some(row), read, armed, setting)
    requires i < |run|
    ensures Inv(run[i]) && |run[i].timers| > 0
    ensures run[i].timers[0] == run[0].timers[0].(status := run[i].timers[0].status)
    ensures Live(run[i], 0) ==> forall m :: 0 <= m < i ==>
      !(steps[m].Ping? && steps[m].available == Some(row.current == Some(On)))
  {
    if i == 0 {
      BootHasInv(Some(row), read, armed, setting);
    } else {
      RestoredTimerSoFar(row, read, armed, setting, run, steps, i - 1);
      StepKeepsInv(run[i - 1], steps[i - 1]);
      TimerNeverRevives(run[i - 1], steps[i - 1], 0);
      if Live(run[i], 0) && steps[i - 1].Ping? && steps[i - 1].available == Some(row.current == Some(On)) {
        ContradictionKillsTimer(run[i - 1], steps[i - 1], 0);
      }
    }
  }

  /** The restored timer waits from the restart, for what is left of the configured
      debounce, and does not fire once a ping has reported the settled state again. */
  lemma RestartKeepsDebounce(row: Row, read: int, armed: int, setting: nat, run: seq<World>, steps: seq<Step>, i: nat)
    requires read <= armed && ValidRow(row, read) && row.pending.Some?
    requires IsRun(run, steps) && run[0] == Boot(Some(row), read, armed, setting)
    requires i < |steps| && steps[i] == Fire(0)
    ensures run[i].now >= Max(armed, row.pendingTime.value + setting)
    ensures (setting > 0 || armed >= row.pendingTime.value + MIN_STABILIZATION) ==>
      run[i].now >= row.pendingTime.value + EffectiveDelay(setting)
    ensures run[i + 1].log ==
      run[i].log + [Confirmed(run[i].now, row.pending.value, setting, row.pendingTime)]
    ensures forall m :: 0 <= m < i ==> !(steps[m].Ping? && steps[m].available == Some(row.current == Some(On)))
  {
    RestoredTimerSoFar(row, read, armed, setting, run, steps, i);
    assert Live(run[i], 0);
    assert Owned(run[i], 0);
  }

  /** The wait is as long as the one the first process began, with the debounce
      configured then, exactly when that wait is over as the timer is armed, or the
      debounce configured now, with the time the restart took, is as long.  With a
      debounce of zero the restart forgets the minimum that arming puts in. */
  lemma RestoredDueExactly(row: Row, read: int, armed: int, first: nat, setting: nat)
    requires read <= armed && ValidRow(row, read) && row.pending.Some?
    ensures Boot(Some(row), read, armed, setting).timers[0].due >= row.pendingTime.value + EffectiveDelay(first)
      <==> armed >= row.pendingTime.value + EffectiveDelay(first) || setting + (armed - read) >= EffectiveDelay(first)
  {
    assert read - row.pendingTime.value >= 0;
  }

  /** Restarted one second after a pending state was noted, with a debounce of zero,
      the state is confirmed at once, 29 seconds early. */
  lemma RestartForgetsMinimum(p: int)
    ensures var row := Row(Some(On), Some(Off), Some(p), 1);
      var w := Boot(Some(row), p + 1, p + 1, 0);
      && ValidRow(row, p + 1) && Formed(w) && Enabled(w, Fire(0))
      && w.now == p + 1 < p + EffectiveDelay(0)
      && Next(w, Fire(0)).log == w.log + [Confirmed(p + 1, Off, 0, Some(p))]
  {
  }

  function RowOf(e: Entry): Row {
    Row(e.current, e.pending, e.pendingTime, e.switchCount)
  }

  /** Whatever a flush saves, at any suspension point of any run, is a row the next
      process can restart from, and its pending state rests on a ping. */
  lemma SavedRowIsValid(row: Option<Row>, read: int, armed: int, setting: nat,
                        run: seq<World>, steps: seq<Step>, i: nat)
    requires read <= armed && (row.Some? ==> ValidRow(row.value, read))
    requires IsRun(run, steps) && run[0] == Boot(row, read, armed, setting)
    requires i < |run| && run[i].user.Some?
    ensures run[i].user.value < |run[i].entries|
    ensures forall later :: later >= run[i].now ==> ValidRow(RowOf(run[i].entries[run[i].user.value]), later)
    ensures var e := run[i].entries[run[i].user.value];
      e.pending.Some? ==> exists j: nat :: NotedAt(run[i].log, e, j)
  {
    BootHasInv(row, read, armed, setting);
    RunKeepsInv(run, steps, i);
    var w := run[i];
    var e := w.entries[w.user.value];
    assert PendingBacked(w, e);
    if e.pending.Some? {
      assert NotedAt(w.log, e, w.since);
    }
  }

  /** Across a restart: what the second process confirms from the row that the first
      one saved was pending in the first, noted there or restored already, the
      configured debounce has passed since then, and no ping disagreed up to the save,
      nor in the second process. */
  lemma DebounceSpansRestart(row: Option<Row>, read: int, armed: int, setting: nat,
                             run: seq<World>, steps: seq<Step>, i: nat,
                             read': int, armed': int, setting': nat,
                             run': seq<World>, steps': seq<Step>, i': nat)
    requires read <= armed && (row.Some? ==> ValidRow(row.value, read))
    requires IsRun(run, steps) && run[0] == Boot(row, read, armed, setting)
    requires i < |run| && HasPending(run[i])
    requires run[i].now <= read' <= armed' && IsRun(run', steps')
    requires run'[0] == Boot(Some(RowOf(EntryOf(run[i]))), read', armed', setting')
    requires i' < |steps'| && steps'[i'] == Fire(0)
    ensures NotedAt(run[i].log, EntryOf(run[i]), run[i].since)
    ensures var e := EntryOf(run[i]);
      && run'[i'].now >= e.pendingTime.value + setting'
      && run'[i' + 1].log == run'[i'].log + [Confirmed(run'[i'].now, e.pending.value, setting', e.pendingTime)]
      && forall m :: 0 <= m < i' ==> !Disagrees(steps'[m], e.pending.value)
  {
    hide IsRun, Boot, ValidRow;
    SavedRowIsValid(row, read, armed, setting, run, steps, i);
    SavedIsBacked(row, read, armed, setting, run, steps, i);
    RestartKeepsDebounce(RowOf(EntryOf(run[i])), read', armed', setting', run', steps', i');
  }

  predicate HasPending(w: World) {
    w.user.Some? && w.user.value < |w.entries| && w.entries[w.user.value].pending.Some?
  }

  function EntryOf(w: World): Entry
    requires HasPending(w)
  {
    w.entries[w.user.value]
  }

  lemma SavedIsBacked(row: Option<Row>, read: int, armed: int, setting: nat,
                      run: seq<World>, steps: seq<Step>, i: nat)
    requires read <= armed && (row.Some? ==> ValidRow(row.value, read))
    requires IsRun(run, steps) && run[0] == Boot(row, read, armed, setting)
    requires i < |run| && HasPending(run[i])
    ensures var e := EntryOf(run[i]);
      && e.current.Some? && e.pending == Some(Opposite(e.current.value)) && e.pendingTime.Some?
      && NotedAt(run[i].log, e, run[i].since)
  {
    BootHasInv(row, read, armed, setting);
    RunKeepsInv(run, steps, i);
    assert PendingBacked(run[i], EntryOf(run[i]));
  }

  // ------------------------------------- the first process after its save

  ghost predicate Disputed(log: seq<Event>, power: Power, n: nat) {
    exists k :: n <= k < |log| && log[k].Pinged? && log[k].power != power
  }

  /** A step only appends to the log, and a ping exactly when it is one with a result. */
  lemma StepAppends(w: World, s: Step) returns (more: seq<Event>)
    requires Formed(w) && Enabled(w, s)
    ensures Next(w, s).log == w.log + more
    ensures if s.Ping? && s.available.Some?
      then |more| > 0 && more[0] == Pinged(w.now, if s.available.value then On else Off)
        && forall k :: 0 < k < |more| ==> !more[k].Pinged?
      else forall k :: 0 <= k < |more| ==> !more[k].Pinged?
  {
    more := Next(w, s).log[|w.log|..];
  }

  lemma StepDisputesExactly(w: World, s: Step, power: Power, n: nat)
    requires Formed(w) && Enabled(w, s) && n <= |w.log|
    ensures w.log <= Next(w, s).log
    ensures Disputed(Next(w, s).log, power, n) <==> Disputed(w.log, power, n) || Disagrees(s, power)
  {
    hide Next, Enabled, Formed;
    var more := StepAppends(w, s);
    var l := w.log + more;
    if Disputed(w.log, power, n) {
      var k :| n <= k < |w.log| && w.log[k].Pinged? && w.log[k].power != power;
      assert l[k].Pinged?;
    }
    if s.Ping? && s.available.Some? { assert l[|w.log|] == more[0]; }
    assert forall k :: 0 <= k < |w.log| ==> l[k] == w.log[k];
    assert forall k :: 0 <= k < |more| ==> l[|w.log| + k] == more[k];
  }

  /** The pings that a process logs after a save disagree with the saved pending state
      exactly when some step after the save is such a ping: the save shuts none out,
      and none is taken back. */
  lemma {:induction false} DisputedExactly(run: seq<World>, steps: seq<Step>, i: nat, n: nat, power: Power)
    requires IsRun(run, steps) && i <= n <= |steps|
    ensures run[i].log <= run[n].log
    ensures Disputed(run[n].log, power, |run[i].log|) <==> exists m :: i <= m < n && Disagrees(steps[m], power)
    decreases n
  {
    hide Next, Enabled, Formed, Disputed, Disagrees;
    if i < n {
      DisputedExactly(run, steps, i, n - 1, power);
      StepDisputesExactly(run[n - 1], steps[n - 1], power, |run[i].log|);
    } else {
      NotYetDisputed(run[i].log, power);
    }
  }

  lemma NotYetDisputed(log: seq<Event>, power: Power)
    ensures !Disputed(log, power, |log|)
  {
  }

  /** The pending state noted at log[j] was confirmed: what follows are agreeing pings
      and then the confirmation. */
  ghost predicate Settled(log: seq<Event>, j: nat, power: Power) {
    exists c :: j < c < |log| && log[c].Confirmed? && OnlyAgree(log, j, c, power)
  }

  ghost predicate OnlyAgree(log: seq<Event>, j: nat, c: nat, power: Power)
    requires c <= |log|
  {
    forall k :: j < k < c ==> log[k].Pinged? && log[k].power == power
  }

  /** Or it was given up: an eviction or a ping that disagrees came first. */
  ghost predicate GivenUp(log: seq<Event>, j: nat, power: Power) {
    exists c :: j < c < |log| && !log[c].Confirmed? && !(log[c].Pinged? && log[c].power == power)
      && OnlyAgree(log, j, c, power)
  }

  /** The timer of the pending state: the stored one, or the one about to be made. */
  function TimerOf(w: World): nat
    requires HasPending(w)
  {
    if EntryOf(w).task.Some? then EntryOf(w).task.value else |w.timers|
  }

  /** Still pending since log[j], with timer t live or about to be made. */
  ghost predicate Waits(w: World, j: nat, power: Power, t: nat) {
    && HasPending(w) && EntryOf(w).pending == Some(power) && w.since == j < |w.log|
    && TimerOf(w) == t && (Live(w, t) || (w.arming.Some? && t == |w.timers|))
    && OnlyAgree(w.log, j, |w.log|, power)
  }

  /** Over, one way or the other, and the timer dead. */
  ghost predicate Over(w: World, j: nat, power: Power, t: nat) {
    t < |w.timers| && !Live(w, t) && (Settled(w.log, j, power) <==> !GivenUp(w.log, j, power))
  }

  lemma PendingWaits(w: World)
    requires Inv(w) && HasPending(w)
    ensures Waits(w, w.since, EntryOf(w).pending.value, TimerOf(w))
  {
    assert PendingBacked(w, EntryOf(w));
  }

  lemma Extends(log: seq<Event>, more: seq<Event>, j: nat, power: Power)
    requires j < |log|
    ensures Settled(log, j, power) ==> Settled(log + more, j, power)
    ensures GivenUp(log, j, power) ==> GivenUp(log + more, j, power)
    ensures !(Settled(log, j, power) && GivenUp(log, j, power))
  {
    var l := log + more;
    if Settled(log, j, power) {
      var c :| j < c < |log| && log[c].Confirmed? && OnlyAgree(log, j, c, power);
      assert l[c] == log[c] && OnlyAgree(l, j, c, power);
    }
    if GivenUp(log, j, power) {
      var c :| j < c < |log| && !log[c].Confirmed? && !(log[c].Pinged? && log[c].power == power)
        && OnlyAgree(log, j, c, power);
      assert l[c] == log[c] && OnlyAgree(l, j, c, power);
    }
  }

  lemma SettlesNow(log: seq<Event>, e: Event, j: nat, power: Power)
    requires j < |log| && OnlyAgree(log, j, |log|, power) && !(e.Pinged? && e.power == power)
    ensures Settled(log + [e], j, power) <==> e.Confirmed?
    ensures GivenUp(log + [e], j, power) <==> !e.Confirmed?
  {
    var l := log + [e];
    assert l[|log|] == e && OnlyAgree(l, j, |log|, power);
    assert forall k :: j < k < |log| ==> l[k] == log[k];
  }

  lemma NotYetSettled(log: seq<Event>, j: nat, power: Power)
    requires j < |log| && OnlyAgree(log, j, |log|, power)
    ensures !Settled(log, j, power)
  {
  }

  lemma FireEndsWait(w: World, j: nat, power: Power, t: nat)
    requires Inv(w) && Enabled(w, Fire(t)) && Waits(w, j, power, t)
    ensures Over(Next(w, Fire(t)), j, power, t) && Settled(Next(w, Fire(t)).log, j, power)
  {
    hide Settled, GivenUp, Sound, Alternates, LastSettled;
    assert Owned(w, t);
    var e := EntryOf(w);
    SettlesNow(w.log, Confirmed(w.now, power, w.timers[t].delay, e.pendingTime), j, power);
  }

  lemma GivingUpEndsWait(w: World, s: Step, j: nat, power: Power, t: nat)
    requires Inv(w) && Enabled(w, s) && Waits(w, j, power, t) && (s.Evict? || Disagrees(s, power))
    ensures Over(Next(w, s), j, power, t) && !Settled(Next(w, s).log, j, power)
  {
    hide Settled, GivenUp, Sound, Alternates, LastSettled;
    assert Owned(w, t);
    SettlesNow(w.log, if s.Evict? then Evicted(w.now) else Pinged(w.now, Opposite(power)), j, power);
  }

  lemma OthersKeepWaiting(w: World, s: Step, j: nat, power: Power, t: nat)
    requires Inv(w) && Enabled(w, s) && Waits(w, j, power, t)
    requires !s.Evict? && !Disagrees(s, power) && s != Fire(t)
    ensures Waits(Next(w, s), j, power, t)
  {
    hide Sound, Alternates, LastSettled;
    forall k | Live(w, k) ensures k == t { assert Owned(w, k); }
  }

  lemma OverStaysOver(w: World, s: Step, j: nat, power: Power, t: nat)
    requires Inv(w) && Enabled(w, s) && Over(w, j, power, t) && j < |w.log|
    ensures s != Fire(t) && Over(Next(w, s), j, power, t) && j < |Next(w, s).log|
    ensures Settled(Next(w, s).log, j, power) <==> Settled(w.log, j, power)
  {
    hide Settled, GivenUp, Sound, Alternates, LastSettled;
    LogNeverShrinks(w, s);
    var l, l' := w.log, Next(w, s).log;
    assert l' == l + l'[|l|..];
    Extends(l, l'[|l|..], j, power);
    Extends(l', [], j, power);
    TimerNeverRevives(w, s, t);
  }

  /** The pending state of run[i] is confirmed by the process itself, up to any later
      point, exactly when its timer fires up to then; until then it waits, unless an
      eviction or a ping that disagrees ends it. */
  lemma {:induction false} SettledExactly(run: seq<World>, steps: seq<Step>, i: nat, n: nat)
    requires IsRun(run, steps) && Inv(run[0]) && i <= n <= |steps| && HasPending(run[i])
    ensures var j, power, t := run[i].since, EntryOf(run[i]).pending.value, TimerOf(run[i]);
      && j < |run[n].log|
      && (Settled(run[n].log, j, power) <==> exists m :: i <= m < n && steps[m] == Fire(t))
      && (if exists m :: i <= m < n && (steps[m] == Fire(t) || steps[m].Evict? || Disagrees(steps[m], power))
          then Over(run[n], j, power, t) else Waits(run[n], j, power, t))
    decreases n
  {
    hide Inv, Enabled, Next, Disagrees, Settled, Over, Waits, TimerOf;
    var j, power, t := run[i].since, EntryOf(run[i]).pending.value, TimerOf(run[i]);
    RunKeepsInv(run, steps, i);
    if i == n {
      PendingWaits(run[i]);
      WaitsUnsettled(run[i], j, power, t);
    } else {
      var w, s := run[n - 1], steps[n - 1];
      SettledExactly(run, steps, i, n - 1);
      RunKeepsInv(run, steps, n - 1);
      if exists m :: i <= m < n - 1 && (steps[m] == Fire(t) || steps[m].Evict? || Disagrees(steps[m], power)) {
        OverStaysOver(w, s, j, power, t);
      } else if s == Fire(t) {
        FireEndsWait(w, j, power, t);
        LogNeverShrinks(w, s);
      } else if s.Evict? || Disagrees(s, power) {
        GivingUpEndsWait(w, s, j, power, t);
        LogNeverShrinks(w, s);
      } else {
        OthersKeepWaiting(w, s, j, power, t);
        WaitsUnsettled(run[n], j, power, t);
      }
    }
  }

  lemma LogNeverShrinks(w: World, s: Step)
    requires Inv(w) && Enabled(w, s)
    ensures w.log <= Next(w, s).log
  {
    StepDisputesExactly(w, s, On, 0);
  }

  lemma WaitsUnsettled(w: World, j: nat, power: Power, t: nat)
    requires Waits(w, j, power, t)
    ensures j < |w.log| && !Settled(w.log, j, power)
  {
    NotYetSettled(w.log, j, power);
  }

  /** What the saving process does after the save, which the next one cannot see.  A
      ping that disagrees with the saved pending state is logged after the save exactly
      when some later step is one; and the change is confirmed by the saving process
      too, so twice if the next one confirms it, exactly when its timer fires there. */
  lemma AfterSaveExactly(row: Option<Row>, read: int, armed: int, setting: nat,
                         run: seq<World>, steps: seq<Step>, i: nat)
    requires read <= armed && (row.Some? ==> ValidRow(row.value, read))
    requires IsRun(run, steps) && run[0] == Boot(row, read, armed, setting)
    requires i <= |steps| && HasPending(run[i])
    ensures var power, log := EntryOf(run[i]).pending.value, run[|steps|].log;
      && (Disputed(log, power, |run[i].log|) <==> exists m :: i <= m < |steps| && Disagrees(steps[m], power))
      && (Settled(log, run[i].since, power) <==> exists m :: i <= m < |steps| && steps[m] == Fire(TimerOf(run[i])))
  {
    hide Disputed, Disagrees, Settled, TimerOf, Boot, ValidRow;
    BootHasInv(row, read, armed, setting);
    DisputedExactly(run, steps, i, |steps|, EntryOf(run[i]).pending.value);
    SettledExactly(run, steps, i, |steps|);
  }

  /** The first process sees power, then none, arms, and is saved there. */
  function ToSave(d: nat): seq<Step> { [Ping(Some(true), None), Ping(Some(false), None), Arm(d)] }

  const SEEDED: Entry := Entry(Some(On), None, None, None, None, false, 0)

  function PendingOff(task: Option<nat>): Entry { Entry(Some(On), Some(Off), Some(0), Some(0), task, false, 1) }

  function RunToSave(d: nat): seq<World> {
    var seen := [Pinged(0, On), Seeded(0, On)];
    var lost := seen + [Pinged(0, Off)];
    [World(0, [], None, [], None, [], 0),
     World(0, [SEEDED], Some(0), [], None, seen, 0),
     World(0, [PendingOff(None)], Some(0), [], Some(Arming(0, Off)), lost, 2),
     World(0, [PendingOff(Some(0))], Some(0), [Timer(Dict(0), Off, d, d, Sleeping)], None, lost, 2)]
  }

  lemma RunToSaveIsRun(d: nat)
    requires d > 0
    ensures IsRun(RunToSave(d), ToSave(d)) && RunToSave(d)[0] == Boot(None, 0, 0, d)
  {
    var run, steps := RunToSave(d), ToSave(d);
    assert Enabled(run[0], steps[0]) && run[1] == Next(run[0], steps[0]);
    assert Enabled(run[1], steps[1]) && run[2] == Next(run[1], steps[1]);
    assert Enabled(run[2], steps[2]) && run[3] == Next(run[2], steps[2]);
  }

  /** The next process, started once the debounce is over, confirms what was saved. */
  lemma SavedOffIsConfirmed(d: nat, n: int)
    requires 0 < d <= n
    ensures var w := Boot(Some(RowOf(PendingOff(Some(0)))), n, n, d);
      Formed(w) && Enabled(w, Fire(0)) && Next(w, Fire(0)).log == w.log + [Confirmed(n, Off, d, Some(0))]
  {
  }

  /** A ping of the saving process after its save cancels the pending state there, and
      the next process confirms it all the same. */
  lemma RestartOverlooksPing(d: nat, wait: nat, n: int) returns (run: seq<World>, steps: seq<Step>)
    requires wait < d <= n
    ensures steps == ToSave(d) + [Tick(wait), Ping(Some(true), None)]
    ensures IsRun(run, steps) && run[0] == Boot(None, 0, 0, d)
    ensures HasPending(run[3]) && EntryOf(run[3]) == PendingOff(Some(0)) && Disagrees(steps[4], Off)
    ensures run[5].user == Some(0) && !HasPending(run[5]) && |run[5].timers| == 1 && !Live(run[5], 0)
    ensures var w := Boot(Some(RowOf(EntryOf(run[3]))), n, n, d);
      Formed(w) && Enabled(w, Fire(0)) && Next(w, Fire(0)).log == w.log + [Confirmed(n, Off, d, Some(0))]
  {
    RunToSaveIsRun(d);
    SavedOffIsConfirmed(d, n);
    var w3 := RunToSave(d)[3];
    var w4 := Next(w3, Tick(wait));
    var w5 := Next(w4, Ping(Some(true), None));
    run, steps := RunToSave(d) + [w4, w5], ToSave(d) + [Tick(wait), Ping(Some(true), None)];
  }

  /** The saving process confirms the pending state after its save, and the next
      process confirms the same change again. */
  lemma RestartConfirmsTwice(d: nat, n: int) returns (run: seq<World>, steps: seq<Step>)
    requires 0 < d <= n
    ensures steps == ToSave(d) + [Tick(d), Fire(0)]
    ensures IsRun(run, steps) && run[0] == Boot(None, 0, 0, d)
    ensures HasPending(run[3]) && EntryOf(run[3]) == PendingOff(Some(0)) && TimerOf(run[3]) == 0
    ensures run[5].log == run[3].log + [Confirmed(d, Off, d, Some(0))]
    ensures var w := Boot(Some(RowOf(EntryOf(run[3]))), n, n, d);
      Formed(w) && Enabled(w, Fire(0)) && Next(w, Fire(0)).log == w.log + [Confirmed(n, Off, d, Some(0))]
  {
    RunToSaveIsRun(d);
    SavedOffIsConfirmed(d, n);
    var w3 := RunToSave(d)[3];
    var w4 := Next(w3, Tick(d));
    var w5 := Next(w4, Fire(0));
    run, steps := RunToSave(d) + [w4, w5], ToSave(d) + [Tick(d), Fire(0)];
  }

  // -------------------------------------------- the state from the history

  /** What is known of a user: the settled state, and what is pending since when. */
  datatype Reading = Unknown | Known(settled: Power, pending: Option<Power>, noted: Option<int>, switches: nat)

  /** The reading of a history, with no entries, timers or suspended checks: a ping that
      differs from the settled state is pending from then on, until a ping of the
      settled state, and every change of mind counts. */
  function Read(log: seq<Event>): Reading {
    if log == [] then Unknown
    else
      var n := |log| - 1;
      var r := Read(log[..n]);
      match log[n]
      case Restored(_, power, pending, pendingTime, switches) => Known(power, pending, pendingTime, switches)
      case Seeded(_, power) => Known(power, None, None, 0)
      case Confirmed(_, power, _, _) => Known(power, None, None, if r.Known? then r.switches else 0)
      case Evicted(_) => Unknown
      case Pinged(time, power) =>
        if r.Unknown? then r
        else if power == r.settled then
          if r.pending.Some? then Known(power, None, None, r.switches + 1) else r
        else if r.pending.Some? then r
        else Known(r.settled, Some(power), Some(time), 1)
  }

  ghost predicate Follows(w: World) {
    match Read(w.log)
    case Unknown => w.user.None?
    case Known(settled, pending, noted, switches) =>
      && w.user.Some? && w.user.value < |w.entries|
      && var e := w.entries[w.user.value];
         e.current == Some(settled) && e.pending == pending && e.pendingTime == noted && e.switchCount == switches
  }

  lemma ReadAppend(log: seq<Event>, e: Event)
    ensures (log + [e])[..|log|] == log && (log + [e])[|log|] == e && |log + [e]| - 1 == |log|
  {
  }

  lemma FirstPingFollows(w: World, available: bool, seed: Option<Power>)
    requires Inv(w) && Follows(w) && w.arming.None? && w.user.None?
    ensures Follows(PingStep(w, Some(available), seed))
  {
    hide Sound, Alternates, LastSettled, NotedAt, Owned;
    var power := if available then On else Off;
    var ping := Pinged(w.now, power);
    ReadAppend(w.log, ping);
    ReadAppend(w.log + [ping], Seeded(w.now, if seed.Some? then seed.value else power));
  }

  lemma LaterPingFollows(w: World, available: bool, seed: Option<Power>)
    requires Inv(w) && Follows(w) && w.arming.None? && w.user.Some?
    ensures Follows(PingStep(w, Some(available), seed))
  {
    hide Sound, Alternates, LastSettled, NotedAt, Owned;
    ReadAppend(w.log, Pinged(w.now, if available then On else Off));
  }

  lemma StepFollows(w: World, s: Step)
    requires Inv(w) && Follows(w) && Enabled(w, s)
    ensures Follows(Next(w, s))
  {
    hide Sound, Alternates, LastSettled, NotedAt;
    match s
    case Tick(_) =>
    case Arm(_) =>
    case Ping(a, seed) =>
      hide PingStep;
      if a.Some? {
        if w.user.None? { FirstPingFollows(w, a.value, seed); } else { LaterPingFollows(w, a.value, seed); }
      } else {
        assert Next(w, s) == w by { NoResultNoStep(w, seed); }
      }
    case Fire(k) =>
      assert Owned(w, k);
      ReadAppend(w.log, Confirmed(w.now, w.timers[k].newState, w.timers[k].delay, EntryOf(w).pendingTime));
    case Evict => ReadAppend(w.log, Evicted(w.now));
  }

  lemma NoResultNoStep(w: World, seed: Option<Power>)
    requires Formed(w)
    ensures PingStep(w, None, seed) == w
  {
  }

  /** Main result: at every point of every run the user's entry is what the history of
      pings, confirmations and evictions reads as. */
  lemma {:induction false} StateFollowsHistory(row: Option<Row>, read: int, armed: int, setting: nat,
                                               run: seq<World>, steps: seq<Step>, i: nat)
    requires read <= armed && (row.Some? ==> ValidRow(row.value, read))
    requires IsRun(run, steps) && run[0] == Boot(row, read, armed, setting)
    requires i < |run|
    ensures Inv(run[i]) && Follows(run[i])
  {
    hide Inv, Follows, Next, Enabled, Boot, ValidRow;
    BootHasInv(row, read, armed, setting);
    if i == 0 {
      BootFollows(row, read, armed, setting);
    } else {
      StateFollowsHistory(row, read, armed, setting, run, steps, i - 1);
      StepKeepsInv(run[i - 1], steps[i - 1]);
      StepFollows(run[i - 1], steps[i - 1]);
    }
  }

  lemma BootFollows(row: Option<Row>, read: int, armed: int, setting: nat)
    requires row.Some? ==> ValidRow(row.value, read)
    ensures Follows(Boot(row, read, armed, setting))
  {
  }

  /** What each step adds to the history: nothing, or exactly what happened. */
  lemma HistoryExactly(w: World, s: Step)
    requires Inv(w) && Follows(w) && Enabled(w, s)
    ensures match s
      case Tick(_) => Next(w, s).log == w.log
      case Arm(_) => Next(w, s).log == w.log
      case Ping(None, _) => Next(w, s).log == w.log
      case Ping(Some(a), seed) =>
        var power := if a then On else Off;
        var start := if seed.Some? then seed.value else power;
        Next(w, s).log == w.log + [Pinged(w.now, power)] + (if Read(w.log).Unknown? then [Seeded(w.now, start)] else [])
      case Fire(k) =>
        && Read(w.log).Known? && Read(w.log).pending == Some(w.timers[k].newState)
        && Next(w, s).log == w.log + [Confirmed(w.now, w.timers[k].newState, w.timers[k].delay, Read(w.log).noted)]
      case Evict => Next(w, s).log == w.log + if Read(w.log).Unknown? then [] else [Evicted(w.now)]
  {
    hide Sound, Alternates, LastSettled, NotedAt, Read;
    if s.Fire? { assert Owned(w, s.timer); }
  }

  /** A ping of a registered user, whatever came before it: if it agrees with the last
      settled state nothing is pending and no timer lives; if not, its state is pending,
      noted now and about to get its timer unless it was pending already. */
  lemma PingDecides(row: Option<Row>, read: int, armed: int, setting: nat, run: seq<World>, steps: seq<Step>, i: nat)
    requires read <= armed && (row.Some? ==> ValidRow(row.value, read))
    requires IsRun(run, steps) && run[0] == Boot(row, read, armed, setting)
    requires i < |steps| && steps[i].Ping? && steps[i].available.Some? && run[i].user.Some?
    ensures var w, w', power := run[i], run[i + 1], if steps[i].available.value then On else Off;
      && w'.user == w.user
      && (LastSettled(w.log, power) ==> !HasPending(w') && forall k :: !Live(w', k))
      && (!LastSettled(w.log, power) ==> HasPending(w') && EntryOf(w').pending == Some(power))
      && (!LastSettled(w.log, power) && HasPending(w) ==>
            w'.entries == w.entries && w'.timers == w.timers && w'.arming == w.arming)
      && (!LastSettled(w.log, power) && !HasPending(w) ==>
            && EntryOf(w').pendingTime == Some(w.now) && w'.since == |w.log|
            && w'.arming == Some(Arming(w.user.value, power)))
  {
    StateFollowsHistory(row, read, armed, setting, run, steps, i);
    StateFollowsHistory(row, read, armed, setting, run, steps, i + 1);
    PingDecidesHere(run[i], steps[i].available.value, steps[i].seed);
  }

  lemma SettledOnce(log: seq<Event>, p: Power, q: Power)
    requires LastSettled(log, p) && LastSettled(log, q)
    ensures p == q
  {
    var i :| 0 <= i < |log| && Settles(log[i]) && log[i].power == p && forall k :: i < k < |log| ==> !Settles(log[k]);
    var j :| 0 <= j < |log| && Settles(log[j]) && log[j].power == q && forall k :: j < k < |log| ==> !Settles(log[k]);
    assert i == j;
  }

  lemma PingDecidesHere(w: World, available: bool, seed: Option<Power>)
    requires Inv(w) && w.arming.None? && w.user.Some? && Inv(PingStep(w, Some(available), seed))
    ensures var w', power := PingStep(w, Some(available), seed), if available then On else Off;
      && w'.user == w.user
      && (LastSettled(w.log, power) ==> !HasPending(w') && forall k :: !Live(w', k))
      && (!LastSettled(w.log, power) ==> HasPending(w') && EntryOf(w').pending == Some(power))
      && (!LastSettled(w.log, power) && HasPending(w) ==>
            w'.entries == w.entries && w'.timers == w.timers && w'.arming == w.arming)
      && (!LastSettled(w.log, power) && !HasPending(w) ==>
            && EntryOf(w').pendingTime == Some(w.now) && w'.since == |w.log|
            && w'.arming == Some(Arming(w.user.value, power)))
  {
    hide Sound, Alternates, NotedAt, LastSettled;
    var w', power := PingStep(w, Some(available), seed), if available then On else Off;
    var current := w.entries[w.user.value].current.value;
    if LastSettled(w.log, power) { SettledOnce(w.log, power, current); }
    if current == power {
      assert forall k :: 0 <= k < |w'.timers| && w'.timers[k].status == Sleeping ==> Owned(w', k);
    }
  }

  /** The timer is due exactly the configured debounce after it is armed, or 30 seconds if
      none is configured; pings that agree do not put it off. */
  lemma ArmedDueExactly(row: Option<Row>, read: int, armed: int, setting: nat,
                        run: seq<World>, steps: seq<Step>, i: nat, n: nat)
    requires read <= armed && (row.Some? ==> ValidRow(row.value, read))
    requires IsRun(run, steps) && run[0] == Boot(row, read, armed, setting)
    requires i < n < |run| && steps[i].Arm? && HasPending(run[i])
    requires forall m :: i < m < n ==> Agreeing(steps[m], EntryOf(run[i]).pending.value)
    ensures var k, wait := |run[i].timers|, if steps[i].setting == 0 then 30 else steps[i].setting;
      Enabled(run[n], Fire(k)) <==> run[n].now >= run[i].now + wait
  {
    StateFollowsHistory(row, read, armed, setting, run, steps, i);
    StateFollowsHistory(row, read, armed, setting, run, steps, i + 1);
    StaysArmed(run, steps, i + 1, n, |run[i].timers|);
  }

  lemma {:induction false} StaysArmed(run: seq<World>, steps: seq<Step>, i: nat, n: nat, k: nat)
    requires IsRun(run, steps) && i <= n < |run| && Inv(run[i]) && Live(run[i], k) && run[i].arming.None?
    requires forall m :: i <= m < n ==> Agreeing(steps[m], run[i].timers[k].newState)
    ensures Inv(run[n]) && run[n].timers == run[i].timers && run[n].arming.None?
    decreases n
  {
    hide Next, Agreeing, Sound, Alternates, LastSettled, PendingBacked, Owned;
    if i < n {
      StaysArmed(run, steps, i, n - 1, k);
      StepKeepsInv(run[n - 1], steps[n - 1]);
      AgreeingStepKeeps(run[n - 1], steps[n - 1], k);
    }
  }

  // ----------------------------------------------------------- the monitor

  /** The monitor's state for one id, changed in place. */
  class Monitor {
    var entries: seq<Entry>
    var user: Option<nat>
    var timers: seq<Timer>
    var arming: Option<Arming>
    ghost var log: seq<Event>
    ghost var since: nat

    ghost function State(now: int): World
      reads this
    {
      World(now, entries, user, timers, arming, log, since)
    }

    /** Loads the saved row, if any, and restarts its pending debounce. */
    constructor (row: Option<Row>, read: int, armed: int, setting: nat)
      ensures State(armed) == Boot(row, read, armed, setting)
    {
      entries, user, timers, arming := [], None, [], None;
      log, since := [], 0;
      if row.Some? {
        var s := row.value;
        entries := [Entry(s.current, s.pending, s.pendingTime, s.pendingTime, None, false, s.switchCount)];
        user := Some(0);
        var power := if s.current.Some? then s.current.value else Off;
        log := [Restored(armed, power, s.pending, s.pendingTime, s.switchCount)];
        if s.pending.Some? {
          var remaining: int := setting;
          if s.pendingTime.Some? {
            var elapsed := read - s.pendingTime.value;
            remaining := Max(0, setting - elapsed);
          }
          timers := [Timer(Lookup(s.pendingTime), s.pending.value, setting, armed + remaining, Sleeping)];
          entries := [Entry(s.current, s.pending, s.pendingTime, s.pendingTime, Some(0), false, s.switchCount)];
        }
      }
    }

    method GetUserState(now: int) returns (r: nat)
      modifies this
      ensures State(now) == Lookup0(old(State(now))) && user == Some(r)
    {
      if user.None? {
        user := Some(|entries|);
        entries := entries + [FRESH];
      }
      r := user.value;
    }

    method CancelDebounce(now: int, r: nat)
      requires r < |entries|
      modifies this
      ensures State(now) == CancelTimer(old(State(now)), r)
    {
      var task := entries[r].task;
      if task.Some? && task.value < |timers| && timers[task.value].status == Sleeping {
        timers := timers[task.value := timers[task.value].(status := Cancelled)];
        entries := entries[r := entries[r].(task := None)];
      }
    }

    method CheckUserPower(now: int, available: Option<bool>, seed: Option<Power>)
      requires Formed(State(now)) && arming.None?
      modifies this
      ensures State(now) == PingStep(old(State(now)), available, seed)
    {
      if available.None? {
        return;
      }
      var r := GetUserState(now);
      var newState := if available.value then On else Off;
      ghost var at := |log|;
      log := log + [Pinged(now, newState)];
      if entries[r].firstCheck {
        var start := if seed.Some? then seed.value else newState;
        entries := entries[r := entries[r].(current := Some(start), firstCheck := false)];
        log := log + [Seeded(now, start)];
        return;
      }
      if entries[r].current == Some(newState) {
        if entries[r].pending.Some? && entries[r].pending != Some(newState) {
          CancelDebounce(now, r);
          entries := entries[r := entries[r].(switchCount := entries[r].switchCount + 1,
            pending := None, pendingTime := None, changeTime := None)];
        }
        return;
      }
      if entries[r].pending == Some(newState) {
        return;
      }
      CancelDebounce(now, r);
      var switches := if entries[r].pending.None? then 1 else entries[r].switchCount + 1;
      entries := entries[r := entries[r].(switchCount := switches,
        pending := Some(newState), pendingTime := Some(now), changeTime := Some(now))];
      arming := Some(Arming(r, newState));
      since := at;
    }

    method ArmDebounce(now: int, setting: nat)
      requires Formed(State(now)) && arming.Some?
      modifies this
      ensures State(now) == ArmStep(old(State(now)), setting)
    {
      var delay := setting;
      if delay == 0 {
        delay := MIN_STABILIZATION;
      }
      var a := arming.value;
      entries := entries[a.index := entries[a.index].(task := Some(|timers|))];
      timers := timers + [Timer(Dict(a.index), a.newState, delay, now + delay, Sleeping)];
      arming := None;
    }

    method ConfirmState(now: int, k: nat)
      requires Formed(State(now)) && k < |timers| && timers[k].status == Sleeping && timers[k].due <= now
      modifies this
      ensures State(now) == FireStep(old(State(now)), k)
    {
      var t := timers[k];
      timers := timers[k := t.(status := Done)];
      var r := 0;
      var origin := None;
      match t.capture {
        case Dict(index) =>
          r := index;
          origin := entries[r].changeTime;
        case Lookup(saved) =>
          if user.None? || entries[user.value].pending != Some(t.newState) {
            return;
          }
          r := user.value;
          origin := saved;
      }
      entries := entries[r := entries[r].(current := Some(t.newState), task := None,
        pending := None, pendingTime := None, changeTime := None)];
      log := log + [Confirmed(now, t.newState, t.delay, origin)];
    }

    method EvictEntry(now: int)
      requires Formed(State(now)) && arming.None?
      modifies this
      ensures State(now) == EvictStep(old(State(now)))
    {
      if user.Some? {
        var task := entries[user.value].task;
        user := None;
        if task.Some? && task.value < |timers| && timers[task.value].status == Sleeping {
          timers := timers[task.value := timers[task.value].(status := Cancelled)];
        }
        log := log + [Evicted(now)];
      }
    }
  }
}
