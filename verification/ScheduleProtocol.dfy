/**
 The schedule change protocol of one (region, queue) pair: the periodic checker,
 the quiet-hours queue and the 06:00 flush, with the tables they share.

 Checks and flushes run under one lock, so each is one step.  Times are seconds,
 days are numbered, and a hash is the event list it was computed from, that is,
 hashing is taken to be injective.
 */
module ScheduleProtocol {
  import opened Wrappers

  const DAY: int := 86400
  const QUIET_UNTIL: int := 6 * 3600
  const PURGE_AFTER: int := 48 * 3600

  datatype Stamp = Stamp(day: int, minute: int)
  datatype Event = Event(start: Stamp, end: Stamp, possible: bool)
  datatype Key = Key(start: Stamp, end: Stamp)
  datatype Hash = Hash(events: seq<Event>)
  datatype Changes = Changes(added: seq<Event>, removed: seq<Event>)

  datatype Report = Report(
    todayUpdated: bool, tomorrowAppeared: bool, tomorrowUpdated: bool, tomorrowCancelled: bool,
    todayUnchanged: bool, dailyPlanned: bool, initial: bool, changes: Changes)

  datatype Snapshot = Snapshot(events: seq<Event>, todayHash: Option<Hash>, tomorrowHash: Option<Hash>)
  datatype Row = Row(events: seq<Event>, report: Report, createdAt: int, sent: bool)
  datatype Message = Message(events: seq<Event>, report: Report, asDailyPlanned: bool)

  datatype Pair = Pair(clock: int, lastHash: Option<Hash>, snapshots: map<int, Snapshot>,
                       rows: seq<Row>, sent: seq<Message>)

  const NO_CHANGES: Changes := Changes([], [])
  const NO_REPORT: Report := Report(false, false, false, false, false, false, false, NO_CHANGES)

  function DayOf(now: int): int { now / DAY }

  predicate QuietHours(now: int) { now % DAY < QUIET_UNTIL }

  // ------------------------------------------------------- events and keys

  function KeyOf(e: Event): Key { Key(e.start, e.end) }

  function Keys(es: seq<Event>): set<Key> { set e | e in es :: KeyOf(e) }

  function ForDate(es: seq<Event>, day: int): seq<Event> {
    if es == [] then []
    else (if es[0].start.day == day then [es[0]] else []) + ForDate(es[1..], day)
  }

  function Without(es: seq<Event>, keys: set<Key>): seq<Event> {
    if es == [] then []
    else (if KeyOf(es[0]) in keys then [] else [es[0]]) + Without(es[1..], keys)
  }

  /** Appends the events whose key is not there yet, one by one. */
  function AppendNew(es: seq<Event>, more: seq<Event>): seq<Event>
    decreases more
  {
    if more == [] then es
    else AppendNew(if KeyOf(more[0]) in Keys(es) then es else es + [more[0]], more[1..])
  }

  function DateHash(es: seq<Event>, day: int): Option<Hash> {
    if ForDate(es, day) == [] then None else Some(Hash(ForDate(es, day)))
  }

  function ComputeChanges(before: seq<Event>, after: seq<Event>): Changes {
    Changes(Without(after, Keys(before)), Without(before, Keys(after)))
  }

  function MergeTomorrow(c: Changes, es: seq<Event>, tomorrow: int): Changes {
    c.(added := c.added + Without(ForDate(es, tomorrow), Keys(c.added)))
  }

  function MakeSnapshot(es: seq<Event>, day: int): Snapshot {
    Snapshot(es, DateHash(es, day), DateHash(es, day + 1))
  }

  // ----------------------------------------------------------- the report

  /** What changed on one day, where `updated` says that its hash did. */
  function DayChanges(updated: bool, before: seq<Event>, after: seq<Event>, day: int): Changes {
    if updated then ComputeChanges(ForDate(before, day), ForDate(after, day)) else NO_CHANGES
  }

  function JoinChanges(c: Changes, t: Changes): Changes {
    Changes(AppendNew(c.added, t.added), c.removed + t.removed)
  }

  /** First check of the day: today is compared with what yesterday's snapshot
      said about tomorrow, and any tomorrow is new. */
  function FirstReport(yesterday: Option<Snapshot>, es: seq<Event>, today: int): Report {
    var updated := yesterday.Some? && yesterday.value.tomorrowHash != DateHash(es, today);
    var c := if yesterday.Some? then DayChanges(updated, yesterday.value.events, es, today) else NO_CHANGES;
    var appeared := DateHash(es, today + 1).Some?;
    NO_REPORT.(
      todayUpdated := updated,
      tomorrowAppeared := appeared,
      todayUnchanged := appeared && !updated && yesterday.Some?,
      changes := if appeared then MergeTomorrow(c, es, today + 1) else c)
  }

  /** Later checks: both days are compared with the snapshot. */
  function LaterReport(s: Snapshot, es: seq<Event>, today: int): Report {
    var updated := s.todayHash != DateHash(es, today);
    var c := DayChanges(updated, s.events, es, today);
    var new1 := DateHash(es, today + 1);
    var appeared := s.tomorrowHash.None? && new1.Some?;
    var changed := s.tomorrowHash.Some? && new1 != s.tomorrowHash;
    NO_REPORT.(
      todayUpdated := updated,
      tomorrowAppeared := appeared,
      tomorrowCancelled := changed && new1.None?,
      tomorrowUpdated := changed && new1.Some?,
      todayUnchanged := (appeared || changed) && !updated,
      changes := if appeared then MergeTomorrow(c, es, today + 1)
                 else if changed then JoinChanges(c, DayChanges(true, s.events, es, today + 1))
                 else c)
  }

  function At(m: map<int, Snapshot>, day: int): Option<Snapshot> {
    if day in m then Some(m[day]) else None
  }

  predicate Quietly(r: Report) {
    !r.todayUpdated && !r.tomorrowAppeared && !r.tomorrowUpdated && !r.tomorrowCancelled && !r.todayUnchanged
  }

  function Labelled(r: Report, isInitial: bool): Report {
    r.(dailyPlanned := Quietly(r) && !isInitial, initial := isInitial)
  }

  function ReportFor(p: Pair, es: seq<Event>, today: int): Report {
    var r := if today in p.snapshots then LaterReport(p.snapshots[today], es, today)
             else FirstReport(At(p.snapshots, today - 1), es, today);
    Labelled(r, p.lastHash.None?)
  }

  // -------------------------------------------------------------- the steps

  function MarkAllSent(rows: seq<Row>): (r: seq<Row>)
    ensures |r| == |rows|
  {
    if rows == [] then [] else [rows[0].(sent := true)] + MarkAllSent(rows[1..])
  }

  /** The pending row created last. */
  function Latest(rows: seq<Row>): (r: Option<Row>)
    ensures r.Some? ==> r.value in rows && !r.value.sent
  {
    if rows == [] then None
    else
      var n := |rows| - 1;
      var before := Latest(rows[..n]);
      if !rows[n].sent && (before.None? || rows[n].createdAt >= before.value.createdAt) then Some(rows[n])
      else before
  }

  function Purged(rows: seq<Row>, cutoff: int): seq<Row> {
    if rows == [] then []
    else
      var n := |rows| - 1;
      Purged(rows[..n], cutoff) + if rows[n].createdAt < cutoff then [] else [rows[n]]
  }

  /** One check of the pair, and the report it made if the schedule changed. */
  function CheckStep(p: Pair, now: int, data: Option<seq<Event>>): (Pair, Option<Report>) {
    if data.None? then (p.(clock := now), None) else
    var es := data.value;
    var today := DayOf(now);
    if p.lastHash == Some(Hash(es)) then
      (p.(clock := now,
          snapshots := if today in p.snapshots then p.snapshots else p.snapshots[today := MakeSnapshot(es, today)]),
       None)
    else
      var r := ReportFor(p, es, today);
      var q := p.(clock := now, lastHash := Some(Hash(es)), snapshots := p.snapshots[today := MakeSnapshot(es, today)]);
      if QuietHours(now) then (q.(rows := p.rows + [Row(es, r, now, false)]), Some(r))
      else (q.(sent := p.sent + [Message(es, r, r.initial || r.dailyPlanned)], rows := MarkAllSent(p.rows)), Some(r))
  }

  /** The 06:00 flush for the pair.  A pair without active users has none. */
  function FlushStep(p: Pair, now: int, data: Option<seq<Event>>): Pair {
    var today := DayOf(now);
    var q := p.(clock := now);
    match Latest(p.rows)
    case Some(row) =>
      q.(sent := p.sent + [Message(row.events, row.report, row.report.initial || row.report.dailyPlanned)],
         rows := MarkAllSent(p.rows),
         lastHash := Some(Hash(row.events)),
         snapshots := p.snapshots[today := MakeSnapshot(row.events, today)])
    case None =>
      if data.None? then q
      else q.(sent := p.sent + [Message(data.value, NO_REPORT, true)],
              lastHash := Some(Hash(data.value)),
              snapshots := p.snapshots[today := MakeSnapshot(data.value, today)])
  }

  /** After the flushes of a day, and outside their lock, old rows of every pair go. */
  function PurgeStep(p: Pair, now: int): Pair {
    p.(clock := now, rows := Purged(p.rows, now - PURGE_AFTER))
  }

  datatype Step =
    | Check(now: int, data: Option<seq<Event>>)
    | Flush(now: int, data: Option<seq<Event>>)
    | Purge(now: int)

  function Next(p: Pair, s: Step): Pair {
    match s
    case Check(now, data) => CheckStep(p, now, data).0
    case Flush(now, data) => FlushStep(p, now, data)
    case Purge(now) => PurgeStep(p, now)
  }

  ghost predicate IsRun(run: seq<Pair>, steps: seq<Step>) {
    && |run| == |steps| + 1
    && forall i :: 0 <= i < |steps| ==> run[i].clock < steps[i].now && run[i + 1] == Next(run[i], steps[i])
  }

  function EmptyPair(now: int): Pair { Pair(now, None, map[], [], []) }

  // ------------------------------------------------------ lemmas about keys

  lemma KeysOfConcat(a: seq<Event>, b: seq<Event>)
    ensures Keys(a + b) == Keys(a) + Keys(b)
  {
    forall k | k in Keys(a) + Keys(b) ensures k in Keys(a + b) {
      if k in Keys(a) { var e :| e in a && KeyOf(e) == k; assert e in a + b; }
      else { var e :| e in b && KeyOf(e) == k; assert e in a + b; }
    }
  }

  lemma {:induction false} KeysOfWithout(es: seq<Event>, ks: set<Key>)
    ensures Keys(Without(es, ks)) == Keys(es) - ks
  {
    if es != [] {
      KeysOfWithout(es[1..], ks);
      KeysOfConcat(if KeyOf(es[0]) in ks then [] else [es[0]], Without(es[1..], ks));
      KeysOfConcat([es[0]], es[1..]);
      assert [es[0]] + es[1..] == es;
    }
  }

  lemma {:induction false} KeysOfAppendNew(es: seq<Event>, more: seq<Event>)
    ensures Keys(AppendNew(es, more)) == Keys(es) + Keys(more)
    decreases more
  {
    if more != [] {
      var es' := if KeyOf(more[0]) in Keys(es) then es else es + [more[0]];
      KeysOfAppendNew(es', more[1..]);
      KeysOfConcat(es, [more[0]]);
      KeysOfConcat([more[0]], more[1..]);
      assert [more[0]] + more[1..] == more;
    }
  }

  lemma {:induction false} ForDateMembers(es: seq<Event>, day: int)
    ensures forall e :: e in ForDate(es, day) <==> e in es && e.start.day == day
  {
    if es != [] {
      ForDateMembers(es[1..], day);
      assert es == [es[0]] + es[1..];
    }
  }

  lemma ForDateStep(es: seq<Event>, day: int)
    requires es != []
    ensures ForDate(es, day) == (if es[0].start.day == day then [es[0]] else []) + ForDate(es[1..], day)
  {
  }

  /** Events of a day keep their order, and each is kept as often as it occurs. */
  lemma {:induction false} ForDateConcat(a: seq<Event>, b: seq<Event>, day: int)
    ensures ForDate(a + b, day) == ForDate(a, day) + ForDate(b, day)
  {
    if a == [] {
      assert a + b == b;
    } else {
      hide ForDate;
      var head := if a[0].start.day == day then [a[0]] else [];
      var rest := a[1..] + b;
      assert (a + b)[0] == a[0];
      assert (a + b)[1..] == rest;
      ForDateStep(a + b, day);
      ForDateStep(a, day);
      ForDateConcat(a[1..], b, day);
      Regroup(head, ForDate(a[1..], day), ForDate(b, day));
    }
  }

  lemma Regroup(a: seq<Event>, b: seq<Event>, c: seq<Event>)
    ensures a + (b + c) == a + b + c
  {
  }

  lemma DaysShareNoKeys(a: seq<Event>, b: seq<Event>, day: int)
    ensures Keys(ForDate(a, day)) !! Keys(ForDate(b, day + 1))
  {
    ForDateMembers(a, day);
    ForDateMembers(b, day + 1);
  }

  // -------------------------------------------------------------- the report

  /** Today's and tomorrow's events that a report is measured against. */
  datatype Days = Days(today: seq<Event>, tomorrow: seq<Event>)

  function DaysOf(es: seq<Event>, today: int): Days {
    Days(ForDate(es, today), ForDate(es, today + 1))
  }

  function Baseline(p: Pair, today: int): Option<Days> {
    if today in p.snapshots then Some(DaysOf(p.snapshots[today].events, today))
    else if today - 1 in p.snapshots then Some(Days(ForDate(p.snapshots[today - 1].events, today), []))
    else None
  }

  function DayKeys(d: Days): set<Key> { Keys(d.today) + Keys(d.tomorrow) }

  function Replay(keys: set<Key>, c: Changes): set<Key> { (keys - Keys(c.removed)) + Keys(c.added) }

  /** The report lists exactly the keys that came and went from `was` to `new`. */
  ghost predicate ExactKeys(c: Changes, was: Days, new1: Days) {
    && Keys(c.added) == DayKeys(new1) - DayKeys(was)
    && Keys(c.removed) == DayKeys(was) - DayKeys(new1)
  }

  /** The report's flags hold exactly when the lists of the two days changed. */
  ghost predicate ExactFlags(r: Report, was: Days, new1: Days) {
    && (r.todayUpdated <==> was.today != new1.today)
    && (r.tomorrowAppeared <==> was.tomorrow == [] && new1.tomorrow != [])
    && (r.tomorrowCancelled <==> was.tomorrow != [] && new1.tomorrow == [])
    && (r.tomorrowUpdated <==> was.tomorrow != [] && new1.tomorrow != [] && was.tomorrow != new1.tomorrow)
    && (r.todayUnchanged <==> was.today == new1.today && was.tomorrow != new1.tomorrow)
    && (r.dailyPlanned <==> !r.initial && was == new1)
  }

  predicate HasTimes(es: seq<Event>, start: Stamp, end: Stamp) {
    exists e <- es :: e.start == start && e.end == end
  }

  predicate DayHasTimes(d: Days, start: Stamp, end: Stamp) {
    HasTimes(d.today, start, end) || HasTimes(d.tomorrow, start, end)
  }

  lemma KeysAreTimes(es: seq<Event>, start: Stamp, end: Stamp)
    ensures Key(start, end) in Keys(es) <==> HasTimes(es, start, end)
  {
  }

  /** In terms of the events' own times: an event is reported as new if and only if none
      of the same start and end was there before, whatever its kind, and as gone if and
      only if none is there now. */
  lemma ReportTellsTimes(c: Changes, was: Days, new1: Days, start: Stamp, end: Stamp)
    requires ExactKeys(c, was, new1)
    ensures HasTimes(c.added, start, end) <==> DayHasTimes(new1, start, end) && !DayHasTimes(was, start, end)
    ensures HasTimes(c.removed, start, end) <==> DayHasTimes(was, start, end) && !DayHasTimes(new1, start, end)
  {
    hide Keys, HasTimes;
    KeysAreTimes(c.added, start, end);
    KeysAreTimes(c.removed, start, end);
    KeysAreTimes(was.today, start, end);
    KeysAreTimes(was.tomorrow, start, end);
    KeysAreTimes(new1.today, start, end);
    KeysAreTimes(new1.tomorrow, start, end);
  }

  ghost predicate SnapshotsMatch(p: Pair) {
    forall d :: d in p.snapshots ==> p.snapshots[d] == MakeSnapshot(p.snapshots[d].events, d)
  }

  /** The changes of a report, in terms of the two days alone. */
  function TwoDayChanges(was: Days, new1: Days): Changes {
    var c := if was.today != new1.today then ComputeChanges(was.today, new1.today) else NO_CHANGES;
    if was.tomorrow == [] then c.(added := c.added + Without(new1.tomorrow, Keys(c.added)))
    else if was.tomorrow != new1.tomorrow then JoinChanges(c, ComputeChanges(was.tomorrow, new1.tomorrow))
    else c
  }

  lemma KeysOfChanges(before: seq<Event>, after: seq<Event>)
    ensures var c := if before != after then ComputeChanges(before, after) else NO_CHANGES;
      Keys(c.added) == Keys(after) - Keys(before) && Keys(c.removed) == Keys(before) - Keys(after)
  {
    KeysOfWithout(after, Keys(before));
    KeysOfWithout(before, Keys(after));
  }

  lemma TwoDayKeys(was: Days, new1: Days)
    requires Keys(was.today) !! Keys(new1.tomorrow) && Keys(new1.today) !! Keys(was.tomorrow)
    ensures ExactKeys(TwoDayChanges(was, new1), was, new1)
  {
    KeysOfChanges(was.today, new1.today);
    var c := if was.today != new1.today then ComputeChanges(was.today, new1.today) else NO_CHANGES;
    if was.tomorrow == [] {
      KeysOfWithout(new1.tomorrow, Keys(c.added));
      KeysOfConcat(c.added, Without(new1.tomorrow, Keys(c.added)));
    } else if was.tomorrow != new1.tomorrow {
      var t := ComputeChanges(was.tomorrow, new1.tomorrow);
      KeysOfChanges(was.tomorrow, new1.tomorrow);
      KeysOfAppendNew(c.added, t.added);
      KeysOfConcat(c.removed, t.removed);
    }
  }

  lemma ReportChanges(p: Pair, es: seq<Event>, today: int)
    requires SnapshotsMatch(p) && Baseline(p, today).Some?
    ensures ReportFor(p, es, today).changes == TwoDayChanges(Baseline(p, today).value, DaysOf(es, today))
  {
    var was := Baseline(p, today).value;
    if was.tomorrow == [] && ForDate(es, today + 1) == [] {
      var c := if was.today != ForDate(es, today) then ComputeChanges(was.today, ForDate(es, today)) else NO_CHANGES;
      assert c.added + [] == c.added;
    }
  }

  lemma ReportKeys(p: Pair, es: seq<Event>, today: int)
    requires SnapshotsMatch(p) && Baseline(p, today).Some?
    ensures ExactKeys(ReportFor(p, es, today).changes, Baseline(p, today).value, DaysOf(es, today))
  {
    var before := p.snapshots[if today in p.snapshots then today else today - 1].events;
    DaysShareNoKeys(before, es, today);
    DaysShareNoKeys(es, before, today);
    TwoDayKeys(Baseline(p, today).value, DaysOf(es, today));
    ReportChanges(p, es, today);
  }

  lemma ReportFlags(p: Pair, es: seq<Event>, today: int)
    requires SnapshotsMatch(p) && Baseline(p, today).Some?
    ensures ExactFlags(ReportFor(p, es, today), Baseline(p, today).value, DaysOf(es, today))
  {
  }

  /** Main result: with a stored baseline every report is exact, keys and flags,
      and replaying it on the old keys gives the new ones; without a baseline it
      claims nothing about today and removes nothing. */
  lemma ReportIsExact(p: Pair, now: int, es: seq<Event>)
    requires SnapshotsMatch(p)
    requires p.lastHash != Some(Hash(es))
    ensures var r := CheckStep(p, now, Some(es)).1;
      && r.Some?
      && (r.value.initial <==> p.lastHash.None?)
      && match Baseline(p, DayOf(now))
         case Some(was) =>
           && var new1 := DaysOf(es, DayOf(now));
              && ExactKeys(r.value.changes, was, new1)
              && ExactFlags(r.value, was, new1)
              && Replay(DayKeys(was), r.value.changes) == DayKeys(new1)
         case None => !r.value.todayUpdated && !r.value.todayUnchanged && r.value.changes.removed == []
                      && Keys(r.value.changes.added) == Keys(ForDate(es, DayOf(now) + 1))
  {
    hide Baseline, ReportFor, ForDate, MakeSnapshot, SnapshotsMatch;
    var today := DayOf(now);
    ReportSaysInitial(p, es, today);
    if Baseline(p, today).Some? {
      ReportFlags(p, es, today);
      ReportKeys(p, es, today);
      ReplayIsExact(DayKeys(Baseline(p, today).value), DayKeys(DaysOf(es, today)), ReportFor(p, es, today).changes);
    } else {
      NoBaselineReport(p, es, today);
    }
  }

  lemma ReportSaysInitial(p: Pair, es: seq<Event>, today: int)
    ensures ReportFor(p, es, today).initial <==> p.lastHash.None?
  {
  }

  lemma NoBaselineReport(p: Pair, es: seq<Event>, today: int)
    requires Baseline(p, today).None?
    ensures var r := ReportFor(p, es, today);
      !r.todayUpdated && !r.todayUnchanged && r.changes.removed == []
      && Keys(r.changes.added) == Keys(ForDate(es, today + 1))
    ensures var r := ReportFor(p, es, today);
      && !r.tomorrowUpdated && !r.tomorrowCancelled
      && (r.tomorrowAppeared <==> ForDate(es, today + 1) != [])
      && (r.dailyPlanned <==> !r.initial && ForDate(es, today + 1) == [])
  {
    hide ForDate;
    var tomorrow := ForDate(es, today + 1);
    KeysOfWithout(tomorrow, Keys([]));
    assert NO_CHANGES.added + Without(tomorrow, Keys([])) == Without(tomorrow, Keys([]));
  }

  lemma ReplayIsExact(was: set<Key>, new1: set<Key>, c: Changes)
    requires Keys(c.added) == new1 - was && Keys(c.removed) == was - new1
    ensures Replay(was, c) == new1
  {
  }

  // ------------------------------------------------------------ the protocol

  /** The stored hash is that of the latest pending row if there is one, else of
      the last schedule sent. */
  ghost predicate Told(p: Pair) {
    match Latest(p.rows)
    case Some(row) => p.lastHash == Some(Hash(row.events))
    case None => if p.sent == [] then p.lastHash.None? else p.lastHash == Some(Hash(p.sent[|p.sent| - 1].events))
  }

  ghost predicate RowsPast(p: Pair) {
    forall row :: row in p.rows ==> row.createdAt <= p.clock
  }

  /** No snapshot lies ahead, and today's holds the schedule that was hashed. */
  ghost predicate SnapshotCurrent(p: Pair) {
    && (forall d :: d in p.snapshots ==> d <= DayOf(p.clock))
    && (DayOf(p.clock) in p.snapshots ==> p.lastHash == Some(Hash(p.snapshots[DayOf(p.clock)].events)))
  }

  ghost predicate Inv(p: Pair) {
    SnapshotsMatch(p) && SnapshotCurrent(p) && RowsPast(p)
  }

  lemma {:induction false} NoneLeft(rows: seq<Row>)
    ensures Latest(rows).None? <==> forall row :: row in rows ==> row.sent
  {
    if rows != [] {
      var n := |rows| - 1;
      NoneLeft(rows[..n]);
      assert rows == rows[..n] + [rows[n]];
    }
  }

  lemma {:induction false} AllSent(rows: seq<Row>)
    ensures forall row :: row in MarkAllSent(rows) ==> row.sent && exists r :: r in rows && row == r.(sent := true)
  {
    if rows != [] {
      AllSent(rows[1..]);
      assert rows == [rows[0]] + rows[1..];
    }
  }

  lemma LatestOfAppend(rows: seq<Row>, row: Row)
    ensures Latest(rows + [row]) ==
      var before := Latest(rows);
      if !row.sent && (before.None? || row.createdAt >= before.value.createdAt) then Some(row) else before
  {
    assert (rows + [row])[..|rows|] == rows;
  }

  lemma {:induction false} LatestAfterPurge(rows: seq<Row>, cutoff: int)
    ensures Latest(Purged(rows, cutoff)) ==
      if Latest(rows).Some? && Latest(rows).value.createdAt >= cutoff then Latest(rows) else None
  {
    if rows != [] {
      var n := |rows| - 1;
      LatestAfterPurge(rows[..n], cutoff);
      assert rows[..n] + [rows[n]] == rows;
      LatestOfAppend(rows[..n], rows[n]);
      PurgeLast(rows[..n], rows[n], cutoff);
    }
  }

  lemma PurgeLast(rows: seq<Row>, row: Row, cutoff: int)
    ensures Latest(Purged(rows + [row], cutoff)) ==
      if row.createdAt < cutoff then Latest(Purged(rows, cutoff)) else Latest(Purged(rows, cutoff) + [row])
    ensures Latest(Purged(rows, cutoff) + [row]) ==
      var before := Latest(Purged(rows, cutoff));
      if !row.sent && (before.None? || row.createdAt >= before.value.createdAt) then Some(row) else before
  {
    hide Latest;
    assert (rows + [row])[..|rows|] == rows;
    assert Purged(rows, cutoff) + [] == Purged(rows, cutoff);
    LatestOfAppend(Purged(rows, cutoff), row);
  }

  lemma {:induction false} PurgedIsSubset(rows: seq<Row>, cutoff: int)
    ensures forall row :: row in Purged(rows, cutoff) ==> row in rows
  {
    if rows != [] { PurgedIsSubset(rows[..|rows| - 1], cutoff); }
  }

  lemma QueuedIsLatest(rows: seq<Row>, row: Row)
    requires !row.sent && forall r :: r in rows ==> r.createdAt <= row.createdAt
    ensures Latest(rows + [row]) == Some(row)
  {
    LatestOfAppend(rows, row);
  }

  lemma CheckKeepsInv(p: Pair, now: int, data: Option<seq<Event>>)
    requires Inv(p) && p.clock < now
    ensures Inv(CheckStep(p, now, data).0)
  {
    hide ReportFor, DateHash, MarkAllSent;
    AllSent(p.rows);
  }

  lemma FlushKeepsInv(p: Pair, now: int, data: Option<seq<Event>>)
    requires Inv(p) && p.clock < now
    ensures Inv(FlushStep(p, now, data))
  {
    hide Latest, DateHash;
    AllSent(p.rows);
  }

  lemma PurgeKeepsInv(p: Pair, now: int)
    requires Inv(p) && p.clock < now
    ensures Inv(PurgeStep(p, now))
  {
    hide Purged, DateHash;
    PurgedIsSubset(p.rows, now - PURGE_AFTER);
  }

  lemma CheckTells(p: Pair, now: int, data: Option<seq<Event>>)
    requires Inv(p) && p.clock < now && Told(p)
    ensures Told(CheckStep(p, now, data).0)
  {
    hide Latest, ReportFor, MakeSnapshot, SnapshotsMatch, SnapshotCurrent;
    if data.Some? && p.lastHash != Some(Hash(data.value)) {
      AllSent(p.rows);
      NoneLeft(MarkAllSent(p.rows));
      QueuedIsLatest(p.rows, Row(data.value, ReportFor(p, data.value, DayOf(now)), now, false));
    }
  }

  lemma FlushTells(p: Pair, now: int, data: Option<seq<Event>>)
    requires Told(p)
    ensures Told(FlushStep(p, now, data))
  {
    hide Latest, MakeSnapshot;
    AllSent(p.rows);
    NoneLeft(MarkAllSent(p.rows));
  }

  /** The purge removes the latest pending row, and its schedule is not what users
      were last sent. */
  predicate Loses(p: Pair, s: Step) {
    && s.Purge? && Latest(p.rows).Some? && Latest(p.rows).value.createdAt < s.now - PURGE_AFTER
    && (p.sent == [] || p.sent[|p.sent| - 1].events != Latest(p.rows).value.events)
  }

  /** A purge breaks the match exactly when it loses a row nobody was sent. */
  lemma PurgeTellsExactly(p: Pair, now: int)
    requires Told(p)
    ensures Told(PurgeStep(p, now)) <==> !Loses(p, Purge(now))
  {
    hide Latest, Purged;
    LatestAfterPurge(p.rows, now - PURGE_AFTER);
  }

  lemma {:induction false} RunKeepsInv(run: seq<Pair>, steps: seq<Step>, i: nat)
    requires IsRun(run, steps) && Inv(run[0])
    requires i < |run|
    ensures Inv(run[i])
  {
    hide Inv, CheckStep, FlushStep, PurgeStep;
    if i > 0 {
      RunKeepsInv(run, steps, i - 1);
      match steps[i - 1]
      case Check(now, data) => CheckKeepsInv(run[i - 1], now, data);
      case Flush(now, data) => FlushKeepsInv(run[i - 1], now, data);
      case Purge(now) => PurgeKeepsInv(run[i - 1], now);
    }
  }

  lemma StepTellsExactly(p: Pair, s: Step)
    requires Inv(p) && p.clock < s.now && Told(p)
    ensures Told(Next(p, s)) <==> !Loses(p, s)
  {
    hide Inv, CheckStep, FlushStep, PurgeStep, Told;
    match s
    case Check(now, data) => CheckTells(p, now, data);
    case Flush(now, data) => FlushTells(p, now, data);
    case Purge(now) => PurgeTellsExactly(p, now);
  }

  lemma {:induction false} ToldSoFar(run: seq<Pair>, steps: seq<Step>, i: nat)
    requires IsRun(run, steps) && run[0] == EmptyPair(run[0].clock) && i < |run|
    requires forall k :: 0 <= k < i ==> !Loses(run[k], steps[k])
    ensures Inv(run[i]) && Told(run[i])
  {
    hide Told, Loses, Next;
    EmptyIsFine(run[0].clock);
    RunKeepsInv(run, steps, i);
    if i > 0 {
      ToldSoFar(run, steps, i - 1);
      StepTellsExactly(run[i - 1], steps[i - 1]);
    }
  }

  lemma EmptyIsFine(now: int)
    ensures Inv(EmptyPair(now)) && Told(EmptyPair(now))
  {
  }

  /** Main result: what users were told matches the stored hash at every point of a
      run, after every check, flush and purge, if and only if no purge loses a row. */
  lemma ToldExactly(run: seq<Pair>, steps: seq<Step>)
    requires IsRun(run, steps) && run[0] == EmptyPair(run[0].clock)
    ensures (forall i :: 0 <= i < |run| ==> Told(run[i])) <==> forall k :: 0 <= k < |steps| ==> !Loses(run[k], steps[k])
  {
    hide Told, Loses, Next, Inv;
    if forall k :: 0 <= k < |steps| ==> !Loses(run[k], steps[k]) {
      forall i | 0 <= i < |run| ensures Told(run[i]) { ToldSoFar(run, steps, i); }
    } else {
      var k :| 0 <= k < |steps| && Loses(run[k], steps[k]);
      EmptyIsFine(run[0].clock);
      RunKeepsInv(run, steps, k);
      if Told(run[k]) { StepTellsExactly(run[k], steps[k]); }
      assert !Told(run[k]) || !Told(run[k + 1]);
    }
  }

  /** After a flush, what is pending is younger than the flush. */
  lemma {:induction false} PendingIsYounger(run: seq<Pair>, steps: seq<Step>, m: nat, i: nat)
    requires IsRun(run, steps) && m < i <= |steps| && steps[m].Flush?
    ensures steps[m].now <= run[i].clock
    ensures forall row :: row in run[i].rows && !row.sent ==> row.createdAt > steps[m].now
  {
    hide Latest, MarkAllSent, Purged, MakeSnapshot, ReportFor;
    var p := run[i - 1];
    assert run[i] == Next(p, steps[i - 1]) && p.clock < steps[i - 1].now;
    AllSent(p.rows);
    NoneLeft(p.rows);
    if i - 1 > m { PendingIsYounger(run, steps, m, i - 1); }
    if steps[i - 1].Purge? { PurgedIsSubset(p.rows, steps[i - 1].now - PURGE_AFTER); }
  }

  /** A pair that stays active: each purge comes within 48 hours of a flush of it. */
  ghost predicate FlushedInTime(steps: seq<Step>) {
    forall k :: 0 <= k < |steps| && steps[k].Purge? ==>
      exists m :: 0 <= m < k && steps[m].Flush? && steps[m].now >= steps[k].now - PURGE_AFTER
  }

  /** Hence, for a pair that stays active, the match holds after every completed
      check, flush and purge of every run. */
  lemma ToldMatchesHash(run: seq<Pair>, steps: seq<Step>, i: nat)
    requires IsRun(run, steps) && run[0] == EmptyPair(run[0].clock) && FlushedInTime(steps)
    requires i < |run|
    ensures Told(run[i])
  {
    hide Told, Next, Latest;
    forall k | 0 <= k < |steps| ensures !Loses(run[k], steps[k]) {
      if steps[k].Purge? {
        var m :| 0 <= m < k && steps[m].Flush? && steps[m].now >= steps[k].now - PURGE_AFTER;
        PendingIsYounger(run, steps, m, k);
      }
    }
    ToldExactly(run, steps);
  }

  lemma {:induction false} MarkedAppend(rows: seq<Row>, row: Row)
    ensures MarkAllSent(rows + [row]) == MarkAllSent(rows) + [row.(sent := true)]
  {
    if rows == [] {
      assert [] + [row] == [row];
    } else {
      MarkedAppend(rows[1..], row);
      assert (rows + [row])[1..] == rows[1..] + [row];
    }
  }

  lemma PurgedAppend(rows: seq<Row>, row: Row, cutoff: int)
    ensures var before := Purged(rows, cutoff);
      Purged(rows + [row], cutoff) == if row.createdAt < cutoff then before else before + [row]
  {
    assert (rows + [row])[..|rows|] == rows;
  }

  lemma {:induction false} PurgeCommutesWithMark(rows: seq<Row>, cutoff: int)
    ensures Purged(MarkAllSent(rows), cutoff) == MarkAllSent(Purged(rows, cutoff))
  {
    if rows != [] {
      var n := |rows| - 1;
      var last := rows[n].(sent := true);
      PurgeCommutesWithMark(rows[..n], cutoff);
      MarkedAppend(rows[..n], rows[n]);
      assert rows[..n] + [rows[n]] == rows;
      PurgedAppend(MarkAllSent(rows[..n]), last, cutoff);
      PurgedAppend(rows[..n], rows[n], cutoff);
      MarkedAppend(Purged(rows[..n], cutoff), rows[n]);
    }
  }

  /** The purge holds no lock, so it may fall inside a check; the tables are then as
      if it had come before the check or after it, which are the same. */
  lemma PurgeCommutesWithCheck(p: Pair, now: int, data: Option<seq<Event>>, cutoff: int)
    requires cutoff <= now
    ensures var early := CheckStep(p.(rows := Purged(p.rows, cutoff)), now, data);
      var late := CheckStep(p, now, data);
      early == (late.0.(rows := Purged(late.0.rows, cutoff)), late.1)
  {
    hide MarkAllSent, LaterReport, FirstReport, MakeSnapshot;
    PurgeCommutesWithMark(p.rows, cutoff);
    if data.Some? {
      var row := Row(data.value, ReportFor(p, data.value, DayOf(now)), now, false);
      assert (p.rows + [row])[..|p.rows|] == p.rows;
    }
  }

  /** A schedule found in quiet hours, and a purge over 48 hours later with no flush
      in between, as for a pair that lost its users overnight: the row is gone, the
      hash stays, and nobody was told. */
  lemma UnsentRowIsLost(start: int, day: int, later: int, es: seq<Event>)
    requires start < day * DAY && later > day * DAY + PURGE_AFTER
    ensures var queued := Next(EmptyPair(start), Check(day * DAY, Some(es)));
      var purged := Next(queued, Purge(later));
      && Told(queued) && Loses(queued, Purge(later)) && !Told(purged)
      && purged.rows == [] && purged.sent == [] && purged.lastHash == Some(Hash(es))
  {
    hide ReportFor, MakeSnapshot, Told, Inv, Latest, Purged;
    var row := QueuedOvernight(start, day, es);
    LatestOfAppend([], row);
    OneRowPurged(row, later - PURGE_AFTER);
    EmptyIsFine(start);
    CheckTells(EmptyPair(start), day * DAY, Some(es));
    PurgeTellsExactly(Next(EmptyPair(start), Check(day * DAY, Some(es))), later);
  }

  lemma QueuedOvernight(start: int, day: int, es: seq<Event>) returns (row: Row)
    requires start < day * DAY
    ensures var queued := Next(EmptyPair(start), Check(day * DAY, Some(es)));
      queued.rows == [row] == [] + [row] && queued.sent == [] && queued.lastHash == Some(Hash(es))
    ensures row.createdAt == day * DAY && !row.sent && row.events == es
  {
    hide ReportFor, MakeSnapshot;
    row := Row(es, ReportFor(EmptyPair(start), es, DayOf(day * DAY)), day * DAY, false);
    assert (day * DAY) % DAY == 0;
    assert [] + [row] == [row];
  }

  lemma OneRowPurged(row: Row, cutoff: int)
    requires row.createdAt < cutoff
    ensures Purged([row], cutoff) == []
  {
    assert [row][..0] == [];
  }

  /** Every report of every run is exact against the baseline stored before it. */
  lemma EveryReportIsExact(run: seq<Pair>, steps: seq<Step>, i: nat)
    requires IsRun(run, steps) && run[0] == EmptyPair(run[0].clock)
    requires i < |steps| && steps[i].Check? && CheckStep(run[i], steps[i].now, steps[i].data).1.Some?
    requires Baseline(run[i], DayOf(steps[i].now)).Some?
    ensures steps[i].data.Some?
    ensures var r := CheckStep(run[i], steps[i].now, steps[i].data).1.value;
      var was := Baseline(run[i], DayOf(steps[i].now)).value;
      var new1 := DaysOf(steps[i].data.value, DayOf(steps[i].now));
      ExactKeys(r.changes, was, new1) && ExactFlags(r, was, new1) && Replay(DayKeys(was), r.changes) == DayKeys(new1)
  {
    RunKeepsInv(run, steps, i);
    ReportIsExact(run[i], steps[i].now, steps[i].data.value);
  }

  // ------------------------------------------------------ what is delivered

  lemma {:induction false} WithoutMembers(es: seq<Event>, keys: set<Key>)
    ensures forall e :: e in Without(es, keys) <==> e in es && KeyOf(e) !in keys
  {
    if es != [] {
      WithoutMembers(es[1..], keys);
      assert es == [es[0]] + es[1..];
    }
  }

  lemma {:induction false} AppendNewMembers(es: seq<Event>, more: seq<Event>)
    ensures forall e :: e in AppendNew(es, more) ==> e in es || e in more
    decreases more
  {
    if more != [] {
      AppendNewMembers(if KeyOf(more[0]) in Keys(es) then es else es + [more[0]], more[1..]);
      assert more == [more[0]] + more[1..];
    }
  }

  /** A report lists events as they are: the added ones from the new schedule, the
      removed ones from the baseline. */
  ghost predicate Drawn(c: Changes, was: Days, new1: Days) {
    && (forall e <- c.added :: e in new1.today || e in new1.tomorrow)
    && (forall e <- c.removed :: e in was.today || e in was.tomorrow)
  }

  lemma TwoDayDrawn(was: Days, new1: Days)
    ensures Drawn(TwoDayChanges(was, new1), was, new1)
  {
    WithoutMembers(new1.today, Keys(was.today));
    WithoutMembers(was.today, Keys(new1.today));
    WithoutMembers(new1.tomorrow, Keys(was.tomorrow));
    WithoutMembers(was.tomorrow, Keys(new1.tomorrow));
    var c := if was.today != new1.today then ComputeChanges(was.today, new1.today) else NO_CHANGES;
    WithoutMembers(new1.tomorrow, Keys(c.added));
    AppendNewMembers(c.added, Without(new1.tomorrow, Keys(was.tomorrow)));
  }

  lemma NoBaselineDrawn(p: Pair, es: seq<Event>, today: int)
    requires Baseline(p, today).None?
    ensures Drawn(ReportFor(p, es, today).changes, Days([], []), DaysOf(es, today))
  {
    hide ForDate;
    WithoutMembers(ForDate(es, today + 1), Keys([]));
  }

  /** What a report has to say, given the tables before it and the new schedule. */
  ghost predicate ExactReport(p: Pair, es: seq<Event>, today: int, r: Report) {
    && (r.initial <==> p.lastHash.None?)
    && var new1 := DaysOf(es, today);
       match Baseline(p, today)
       case Some(was) => ExactKeys(r.changes, was, new1) && Drawn(r.changes, was, new1) && ExactFlags(r, was, new1)
       case None =>
         && Keys(r.changes.added) == Keys(new1.tomorrow) && Drawn(r.changes, Days([], []), new1)
         && !r.todayUpdated && !r.todayUnchanged && !r.tomorrowUpdated && !r.tomorrowCancelled
         && (r.tomorrowAppeared <==> new1.tomorrow != [])
         && (r.dailyPlanned <==> !r.initial && new1.tomorrow == [])
  }

  /** The schedule goes out as the daily plan: it is the first, or there is nothing new
      in it for either day. */
  predicate AsDailyPlan(p: Pair, es: seq<Event>, today: int) {
    p.lastHash.None? ||
    match Baseline(p, today)
    case Some(was) => was == DaysOf(es, today)
    case None => DaysOf(es, today).tomorrow == []
  }

  lemma ReportForIsExact(p: Pair, es: seq<Event>, today: int)
    requires SnapshotsMatch(p)
    ensures ExactReport(p, es, today, ReportFor(p, es, today))
    ensures var r := ReportFor(p, es, today); r.initial || r.dailyPlanned <==> AsDailyPlan(p, es, today)
  {
    hide ReportFor, ForDate, SnapshotsMatch, Baseline;
    ReportSaysInitial(p, es, today);
    if Baseline(p, today).Some? {
      ReportFlags(p, es, today);
      ReportKeys(p, es, today);
      ReportChanges(p, es, today);
      TwoDayDrawn(Baseline(p, today).value, DaysOf(es, today));
    } else {
      NoBaselineReport(p, es, today);
      NoBaselineDrawn(p, es, today);
    }
  }

  /** Today's snapshot holds these events, and those of other days are as before. */
  ghost predicate Snapped(p: Pair, q: Pair, today: int, es: seq<Event>) {
    && today in q.snapshots && q.snapshots[today].events == es
    && forall d :: d != today ==> At(q.snapshots, d) == At(p.snapshots, d)
  }

  /** All rows are as before, but none is pending. */
  ghost predicate Superseded(rows: seq<Row>, after: seq<Row>) {
    |after| == |rows| && forall i :: 0 <= i < |rows| ==> after[i] == rows[i].(sent := true)
  }

  ghost predicate CheckDelivers(p: Pair, now: int, data: Option<seq<Event>>, q: Pair) {
    match data
    case None => q == p.(clock := now)
    case Some(es) =>
      && q.lastHash == Some(Hash(es)) && Snapped(p, q, now / 86400, es)
      && if p.lastHash == Some(Hash(es)) then q.sent == p.sent && q.rows == p.rows
         else exists r :: ExactReport(p, es, now / 86400, r) && SentOrQueued(p, now, es, r, q)
  }

  ghost predicate SentOrQueued(p: Pair, now: int, es: seq<Event>, r: Report, q: Pair) {
    if now % 86400 < 6 * 3600 then q.sent == p.sent && q.rows == p.rows + [Row(es, r, now, false)]
    else q.sent == p.sent + [Message(es, r, AsDailyPlan(p, es, now / 86400))] && Superseded(p.rows, q.rows)
  }

  ghost predicate FlushDelivers(p: Pair, now: int, data: Option<seq<Event>>, q: Pair) {
    match Latest(p.rows)
    case Some(row) =>
      && q.sent == p.sent + [Message(row.events, row.report, row.report.initial || row.report.dailyPlanned)]
      && Superseded(p.rows, q.rows)
      && q.lastHash == Some(Hash(row.events)) && Snapped(p, q, now / 86400, row.events)
    case None =>
      if data.None? then q == p.(clock := now)
      else
        && q.sent == p.sent + [Message(data.value, NO_REPORT, true)] && q.rows == p.rows
        && q.lastHash == Some(Hash(data.value)) && Snapped(p, q, now / 86400, data.value)
  }

  ghost predicate Delivers(p: Pair, s: Step, q: Pair) {
    match s
    case Check(now, data) => CheckDelivers(p, now, data, q)
    case Flush(now, data) => FlushDelivers(p, now, data, q)
    case Purge(now) =>
      && q == p.(clock := now, rows := q.rows)
      && forall row :: row in q.rows <==> row in p.rows && row.createdAt >= now - 48 * 3600
  }

  lemma {:induction false} MarkingSupersedes(rows: seq<Row>)
    ensures Superseded(rows, MarkAllSent(rows))
  {
    if rows != [] { MarkingSupersedes(rows[1..]); }
  }

  lemma {:induction false} PurgedExactly(rows: seq<Row>, cutoff: int)
    ensures forall row :: row in Purged(rows, cutoff) <==> row in rows && row.createdAt >= cutoff
  {
    if rows != [] {
      var n := |rows| - 1;
      PurgedExactly(rows[..n], cutoff);
      assert rows == rows[..n] + [rows[n]];
    }
  }

  lemma CheckStepDelivers(p: Pair, now: int, data: Option<seq<Event>>)
    requires Inv(p) && p.clock < now
    ensures CheckDelivers(p, now, data, CheckStep(p, now, data).0)
  {
    hide ReportFor, MarkAllSent, ExactReport, AsDailyPlan, DateHash, Superseded;
    if data.Some? {
      var es, today := data.value, DayOf(now);
      var r := ReportFor(p, es, today);
      ReportForIsExact(p, es, today);
      MarkingSupersedes(p.rows);
      if p.lastHash != Some(Hash(es)) {
        assert ExactReport(p, es, today, r) && SentOrQueued(p, now, es, r, CheckStep(p, now, data).0);
      } else if today in p.snapshots {
        assert DayOf(p.clock) == today;
      }
    }
  }

  lemma FlushStepDelivers(p: Pair, now: int, data: Option<seq<Event>>)
    ensures FlushDelivers(p, now, data, FlushStep(p, now, data))
  {
    hide MarkAllSent, Latest, DateHash, Superseded;
    MarkingSupersedes(p.rows);
  }

  /** Main result, delivery: over every run, what each step sends, queues and stores.  A
      changed schedule found by day is sent at once, with an exact report; by night it is
      queued with that report; the flush sends the latest pending row, or else the fetched
      schedule as the daily plan, and nothing only if there is neither. */
  lemma StepDelivers(run: seq<Pair>, steps: seq<Step>, i: nat)
    requires IsRun(run, steps) && run[0] == EmptyPair(run[0].clock) && i < |steps|
    ensures Delivers(run[i], steps[i], run[i + 1])
  {
    hide Inv, CheckDelivers, FlushDelivers, CheckStep, FlushStep;
    EmptyIsFine(run[0].clock);
    RunKeepsInv(run, steps, i);
    match steps[i]
    case Check(now, data) => CheckStepDelivers(run[i], now, data);
    case Flush(now, data) => FlushStepDelivers(run[i], now, data);
    case Purge(now) => PurgedExactly(run[i].rows, now - PURGE_AFTER);
  }

  /** Step k is the quiet check that queued the row, with the exact report of its time. */
  ghost predicate QueuedBy(run: seq<Pair>, steps: seq<Step>, row: Row, k: nat)
    requires k < |steps| < |run|
  {
    && steps[k] == Check(row.createdAt, Some(row.events)) && QuietHours(row.createdAt)
    && run[k].lastHash != Some(Hash(row.events))
    && ExactReport(run[k], row.events, DayOf(row.createdAt), row.report)
  }

  lemma {:induction false} RowsWereQueued(run: seq<Pair>, steps: seq<Step>, i: nat, row: Row)
    requires IsRun(run, steps) && run[0] == EmptyPair(run[0].clock) && i <= |steps| && row in run[i].rows
    ensures exists k :: 0 <= k < i && QueuedBy(run, steps, row, k)
  {
    hide Inv, Next, ExactReport, AsDailyPlan, Snapped;
    if i > 0 {
      var n := i - 1;
      StepDelivers(run, steps, n);
      var before := RowBefore(run[n], steps[n], run[i], row);
      if before in run[n].rows {
        RowsWereQueued(run, steps, n, before);
        var k :| 0 <= k < n && QueuedBy(run, steps, before, k);
        assert QueuedBy(run, steps, row, k);
      } else {
        assert QueuedBy(run, steps, row, n);
      }
    }
  }

  /** A row was there before the step, sent or not, or the step is the check that queued it. */
  lemma RowBefore(p: Pair, s: Step, q: Pair, row: Row) returns (before: Row)
    requires Delivers(p, s, q) && row in q.rows
    ensures before == row.(sent := before.sent)
    ensures before !in p.rows ==>
      && s == Check(row.createdAt, Some(row.events)) && QuietHours(row.createdAt)
      && p.lastHash != Some(Hash(row.events)) && ExactReport(p, row.events, DayOf(row.createdAt), row.report)
  {
    hide ExactReport, AsDailyPlan, Snapped;
    before := row;
    if row !in p.rows {
      var i :| 0 <= i < |q.rows| && q.rows[i] == row;
      if i < |p.rows| { before := p.rows[i]; }
    }
  }

  /** What a flush sends from the queue is what some quiet check of the run found, with
      the report that was exact then. */
  lemma FlushSendsQueued(run: seq<Pair>, steps: seq<Step>, i: nat)
    requires IsRun(run, steps) && run[0] == EmptyPair(run[0].clock)
    requires i < |steps| && steps[i].Flush? && Latest(run[i].rows).Some?
    ensures |run[i + 1].sent| == |run[i].sent| + 1
    ensures var m, row := run[i + 1].sent[|run[i].sent|], Latest(run[i].rows).value;
      m.events == row.events && m.report == row.report && exists k :: 0 <= k < i && QueuedBy(run, steps, row, k)
  {
    hide QueuedBy, Snapped, Superseded, Latest, Next;
    StepDelivers(run, steps, i);
    LatestIsPending(run[i].rows);
    RowsWereQueued(run, steps, i, Latest(run[i].rows).value);
  }

  lemma LatestIsPending(rows: seq<Row>)
    ensures Latest(rows).Some? ==> Latest(rows).value in rows
  {
  }

  /** A report is initial exactly when no earlier step of the run has seen a schedule. */
  lemma {:induction false} InitialExactly(run: seq<Pair>, steps: seq<Step>, i: nat)
    requires IsRun(run, steps) && run[0] == EmptyPair(run[0].clock) && i <= |steps|
    ensures run[i].lastHash.None? <==> forall k :: 0 <= k < i ==> steps[k].Purge? || steps[k].data.None?
    ensures run[i].lastHash.None? ==> run[i].rows == []
  {
    hide Inv, Next, ExactReport, AsDailyPlan, Snapped, Superseded;
    if i > 0 {
      InitialExactly(run, steps, i - 1);
      StepDelivers(run, steps, i - 1);
      if run[i].rows != [] { assert run[i].rows[0] in run[i].rows; }
    }
  }

  // --------------------------------------------------- a whole day of checks

  /** Replays, in order, the reports of the first `i` steps, all checks. */
  function ReplayRun(keys: set<Key>, run: seq<Pair>, steps: seq<Step>, i: nat): set<Key>
    requires i <= |steps| && i <= |run|
    requires forall k :: 0 <= k < i ==> steps[k].Check?
  {
    if i == 0 then keys
    else
      var before := ReplayRun(keys, run, steps, i - 1);
      var r := CheckStep(run[i - 1], steps[i - 1].now, steps[i - 1].data).1;
      if r.Some? then Replay(before, r.value.changes) else before
  }

  /** The reports of one day's checks, replayed in order on the keys the day
      started from, give the keys of the schedule last seen: none is lost, also
      across checks that found nothing new. */
  lemma {:induction false} DayReplays(run: seq<Pair>, steps: seq<Step>, i: nat, today: int)
    requires IsRun(run, steps) && Inv(run[0]) && i <= |steps|
    requires DayOf(run[0].clock) == today && today in run[0].snapshots
    requires forall k :: 0 <= k < i ==> steps[k].Check? && DayOf(steps[k].now) == today
    ensures DayOf(run[i].clock) == today && today in run[i].snapshots
    ensures ReplayRun(DayKeys(DaysOf(run[0].snapshots[today].events, today)), run, steps, i)
      == DayKeys(DaysOf(run[i].snapshots[today].events, today))
    ensures i > 0 && steps[i - 1].data.Some? ==> run[i].snapshots[today].events == steps[i - 1].data.value
  {
    hide Inv, CheckStep, Replay, DayKeys, DaysOf;
    if i > 0 {
      DayReplays(run, steps, i - 1, today);
      RunKeepsInv(run, steps, i - 1);
      CheckReplays(run[i - 1], steps[i - 1].now, steps[i - 1].data, today);
    }
  }

  lemma CheckReplays(p: Pair, now: int, data: Option<seq<Event>>, today: int)
    requires Inv(p) && today in p.snapshots && DayOf(now) == today == DayOf(p.clock)
    ensures var (q, r) := CheckStep(p, now, data);
      && q.clock == now && today in q.snapshots
      && (data.Some? ==> q.snapshots[today].events == data.value)
      && DayKeys(DaysOf(q.snapshots[today].events, today)) ==
           var before := DayKeys(DaysOf(p.snapshots[today].events, today));
           if r.Some? then Replay(before, r.value.changes) else before
  {
    hide ReportFor, DaysOf, DayKeys, Replay, ExactKeys, ExactFlags, DateHash;
    if data.Some? && p.lastHash != Some(Hash(data.value)) {
      ReportIsExact(p, now, data.value);
      assert Baseline(p, today) == Some(DaysOf(p.snapshots[today].events, today));
    }
  }

  // -------------------------------------------------------------- the code

  lemma WithoutStep(es: seq<Event>, i: nat, keys: set<Key>)
    requires i < |es|
    ensures Without(es[i..], keys) == (if KeyOf(es[i]) in keys then [] else [es[i]]) + Without(es[i + 1..], keys)
  {
    assert es[i..][1..] == es[i + 1..];
  }

  method MergeTomorrowEvents(c: Changes, es: seq<Event>, tomorrow: int) returns (merged: Changes)
    ensures merged == MergeTomorrow(c, es, tomorrow)
  {
    hide ForDate, Keys;
    var events := ForDate(es, tomorrow);
    var addedKeys := Keys(c.added);
    var added := c.added;
    var i := 0;
    while i < |events|
      invariant 0 <= i <= |events|
      invariant added + Without(events[i..], addedKeys) == c.added + Without(events, addedKeys)
    {
      WithoutStep(events, i, addedKeys);
      if KeyOf(events[i]) !in addedKeys {
        added := added + [events[i]];
      }
      i := i + 1;
    }
    merged := c.(added := added);
  }

  method ExtendChanges(c: Changes, t: Changes) returns (joined: Changes)
    ensures joined == JoinChanges(c, t)
  {
    var known := Keys(c.added);
    var added := c.added;
    var i := 0;
    while i < |t.added|
      invariant 0 <= i <= |t.added|
      invariant known == Keys(added)
      invariant AppendNew(added, t.added[i..]) == AppendNew(c.added, t.added)
    {
      var key := KeyOf(t.added[i]);
      if key !in known {
        KeysOfConcat(added, [t.added[i]]);
        added := added + [t.added[i]];
        known := known + {key};
      }
      i := i + 1;
    }
    joined := Changes(added, c.removed + t.removed);
  }

  /** The tables of one pair and the messages sent for it, changed in place. */
  class PairTables {
    var clock: int
    var lastHash: Option<Hash>
    var snapshots: map<int, Snapshot>
    var rows: seq<Row>
    var sent: seq<Message>

    ghost function Value(): Pair
      reads this
    {
      Pair(clock, lastHash, snapshots, rows, sent)
    }

    constructor (now: int)
      ensures Value() == EmptyPair(now)
    {
      clock, lastHash, snapshots, rows, sent := now, None, map[], [], [];
    }

    method MakeReport(es: seq<Event>, today: int) returns (report: Report)
      ensures report == ReportFor(Value(), es, today)
    {
      var todayHash, tomorrowHash := DateHash(es, today), DateHash(es, today + 1);
      var todayUpdated, appeared, updated, cancelled, todaySame := false, false, false, false, false;
      var changes := NO_CHANGES;
      var compared := false;
      if today !in snapshots {
        if today - 1 in snapshots {
          var yesterday := snapshots[today - 1];
          compared := true;
          if yesterday.tomorrowHash != todayHash {
            todayUpdated := true;
            changes := ComputeChanges(ForDate(yesterday.events, today), ForDate(es, today));
          }
        }
        if tomorrowHash.Some? {
          appeared := true;
          changes := MergeTomorrowEvents(changes, es, today + 1);
        }
        if appeared && !todayUpdated && compared {
          todaySame := true;
        }
      } else {
        var snapshot := snapshots[today];
        if snapshot.todayHash != todayHash {
          todayUpdated := true;
          changes := ComputeChanges(ForDate(snapshot.events, today), ForDate(es, today));
        }
        if snapshot.tomorrowHash.None? && tomorrowHash.Some? {
          appeared := true;
          changes := MergeTomorrowEvents(changes, es, today + 1);
        } else if snapshot.tomorrowHash.Some? && tomorrowHash != snapshot.tomorrowHash {
          if tomorrowHash.None? {
            cancelled := true;
          } else {
            updated := true;
          }
          var t := ComputeChanges(ForDate(snapshot.events, today + 1), ForDate(es, today + 1));
          changes := ExtendChanges(changes, t);
        }
        if (appeared || updated || cancelled) && !todayUpdated {
          todaySame := true;
        }
      }
      var isInitial := lastHash.None?;
      var empty := !todayUpdated && !appeared && !updated && !cancelled && !todaySame;
      report := Report(todayUpdated, appeared, updated, cancelled, todaySame, empty && !isInitial, isInitial, changes);
    }

    method UpsertSnapshot(es: seq<Event>, day: int)
      modifies this
      ensures Value() == old(Value()).(snapshots := old(snapshots)[day := MakeSnapshot(es, day)])
    {
      snapshots := snapshots[day := Snapshot(es, DateHash(es, day), DateHash(es, day + 1))];
    }

    method Send(es: seq<Event>, report: Report, asDailyPlanned: bool)
      modifies this
      ensures Value() == old(Value()).(sent := old(sent) + [Message(es, report, asDailyPlanned)])
    {
      sent := sent + [Message(es, report, asDailyPlanned)];
    }

    method CheckSingleQueue(now: int, data: Option<seq<Event>>) returns (report: Option<Report>)
      modifies this
      ensures (Value(), report) == CheckStep(old(Value()), now, data)
    {
      clock := now;
      report := None;
      if data.None? {
        return;
      }
      var es := data.value;
      var today := DayOf(now);
      if lastHash == Some(Hash(es)) {
        if today !in snapshots {
          UpsertSnapshot(es, today);
        }
        return;
      }
      var r := MakeReport(es, today);
      report := Some(r);
      lastHash := Some(Hash(es));
      UpsertSnapshot(es, today);
      if QuietHours(now) {
        rows := rows + [Row(es, r, now, false)];
        return;
      }
      Send(es, r, r.initial || r.dailyPlanned);
      rows := MarkAllSent(rows);
    }

    method FlushPair(now: int, data: Option<seq<Event>>)
      modifies this
      ensures Value() == FlushStep(old(Value()), now, data)
    {
      clock := now;
      var notif := Latest(rows);
      if notif.Some? {
        var row := notif.value;
        Send(row.events, row.report, row.report.initial || row.report.dailyPlanned);
        rows := MarkAllSent(rows);
        lastHash := Some(Hash(row.events));
        UpsertSnapshot(row.events, DayOf(now));
      } else if data.Some? {
        Send(data.value, NO_REPORT, true);
        lastHash := Some(Hash(data.value));
        UpsertSnapshot(data.value, DayOf(now));
      }
    }

    method DeleteOldNotifications(now: int)
      modifies this
      ensures Value() == PurgeStep(old(Value()), now)
    {
      clock := now;
      rows := Purged(rows, now - PURGE_AFTER);
    }
  }
}
