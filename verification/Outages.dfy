/**
 Outage intervals: hour labels are parsed into merged intervals, intervals are
 painted back to half-hour slots, and the next event is looked up on them.

 Interval bounds are half-hour slots counted from the start of today; a day has
 `n` hours (24 in the program), so tomorrow starts at slot 2n.  Days are taken to
 be consecutive and without a clock change.
 */
module Outages {
  import opened Wrappers

  datatype Label = Other | No | First | Second | Maybe | MFirst | MSecond

  /** What a half-hour slot shows: nothing, a planned or a possible outage. */
  const CLEAR: int := 0
  const PLANNED: int := 1
  const POSSIBLE: int := 2

  datatype Interval = Interval(start: int, end: int)
  datatype Event = Event(start: int, end: int, possible: bool)

  /** The cells of the chart. */
  datatype Cell = OnCell | NoCell | MaybeCell | NFirstCell | NSecondCell | MFirstCell | MSecondCell

  function FirstHalf(l: Label): int {
    match l
    case No | First => PLANNED
    case Maybe | MFirst => POSSIBLE
    case _ => CLEAR
  }

  function SecondHalf(l: Label): int {
    match l
    case No | Second => PLANNED
    case Maybe | MSecond => POSSIBLE
    case _ => CLEAR
  }

  /** The slots that a day of labels stands for. */
  function Slots(labels: seq<Label>): (slots: seq<int>)
    ensures |slots| == 2 * |labels|
    ensures forall h :: 0 <= h < |labels| ==>
      slots[2 * h] == FirstHalf(labels[h]) && slots[2 * h + 1] == SecondHalf(labels[h])
  {
    if labels == [] then []
    else
      var n := |labels| - 1;
      Slots(labels[..n]) + [FirstHalf(labels[n]), SecondHalf(labels[n])]
  }

  // ---------------------------------------------------------- hours to intervals

  function AddOrExtend(ps: seq<Interval>, start: int, end: int): seq<Interval> {
    var n := |ps| - 1;
    if ps != [] && ps[n].end == start then ps[..n] + [Interval(ps[n].start, end)]
    else ps + [Interval(start, end)]
  }

  /** The maximal runs of slots of one kind. */
  function Runs(slots: seq<int>, kind: int): seq<Interval> {
    if slots == [] then []
    else
      var n := |slots| - 1;
      if slots[n] == kind then AddOrExtend(Runs(slots[..n], kind), n, n + 1) else Runs(slots[..n], kind)
  }

  function Merged(ps: seq<Interval>): seq<Interval> {
    if ps == [] then []
    else
      var n := |ps| - 1;
      AddOrExtend(Merged(ps[..n]), ps[n].start, ps[n].end)
  }

  /** Sorted, non-empty and not touching each other. */
  ghost predicate Canonical(ps: seq<Interval>) {
    && (forall i :: 0 <= i < |ps| ==> ps[i].start < ps[i].end)
    && (forall i, j :: 0 <= i < j < |ps| ==> ps[i].end < ps[j].start)
  }

  predicate Holds(p: Interval, k: int) { p.start <= k < p.end }

  ghost predicate Covers(ps: seq<Interval>, k: int) {
    exists i :: 0 <= i < |ps| && Holds(ps[i], k)
  }

  lemma AddKeepsCanonical(ps: seq<Interval>, start: int, end: int)
    requires Canonical(ps) && start < end
    requires forall i :: 0 <= i < |ps| ==> ps[i].end <= start
    ensures Canonical(AddOrExtend(ps, start, end))
    ensures forall i :: 0 <= i < |AddOrExtend(ps, start, end)| ==> AddOrExtend(ps, start, end)[i].end <= end
  {
    var n := |ps| - 1;
    if ps != [] && ps[n].end == start {
      assert forall i :: 0 <= i < n ==> ps[..n][i] == ps[i];
    }
  }

  lemma AddedCovers(ps: seq<Interval>, start: int, end: int, k: int)
    requires start < end && (ps != [] ==> ps[|ps| - 1].start < ps[|ps| - 1].end)
    ensures Covers(AddOrExtend(ps, start, end), k) <==> Covers(ps, k) || start <= k < end
  {
    var qs := AddOrExtend(ps, start, end);
    var n := |qs| - 1;
    assert forall i :: 0 <= i < n ==> qs[i] == ps[i];
    assert Holds(qs[n], k) <==> start <= k < end || (n < |ps| && Holds(ps[n], k));
    if Covers(ps, k) {
      var i :| 0 <= i < |ps| && Holds(ps[i], k);
      assert Holds(qs[i], k);
    }
    if Covers(qs, k) {
      var i :| 0 <= i < |qs| && Holds(qs[i], k);
      assert i < n ==> Holds(ps[i], k);
    }
  }

  ghost predicate Within(ps: seq<Interval>, low: int, high: int) {
    forall i :: 0 <= i < |ps| ==> low <= ps[i].start && ps[i].end <= high
  }

  /** The runs are canonical and cover exactly the slots of their kind. */
  lemma {:induction false} RunsCover(slots: seq<int>, kind: int)
    ensures Canonical(Runs(slots, kind)) && Within(Runs(slots, kind), 0, |slots|)
    ensures forall k :: Covers(Runs(slots, kind), k) <==> 0 <= k < |slots| && slots[k] == kind
  {
    hide AddOrExtend, Canonical, Covers;
    if slots == [] {
      NothingCovered();
    } else {
      var n := |slots| - 1;
      var before := slots[..n];
      RunsCover(before, kind);
      if slots[n] == kind {
        RunsNonEmpty(Runs(before, kind));
        AddKeepsCanonical(Runs(before, kind), n, n + 1);
        RunsWithin(Runs(before, kind), n);
        forall k ensures Covers(Runs(slots, kind), k) <==> Covers(Runs(before, kind), k) || k == n {
          AddedCovers(Runs(before, kind), n, n + 1, k);
        }
      }
      assert forall k :: 0 <= k < n ==> before[k] == slots[k];
    }
  }

  lemma NothingCovered()
    ensures Canonical([]) && forall k :: !Covers([], k)
  {
  }

  lemma RunsNonEmpty(ps: seq<Interval>)
    requires Canonical(ps)
    ensures ps != [] ==> ps[|ps| - 1].start < ps[|ps| - 1].end
  {
  }

  lemma RunsWithin(ps: seq<Interval>, n: nat)
    requires Within(ps, 0, n)
    ensures Within(AddOrExtend(ps, n, n + 1), 0, n + 1)
  {
  }

  lemma FirstIsCovered(ps: seq<Interval>)
    requires Canonical(ps) && ps != []
    ensures Covers(ps, ps[0].start)
  {
    assert Holds(ps[0], ps[0].start);
  }

  /** There is only one sorted, non-touching list of intervals for a set of slots. */
  lemma {:induction false} CoverIsUnique(ps: seq<Interval>, qs: seq<Interval>)
    requires Canonical(ps) && Canonical(qs)
    requires forall k :: Covers(ps, k) <==> Covers(qs, k)
    ensures ps == qs
  {
    if ps == [] {
      if qs != [] { FirstIsCovered(qs); }
    } else if qs == [] {
      FirstIsCovered(ps);
    } else {
      LastIsSame(ps, qs);
      LastIsSame(qs, ps);
      var m, n := |ps| - 1, |qs| - 1;
      assert ps[m] == qs[n];
      forall k ensures Covers(ps[..m], k) <==> Covers(qs[..n], k) {
        WithoutLast(ps, k);
        WithoutLast(qs, k);
      }
      CoverIsUnique(ps[..m], qs[..n]);
    }
  }

  lemma LastIsSame(ps: seq<Interval>, qs: seq<Interval>)
    requires Canonical(ps) && Canonical(qs) && ps != [] && qs != []
    requires forall k :: Covers(ps, k) <==> Covers(qs, k)
    ensures ps[|ps| - 1].end <= qs[|qs| - 1].end
    ensures ps[|ps| - 1].end == qs[|qs| - 1].end ==> ps[|ps| - 1].start >= qs[|qs| - 1].start
  {
    var p, q := ps[|ps| - 1], qs[|qs| - 1];
    assert Holds(p, p.end - 1);
    assert Covers(ps, p.end - 1);
    if p.end == q.end && p.start < q.start {
      assert Holds(p, q.start - 1);
      assert Covers(ps, q.start - 1);
    }
  }

  lemma WithoutLast(ps: seq<Interval>, k: int)
    requires Canonical(ps) && ps != []
    ensures Covers(ps[..|ps| - 1], k) <==> Covers(ps, k) && !Holds(ps[|ps| - 1], k)
  {
    var n := |ps| - 1;
    if Covers(ps[..n], k) {
      var i :| 0 <= i < n && Holds(ps[..n][i], k);
      assert Holds(ps[i], k);
    }
    if Covers(ps, k) && !Holds(ps[n], k) {
      var i :| 0 <= i < |ps| && Holds(ps[i], k);
      assert Holds(ps[..n][i], k);
    }
  }

  lemma AddedApart(ps: seq<Interval>, p: Interval)
    requires ps != [] ==> ps[|ps| - 1].end != p.start
    ensures AddOrExtend(ps, p.start, p.end) == ps + [p]
  {
  }

  /** Merging changes nothing in a list that is already canonical. */
  lemma {:induction false} MergeKeepsCanonical(ps: seq<Interval>)
    requires Canonical(ps)
    ensures Merged(ps) == ps
  {
    hide AddOrExtend;
    if ps != [] {
      var n := |ps| - 1;
      MergeKeepsCanonical(ps[..n]);
      AddedApart(ps[..n], ps[n]);
      assert ps == ps[..n] + [ps[n]];
    }
  }

  function TotalMinutes(ps: seq<Interval>): int {
    if ps == [] then 0 else TotalMinutes(ps[..|ps| - 1]) + 30 * (ps[|ps| - 1].end - ps[|ps| - 1].start)
  }

  function Count(slots: seq<int>, kind: int): nat {
    if slots == [] then 0 else Count(slots[..|slots| - 1], kind) + if slots[|slots| - 1] == kind then 1 else 0
  }

  lemma MinutesAppend(ps: seq<Interval>, p: Interval)
    ensures TotalMinutes(ps + [p]) == TotalMinutes(ps) + 30 * (p.end - p.start)
  {
    assert (ps + [p])[..|ps|] == ps;
  }

  lemma AddedMinutes(ps: seq<Interval>, start: int, end: int)
    ensures TotalMinutes(AddOrExtend(ps, start, end)) == TotalMinutes(ps) + 30 * (end - start)
  {
    hide TotalMinutes;
    var n := |ps| - 1;
    if ps != [] && ps[n].end == start {
      MinutesAppend(ps[..n], Interval(ps[n].start, end));
      MinutesAppend(ps[..n], ps[n]);
      assert ps[..n] + [ps[n]] == ps;
    } else {
      MinutesAppend(ps, Interval(start, end));
    }
  }

  lemma {:induction false} RunsMinutes(slots: seq<int>, kind: int)
    ensures TotalMinutes(Runs(slots, kind)) == 30 * Count(slots, kind)
  {
    hide AddOrExtend, TotalMinutes;
    if slots == [] {
      NoMinutes();
    } else {
      var n := |slots| - 1;
      RunsMinutes(slots[..n], kind);
      AddedMinutes(Runs(slots[..n], kind), n, n + 1);
    }
  }

  lemma NoMinutes()
    ensures TotalMinutes([]) == 0
  {
  }

  // ------------------------------------------------------------ the schedule

  function KindOf(possible: bool): int { if possible then POSSIBLE else PLANNED }

  function AsEvents(ps: seq<Interval>, offset: int, possible: bool): (es: seq<Event>)
    ensures |es| == |ps|
    ensures forall i :: 0 <= i < |ps| ==> es[i] == Event(ps[i].start + offset, ps[i].end + offset, possible)
  {
    if ps == [] then []
    else
      var n := |ps| - 1;
      AsEvents(ps[..n], offset, possible) + [Event(ps[n].start + offset, ps[n].end + offset, possible)]
  }

  function DayEvents(labels: seq<Label>, offset: int): seq<Event> {
    var slots := Slots(labels);
    AsEvents(Merged(Runs(slots, PLANNED)), offset, false) + AsEvents(Merged(Runs(slots, POSSIBLE)), offset, true)
  }

  function Insert(e: Event, es: seq<Event>): seq<Event> {
    if es == [] || e.start <= es[0].start then [e] + es else [es[0]] + Insert(e, es[1..])
  }

  /** Stable sort by start. */
  function Sort(es: seq<Event>): seq<Event> {
    if es == [] then [] else Insert(es[0], Sort(es[1..]))
  }

  function ParseSchedule(today: seq<Label>, tomorrow: seq<Label>): seq<Event> {
    Sort(DayEvents(today, 0) + DayEvents(tomorrow, 2 * |today|))
  }

  /** The slots of the two days. */
  function TwoDays(today: seq<Label>, tomorrow: seq<Label>): seq<int> {
    Slots(today) + Slots(tomorrow)
  }

  predicate Apart(e: Event, f: Event) { e.end <= f.start || f.end <= e.start }

  ghost predicate Disjoint(es: seq<Event>) {
    es == [] || (es[0].start < es[0].end && (forall f :: f in es[1..] ==> Apart(es[0], f)) && Disjoint(es[1..]))
  }

  ghost predicate Sorted(es: seq<Event>) {
    es == [] || ((forall f :: f in es[1..] ==> es[0].start <= f.start) && Sorted(es[1..]))
  }

  lemma {:induction false} DisjointConcat(es: seq<Event>, fs: seq<Event>)
    requires Disjoint(es) && Disjoint(fs)
    requires forall e, f :: e in es && f in fs ==> Apart(e, f)
    ensures Disjoint(es + fs)
  {
    if es == [] {
      assert es + fs == fs;
    } else {
      DisjointConcat(es[1..], fs);
      assert (es + fs)[1..] == es[1..] + fs;
    }
  }

  lemma {:induction false} NonEmpty(es: seq<Event>)
    requires Disjoint(es)
    ensures forall e :: e in es ==> e.start < e.end
  {
    if es != [] {
      NonEmpty(es[1..]);
      assert es == [es[0]] + es[1..];
    }
  }

  predicate Contains(e: Event, k: int) { e.start <= k < e.end }

  ghost predicate Shows(es: seq<Event>, k: int, possible: bool) {
    exists e :: e in es && e.possible == possible && Contains(e, k)
  }

  type Cells = set<(int, bool)>

  /** The off slots of a slot map, each with whether it is only possible. */
  function CellsOf(slots: seq<int>, offset: int): Cells {
    set k, b | 0 <= k < |slots| && b in {false, true} && slots[k] == KindOf(b) :: (k + offset, b)
  }

  /** The events are disjoint and show exactly the given off slots. */
  ghost predicate Fits(es: seq<Event>, cells: Cells) {
    Disjoint(es) && forall k, b :: Shows(es, k, b) <==> (k, b) in cells
  }

  lemma InCells(slots: seq<int>, offset: int, k: int, b: bool)
    ensures (k, b) in CellsOf(slots, offset) <==> 0 <= k - offset < |slots| && slots[k - offset] == KindOf(b)
  {
    if 0 <= k - offset < |slots| && slots[k - offset] == KindOf(b) {
      assert b in {false, true};
      assert (k - offset + offset, b) == (k, b);
    }
  }

  lemma FitsConcat(es: seq<Event>, fs: seq<Event>, cs: Cells, ds: Cells)
    requires Fits(es, cs) && Fits(fs, ds)
    requires forall k, b, c :: (k, b) in cs ==> (k, c) !in ds
    ensures Fits(es + fs, cs + ds)
  {
    NonEmpty(es);
    NonEmpty(fs);
    forall e, f | e in es && f in fs ensures Apart(e, f) {
      var k := if e.start >= f.start then e.start else f.start;
      if Contains(e, k) && Contains(f, k) {
        assert Shows(es, k, e.possible) && Shows(fs, k, f.possible);
      }
    }
    DisjointConcat(es, fs);
    forall k, b ensures Shows(es + fs, k, b) <==> (k, b) in cs + ds {
      if Shows(es + fs, k, b) {
        var e :| e in es + fs && e.possible == b && Contains(e, k);
        assert if e in es then Shows(es, k, b) else Shows(fs, k, b);
      }
      if Shows(es, k, b) {
        var e :| e in es && e.possible == b && Contains(e, k);
        assert e in es + fs;
      }
      if Shows(fs, k, b) {
        var e :| e in fs && e.possible == b && Contains(e, k);
        assert e in es + fs;
      }
    }
  }

  lemma {:induction false} CanonicalDisjoint(ps: seq<Interval>, offset: int, possible: bool)
    requires Canonical(ps)
    ensures Disjoint(AsEvents(ps, offset, possible))
  {
    if ps != [] {
      var n := |ps| - 1;
      CanonicalDisjoint(ps[..n], offset, possible);
      var es := AsEvents(ps[..n], offset, possible);
      var last := Event(ps[n].start + offset, ps[n].end + offset, possible);
      DisjointConcat(es, [last]);
    }
  }

  lemma ShowsWhatIsCovered(ps: seq<Interval>, offset: int, possible: bool, k: int, b: bool)
    ensures Shows(AsEvents(ps, offset, possible), k, b) <==> Covers(ps, k - offset) && b == possible
  {
    hide AsEvents;
    var es := AsEvents(ps, offset, possible);
    if Shows(es, k, b) {
      var e :| e in es && e.possible == b && Contains(e, k);
      var i :| 0 <= i < |es| && es[i] == e;
      assert Holds(ps[i], k - offset);
    }
    if Covers(ps, k - offset) && b == possible {
      var i :| 0 <= i < |ps| && Holds(ps[i], k - offset);
      assert es[i] in es && Contains(es[i], k);
    }
  }

  lemma RunsFit(slots: seq<int>, offset: int, possible: bool)
    ensures Fits(AsEvents(Merged(Runs(slots, KindOf(possible))), offset, possible),
                 set c | c in CellsOf(slots, offset) && c.1 == possible)
  {
    hide AsEvents, Runs, Shows, Covers, Disjoint, Canonical, CellsOf;
    var ps := Runs(slots, KindOf(possible));
    RunsCover(slots, KindOf(possible));
    MergeKeepsCanonical(ps);
    CanonicalDisjoint(ps, offset, possible);
    forall k, b
      ensures Shows(AsEvents(ps, offset, possible), k, b) <==> (k, b) in CellsOf(slots, offset) && b == possible
    {
      InCells(slots, offset, k, b);
      ShowsWhatIsCovered(ps, offset, possible, k, b);
    }
  }

  lemma DayFits(labels: seq<Label>, offset: int)
    ensures Fits(DayEvents(labels, offset), CellsOf(Slots(labels), offset))
  {
    hide Fits, CellsOf, AsEvents, Runs, Merged, Slots;
    var slots := Slots(labels);
    RunsFit(slots, offset, false);
    RunsFit(slots, offset, true);
    var cs := set c | c in CellsOf(slots, offset) && c.1 == false;
    var ds := set c | c in CellsOf(slots, offset) && c.1 == true;
    forall k, b, c | (k, b) in cs ensures (k, c) !in ds {
      InCells(slots, offset, k, b);
      InCells(slots, offset, k, c);
    }
    assert cs + ds == CellsOf(slots, offset);
    var planned, maybe := Merged(Runs(slots, PLANNED)), Merged(Runs(slots, POSSIBLE));
    FitsConcat(AsEvents(planned, offset, false), AsEvents(maybe, offset, true), cs, ds);
  }

  lemma {:induction false} InsertFits(e: Event, es: seq<Event>)
    requires Disjoint(es) && Sorted(es)
    requires e.start < e.end && forall f :: f in es ==> Apart(e, f)
    ensures Disjoint(Insert(e, es)) && Sorted(Insert(e, es))
    ensures forall f :: f in Insert(e, es) <==> f == e || f in es
  {
    if es == [] || e.start <= es[0].start {
      assert ([e] + es)[1..] == es;
      assert es != [] ==> es == [es[0]] + es[1..];
    } else {
      assert es == [es[0]] + es[1..];
      assert es[0] in es;
      InsertFits(e, es[1..]);
      var rest := Insert(e, es[1..]);
      assert ([es[0]] + rest)[1..] == rest;
    }
  }

  lemma {:induction false} SortFits(es: seq<Event>)
    requires Disjoint(es)
    ensures Disjoint(Sort(es)) && Sorted(Sort(es))
    ensures forall f :: f in Sort(es) <==> f in es
  {
    if es != [] {
      SortFits(es[1..]);
      InsertFits(es[0], Sort(es[1..]));
      assert es == [es[0]] + es[1..];
    }
  }

  /** In order, and each event over before the next one starts. */
  ghost predicate Ordered(es: seq<Event>) {
    && (forall i :: 0 <= i < |es| ==> es[i].start < es[i].end)
    && (forall i, j :: 0 <= i < j < |es| ==> es[i].end <= es[j].start)
  }

  lemma {:induction false} SortedIsOrdered(es: seq<Event>)
    requires Disjoint(es) && Sorted(es)
    ensures Ordered(es)
  {
    if es != [] {
      var tail := es[1..];
      SortedIsOrdered(tail);
      NonEmpty(tail);
      forall j | 1 <= j < |es| ensures es[0].end <= es[j].start {
        assert es[j] == tail[j - 1] && es[j] in tail;
      }
      assert forall j :: 1 <= j < |es| ==> es[j] == tail[j - 1];
    }
  }

  lemma CellsConcat(a: seq<int>, b: seq<int>)
    ensures CellsOf(a, 0) + CellsOf(b, |a|) == CellsOf(a + b, 0)
  {
    forall k, c ensures (k, c) in CellsOf(a, 0) + CellsOf(b, |a|) <==> (k, c) in CellsOf(a + b, 0) {
      InCells(a, 0, k, c);
      InCells(b, |a|, k, c);
      InCells(a + b, 0, k, c);
    }
  }

  /** The parsed schedule is in order and shows exactly the two days' off slots. */
  lemma ScheduleFits(today: seq<Label>, tomorrow: seq<Label>)
    ensures Ordered(ParseSchedule(today, tomorrow))
    ensures Fits(ParseSchedule(today, tomorrow), CellsOf(TwoDays(today, tomorrow), 0))
  {
    var n := 2 * |today|;
    DayFits(today, 0);
    DayFits(tomorrow, n);
    var cs, ds := CellsOf(Slots(today), 0), CellsOf(Slots(tomorrow), n);
    forall k, b, c | (k, b) in cs ensures (k, c) !in ds {
      InCells(Slots(today), 0, k, b);
      InCells(Slots(tomorrow), n, k, c);
    }
    var es := DayEvents(today, 0) + DayEvents(tomorrow, n);
    FitsConcat(DayEvents(today, 0), DayEvents(tomorrow, n), cs, ds);
    CellsConcat(Slots(today), Slots(tomorrow));
    SortFits(es);
    SortedIsOrdered(Sort(es));
    SameShows(es, Sort(es));
  }

  lemma SameShows(es: seq<Event>, fs: seq<Event>)
    requires forall e :: e in es <==> e in fs
    ensures forall k, b :: Shows(es, k, b) <==> Shows(fs, k, b)
  {
  }

  // ---------------------------------------------------------------- painting

  /** What the last event painted on slot k leaves there. */
  function KindAt(es: seq<Event>, k: int): int {
    if es == [] then CLEAR
    else
      var n := |es| - 1;
      if Contains(es[n], k) then KindOf(es[n].possible) else KindAt(es[..n], k)
  }

  function Painted(es: seq<Event>, dayStart: int, hours: nat): (slots: seq<int>)
    ensures |slots| == 2 * hours
  {
    seq(2 * hours, i => KindAt(es, dayStart + i))
  }

  function CellOf(first: int, second: int): Cell {
    if first == CLEAR && second == CLEAR then OnCell
    else if first == PLANNED && second == PLANNED then NoCell
    else if first == POSSIBLE && second == POSSIBLE then MaybeCell
    else if first == PLANNED && second == CLEAR then NFirstCell
    else if first == CLEAR && second == PLANNED then NSecondCell
    else if first == POSSIBLE && second == CLEAR then MFirstCell
    else if first == CLEAR && second == POSSIBLE then MSecondCell
    else if first == PLANNED || second == PLANNED then NoCell
    else MaybeCell
  }

  function HourCells(slots: seq<int>): (cells: seq<Cell>)
    requires |slots| % 2 == 0
    ensures |cells| == |slots| / 2
  {
    seq(|slots| / 2, h requires 0 <= h < |slots| / 2 => CellOf(slots[2 * h], slots[2 * h + 1]))
  }

  /** The cell that shows a label. */
  function CellFor(l: Label): Cell {
    match l
    case Other => OnCell
    case No => NoCell
    case First => NFirstCell
    case Second => NSecondCell
    case Maybe => MaybeCell
    case MFirst => MFirstCell
    case MSecond => MSecondCell
  }

  lemma {:induction false} KindAtShows(es: seq<Event>, k: int)
    ensures KindAt(es, k) == CLEAR ==> forall b :: !Shows(es, k, b)
    ensures KindAt(es, k) != CLEAR ==> exists b :: KindAt(es, k) == KindOf(b) && Shows(es, k, b)
  {
    if es != [] {
      var n := |es| - 1;
      KindAtShows(es[..n], k);
      assert es == es[..n] + [es[n]];
      if Contains(es[n], k) {
        assert es[n] in es;
        assert Shows(es, k, es[n].possible);
      } else {
        forall b ensures Shows(es, k, b) <==> Shows(es[..n], k, b) {
          if Shows(es, k, b) { var e :| e in es && e.possible == b && Contains(e, k); assert e in es[..n]; }
          if Shows(es[..n], k, b) { var e :| e in es[..n] && e.possible == b && Contains(e, k); assert e in es; }
        }
      }
    }
  }

  predicate IsSlotMap(slots: seq<int>) {
    forall k :: 0 <= k < |slots| ==> slots[k] == CLEAR || slots[k] == PLANNED || slots[k] == POSSIBLE
  }

  lemma PaintedSlot(es: seq<Event>, slots: seq<int>, k: int)
    requires Fits(es, CellsOf(slots, 0)) && IsSlotMap(slots)
    ensures KindAt(es, k) == if 0 <= k < |slots| then slots[k] else CLEAR
  {
    KindAtShows(es, k);
    InCells(slots, 0, k, false);
    InCells(slots, 0, k, true);
    assert Shows(es, k, false) <==> (k, false) in CellsOf(slots, 0);
    assert Shows(es, k, true) <==> (k, true) in CellsOf(slots, 0);
  }

  lemma SlotsAreKinds(labels: seq<Label>)
    ensures IsSlotMap(Slots(labels))
  {
    var slots := Slots(labels);
    forall k | 0 <= k < |slots| ensures slots[k] == CLEAR || slots[k] == PLANNED || slots[k] == POSSIBLE {
      var h := k / 2;
      assert slots[2 * h] == FirstHalf(labels[h]) && slots[2 * h + 1] == SecondHalf(labels[h]);
    }
  }

  lemma TwoDaysIsSlotMap(today: seq<Label>, tomorrow: seq<Label>)
    ensures IsSlotMap(TwoDays(today, tomorrow))
  {
    SlotsAreKinds(today);
    SlotsAreKinds(tomorrow);
  }

  lemma CellRoundTrip(l: Label)
    ensures CellOf(FirstHalf(l), SecondHalf(l)) == CellFor(l)
  {
  }

  function CellsFor(labels: seq<Label>): (cells: seq<Cell>)
    ensures |cells| == |labels| && forall h :: 0 <= h < |labels| ==> cells[h] == CellFor(labels[h])
  {
    if labels == [] then [] else CellsFor(labels[..|labels| - 1]) + [CellFor(labels[|labels| - 1])]
  }

  lemma CellsOfSlots(labels: seq<Label>)
    ensures HourCells(Slots(labels)) == CellsFor(labels)
  {
    hide Slots, CellsFor, CellOf, CellFor;
    forall h | 0 <= h < |labels| ensures HourCells(Slots(labels))[h] == CellFor(labels[h]) {
      CellRoundTrip(labels[h]);
    }
  }

  lemma DayPaintsBack(es: seq<Event>, slots: seq<int>, day: seq<int>, start: nat)
    requires Fits(es, CellsOf(slots, 0)) && IsSlotMap(slots)
    requires start + |day| <= |slots| && slots[start..start + |day|] == day
    requires |day| % 2 == 0
    ensures Painted(es, start, |day| / 2) == day
  {
    hide Fits, CellsOf, IsSlotMap, KindAt;
    forall k | 0 <= k < |day| ensures KindAt(es, start + k) == day[k] {
      PaintedSlot(es, slots, start + k);
      assert slots[start..start + |day|][k] == slots[start + k];
    }
  }

  /** The chart cells of a day show the label of each hour. */
  ghost predicate PaintsBack(es: seq<Event>, dayStart: int, labels: seq<Label>) {
    forall h :: 0 <= h < |labels| ==> HourCells(Painted(es, dayStart, |labels|))[h] == CellFor(labels[h])
  }

  /** Main result: painting the parsed schedule gives each hour's label back, on
      both days, for days of any length. */
  lemma {:induction false} LabelsRoundTrip(today: seq<Label>, tomorrow: seq<Label>)
    ensures PaintsBack(ParseSchedule(today, tomorrow), 0, today)
    ensures PaintsBack(ParseSchedule(today, tomorrow), 2 * |today|, tomorrow)
  {
    hide ParseSchedule, Fits, CellsOf, Painted, HourCells, IsSlotMap;
    var es, slots := ParseSchedule(today, tomorrow), TwoDays(today, tomorrow);
    ScheduleFits(today, tomorrow);
    TwoDaysIsSlotMap(today, tomorrow);
    DayPaintsBack(es, slots, Slots(today), 0);
    DayPaintsBack(es, slots, Slots(tomorrow), 2 * |today|);
    CellsOfSlots(today);
    CellsOfSlots(tomorrow);
  }

  lemma CellsTellLabels(l: Label, m: Label)
    ensures CellFor(l) == CellFor(m) <==> l == m
  {
  }

  /** The chart of a day of the parsed schedule. */
  function Chart(today: seq<Label>, tomorrow: seq<Label>, dayStart: int, hours: nat): (cells: seq<Cell>)
    ensures |cells| == hours
  {
    HourCells(Painted(ParseSchedule(today, tomorrow), dayStart, hours))
  }

  /** No information is lost: two schedules whose charts look the same on both days
      come from the same labels. */
  lemma {:induction false} ChartsTellLabels(today: seq<Label>, tomorrow: seq<Label>,
                                            today': seq<Label>, tomorrow': seq<Label>)
    requires |today| == |today'| && |tomorrow| == |tomorrow'|
    requires Chart(today, tomorrow, 0, |today|) == Chart(today', tomorrow', 0, |today|)
    requires Chart(today, tomorrow, 2 * |today|, |tomorrow|) == Chart(today', tomorrow', 2 * |today|, |tomorrow|)
    ensures today == today' && tomorrow == tomorrow'
  {
    hide ParseSchedule, Painted, HourCells, CellFor;
    LabelsRoundTrip(today, tomorrow);
    LabelsRoundTrip(today', tomorrow');
    forall h | 0 <= h < |today| ensures today[h] == today'[h] { CellsTellLabels(today[h], today'[h]); }
    forall h | 0 <= h < |tomorrow| ensures tomorrow[h] == tomorrow'[h] { CellsTellLabels(tomorrow[h], tomorrow'[h]); }
  }

  /** The intervals of a day: the unique sorted, non-touching cover of its slots of
      each kind, left alone by merging, 30 minutes for every off slot. */
  lemma {:induction false} DayIntervals(labels: seq<Label>, kind: int, cover: seq<Interval>)
    requires Canonical(cover) && forall k :: Covers(cover, k) <==> 0 <= k < 2 * |labels| && Slots(labels)[k] == kind
    ensures Runs(Slots(labels), kind) == cover && Merged(cover) == cover
    ensures TotalMinutes(cover) == 30 * Count(Slots(labels), kind)
  {
    RunsCover(Slots(labels), kind);
    CoverIsUnique(Runs(Slots(labels), kind), cover);
    MergeKeepsCanonical(cover);
    RunsMinutes(Slots(labels), kind);
  }

  // ------------------------------------------------------------ the next event

  /** The clock counts microseconds from the start of today. */
  const MICROS_PER_MINUTE: int := 60_000_000
  const MICROS_PER_SLOT: int := 30 * MICROS_PER_MINUTE

  function Time(slot: int): int { slot * MICROS_PER_SLOT }

  datatype NextEvent =
    | PowerOn(time: int, startTime: int, minutes: int, possible: bool)
    | PowerOff(time: int, endTime: int, minutes: int, possible: bool)

  function Minutes(from: int, slot: int): int { (Time(slot) - from) / MICROS_PER_MINUTE }

  /** Index after the last event of the chain that es[j - 1] is in. */
  function ChainEnd(es: seq<Event>, j: nat): (r: nat)
    requires 0 < j <= |es|
    ensures j <= r <= |es|
    decreases |es| - j
  {
    if j < |es| && es[j].start == es[j - 1].end then ChainEnd(es, j + 1) else j
  }

  predicate AnyPossible(es: seq<Event>) { exists e :: e in es && e.possible }

  function FindNext(es: seq<Event>, i: nat, now: int): Option<NextEvent>
    requires i <= |es|
    decreases |es| - i
  {
    if i == |es| then None
    else if Time(es[i].start) <= now < Time(es[i].end) then
      var j := ChainEnd(es, i + 1);
      var end := es[j - 1].end;
      Some(PowerOn(end, es[i].start, Minutes(now, end), AnyPossible(es[i..j])))
    else if now < Time(es[i].start) then
      Some(PowerOff(es[i].start, es[i].end, Minutes(now, es[i].start), es[i].possible))
    else FindNext(es, i + 1, now)
  }

  function KindOn(slots: seq<int>, k: int): int {
    if 0 <= k < |slots| then slots[k] else CLEAR
  }

  /** What the next event should be, read off the slot map. */
  ghost predicate Agrees(next: Option<NextEvent>, slots: seq<int>, now: int) {
    var k := now / (30 * 60_000_000);
    match next
    case Some(PowerOn(time, start, minutes, possible)) =>
      && start <= k < time && KindOn(slots, k) != CLEAR
      && (forall s :: start <= s < time ==> KindOn(slots, s) != CLEAR) && KindOn(slots, time) == CLEAR
      && (forall s :: start <= s <= k ==> KindOn(slots, s) == KindOn(slots, k))
      && (possible <==> exists s :: start <= s < time && KindOn(slots, s) == POSSIBLE)
      && minutes * 60_000_000 <= time * (30 * 60_000_000) - now < (minutes + 1) * 60_000_000
    case Some(PowerOff(time, end, minutes, possible)) =>
      && k < time < end && (forall s :: k <= s < time ==> KindOn(slots, s) == CLEAR)
      && (forall s :: time <= s < end ==> KindOn(slots, s) == KindOf(possible))
      && minutes * 60_000_000 <= time * (30 * 60_000_000) - now < (minutes + 1) * 60_000_000
    case None => forall s :: s >= k ==> KindOn(slots, s) == CLEAR
  }

  lemma SlotOfTime(slot: int, now: int)
    ensures Time(slot) <= now <==> slot <= now / MICROS_PER_SLOT
  {
  }

  lemma ShownKind(es: seq<Event>, slots: seq<int>, i: nat, k: int)
    requires Fits(es, CellsOf(slots, 0)) && i < |es| && Contains(es[i], k)
    ensures KindOn(slots, k) == KindOf(es[i].possible)
  {
    assert es[i] in es;
    assert Shows(es, k, es[i].possible);
    InCells(slots, 0, k, es[i].possible);
  }

  lemma ClearSlot(es: seq<Event>, slots: seq<int>, k: int)
    requires Fits(es, CellsOf(slots, 0)) && IsSlotMap(slots)
    requires forall i :: 0 <= i < |es| ==> !Contains(es[i], k)
    ensures KindOn(slots, k) == CLEAR
  {
    forall b ensures !Shows(es, k, b) {}
    InCells(slots, 0, k, false);
    InCells(slots, 0, k, true);
  }

  lemma {:induction false} ChainCovers(es: seq<Event>, slots: seq<int>, i: nat, j: nat)
    requires Ordered(es) && Fits(es, CellsOf(slots, 0)) && IsSlotMap(slots) && i < j <= |es|
    requires forall m :: i < m < j ==> es[m].start == es[m - 1].end
    ensures forall m :: i < m < ChainEnd(es, j) ==> es[m].start == es[m - 1].end
    ensures KindOn(slots, es[ChainEnd(es, j) - 1].end) == CLEAR
    decreases |es| - j
  {
    if j < |es| && es[j].start == es[j - 1].end {
      ChainCovers(es, slots, i, j + 1);
    } else {
      ClearSlot(es, slots, es[j - 1].end);
    }
  }

  lemma {:induction false} InChain(es: seq<Event>, i: nat, j: nat, s: int) returns (m: nat)
    requires i < j <= |es| && es[i].start <= s < es[j - 1].end
    requires forall m :: i < m < j ==> es[m].start == es[m - 1].end
    ensures i <= m < j && Contains(es[m], s)
  {
    m := j - 1;
    if s < es[m].start {
      m := InChain(es, i, j - 1, s);
    }
  }

  lemma ChainIsOff(es: seq<Event>, slots: seq<int>, i: nat, j: nat)
    requires Ordered(es) && Fits(es, CellsOf(slots, 0)) && i < j <= |es|
    requires forall m :: i < m < j ==> es[m].start == es[m - 1].end
    ensures forall s :: es[i].start <= s < es[j - 1].end ==> KindOn(slots, s) != CLEAR
  {
    hide CellsOf, Fits, KindOn;
    forall s | es[i].start <= s < es[j - 1].end ensures KindOn(slots, s) != CLEAR {
      var m := InChain(es, i, j, s);
      ShownKind(es, slots, m, s);
    }
  }

  lemma InsideChain(es: seq<Event>, i: nat, j: nat, m: nat)
    requires Ordered(es) && i <= m < j <= |es|
    ensures es[i].start <= es[m].start && es[m].end <= es[j - 1].end
  {
  }

  /** Some slot of a chain is possible iff some event of it is. */
  lemma ChainPossible(es: seq<Event>, slots: seq<int>, i: nat, j: nat)
    requires Ordered(es) && Fits(es, CellsOf(slots, 0)) && i < j <= |es|
    requires forall m :: i < m < j ==> es[m].start == es[m - 1].end
    ensures AnyPossible(es[i..j]) <==>
      exists s :: es[i].start <= s < es[j - 1].end && KindOn(slots, s) == POSSIBLE
  {
    hide Fits, CellsOf, KindOn;
    if AnyPossible(es[i..j]) {
      var e :| e in es[i..j] && e.possible;
      var m :| i <= m < j && es[m] == e;
      InsideChain(es, i, j, m);
      ShownKind(es, slots, m, e.start);
      assert KindOn(slots, e.start) == POSSIBLE;
    }
    if s :| es[i].start <= s < es[j - 1].end && KindOn(slots, s) == POSSIBLE {
      var m := InChain(es, i, j, s);
      ShownKind(es, slots, m, s);
      assert es[i..j][m - i] == es[m];
    }
  }

  lemma MinutesBetween(now: int, slot: int)
    ensures var m := Minutes(now, slot);
      m * MICROS_PER_MINUTE <= Time(slot) - now < (m + 1) * MICROS_PER_MINUTE
  {
  }

  lemma OutageEndAgrees(es: seq<Event>, slots: seq<int>, i: nat, now: int)
    requires Ordered(es) && Fits(es, CellsOf(slots, 0)) && IsSlotMap(slots) && i < |es|
    requires Time(es[i].start) <= now < Time(es[i].end)
    ensures Agrees(FindNext(es, i, now), slots, now)
  {
    hide CellsOf, Fits, IsSlotMap, KindOn, AnyPossible, Minutes, ChainEnd;
    var j := ChainEnd(es, i + 1);
    ChainCovers(es, slots, i, i + 1);
    ChainIsOff(es, slots, i, j);
    ChainPossible(es, slots, i, j);
    MinutesBetween(now, es[j - 1].end);
    SlotOfTime(es[i].start, now);
    SlotOfTime(es[i].end, now);
    forall s | es[i].start <= s <= now / MICROS_PER_SLOT ensures KindOn(slots, s) == KindOf(es[i].possible) {
      ShownKind(es, slots, i, s);
    }
    assert i < j - 1 ==> es[i].end <= es[j - 1].start;
  }

  lemma {:induction false} FindNextAgrees(es: seq<Event>, slots: seq<int>, i: nat, now: int)
    requires Ordered(es) && Fits(es, CellsOf(slots, 0)) && IsSlotMap(slots) && i <= |es|
    requires forall m :: 0 <= m < i ==> Time(es[m].end) <= now
    ensures Agrees(FindNext(es, i, now), slots, now)
    decreases |es| - i
  {
    hide CellsOf, Fits, IsSlotMap;
    var k := now / MICROS_PER_SLOT;
    forall m | 0 <= m < i ensures es[m].end <= k { SlotOfTime(es[m].end, now); }
    if i == |es| {
      forall s | s >= k ensures KindOn(slots, s) == CLEAR { ClearSlot(es, slots, s); }
    } else if Time(es[i].start) <= now < Time(es[i].end) {
      OutageEndAgrees(es, slots, i, now);
    } else if now < Time(es[i].start) {
      SlotOfTime(es[i].start, now);
      forall s | k <= s < es[i].start ensures KindOn(slots, s) == CLEAR { ClearSlot(es, slots, s); }
      forall s | es[i].start <= s < es[i].end ensures KindOn(slots, s) == KindOf(es[i].possible) {
        ShownKind(es, slots, i, s);
      }
    } else {
      FindNextAgrees(es, slots, i + 1, now);
    }
  }

  lemma RunEdges(ps: seq<Interval>, slots: seq<int>, kind: int, i: nat)
    requires Canonical(ps) && i < |ps|
    requires forall k :: Covers(ps, k) <==> 0 <= k < |slots| && slots[k] == kind
    ensures ps[i].start > 0 ==> ps[i].start - 1 < |slots| && slots[ps[i].start - 1] != kind
    ensures 0 <= ps[i].end < |slots| ==> slots[ps[i].end] != kind
  {
    assert Holds(ps[i], ps[i].start);
    assert Covers(ps, ps[i].start);
    forall k | k == ps[i].start - 1 || k == ps[i].end ensures !Covers(ps, k) {}
    assert !Covers(ps, ps[i].start - 1) && !Covers(ps, ps[i].end);
  }

  lemma DayEventEdges(labels: seq<Label>, offset: int, e: Event)
    requires e in DayEvents(labels, offset)
    ensures var a, b, slots := e.start - offset, e.end - offset, Slots(labels);
      && 0 <= a < b <= |slots|
      && (a > 0 ==> slots[a - 1] != KindOf(e.possible))
      && (b < |slots| ==> slots[b] != KindOf(e.possible))
  {
    hide Runs, Merged, Slots, AsEvents, Covers;
    var slots, kind := Slots(labels), KindOf(e.possible);
    var ps := Runs(slots, kind);
    RunsCover(slots, PLANNED);
    RunsCover(slots, POSSIBLE);
    MergeKeepsCanonical(Runs(slots, PLANNED));
    MergeKeepsCanonical(Runs(slots, POSSIBLE));
    assert e in AsEvents(ps, offset, e.possible);
    var i :| 0 <= i < |ps| && AsEvents(ps, offset, e.possible)[i] == e;
    RunEdges(ps, slots, kind, i);
  }

  lemma {:induction false} NextComesFrom(es: seq<Event>, i: nat, now: int)
    requires i <= |es|
    ensures match FindNext(es, i, now)
      case Some(PowerOn(_, start, _, _)) =>
        exists e :: e in es && e.start == start && Time(e.start) <= now < Time(e.end)
      case Some(PowerOff(time, end, _, possible)) => Event(time, end, possible) in es
      case None => true
    decreases |es| - i
  {
    if i < |es| {
      assert es[i] in es;
      if now >= Time(es[i].end) || now < Time(es[i].start) { NextComesFrom(es, i + 1, now); }
    }
  }

  lemma {:induction false} SortMembers(es: seq<Event>)
    ensures forall e :: e in Sort(es) <==> e in es
  {
    if es != [] {
      SortMembers(es[1..]);
      InsertMembers(es[0], Sort(es[1..]));
      assert es == [es[0]] + es[1..];
    }
  }

  lemma {:induction false} InsertMembers(e: Event, es: seq<Event>)
    ensures forall f :: f in Insert(e, es) <==> f == e || f in es
  {
    if es != [] && e.start > es[0].start {
      InsertMembers(e, es[1..]);
      assert es == [es[0]] + es[1..];
    }
  }

  /** The event reported is a whole run of its kind within its day. */
  ghost predicate WholeEvent(next: Option<NextEvent>, slots: seq<int>, midnight: int, now: int) {
    match next
    case Some(PowerOn(_, start, _, _)) =>
      start == midnight || KindOn(slots, start - 1) != KindOn(slots, now / MICROS_PER_SLOT)
    case Some(PowerOff(_, end, _, possible)) => end == midnight || KindOn(slots, end) != KindOf(possible)
    case None => true
  }

  lemma EventEdges(today: seq<Label>, tomorrow: seq<Label>, e: Event)
    requires e in ParseSchedule(today, tomorrow)
    ensures var slots := TwoDays(today, tomorrow);
      && (e.start == 2 * |today| || KindOn(slots, e.start - 1) != KindOf(e.possible))
      && (e.end == 2 * |today| || KindOn(slots, e.end) != KindOf(e.possible))
  {
    SortMembers(DayEvents(today, 0) + DayEvents(tomorrow, 2 * |today|));
    hide DayEvents, Slots;
    if e in DayEvents(today, 0) {
      DayEventEdges(today, 0, e);
    } else {
      DayEventEdges(tomorrow, 2 * |today|, e);
    }
  }

  lemma NextEventIsWhole(today: seq<Label>, tomorrow: seq<Label>, now: int)
    ensures WholeEvent(FindNext(ParseSchedule(today, tomorrow), 0, now), TwoDays(today, tomorrow), 2 * |today|, now)
  {
    hide ParseSchedule, FindNext, TwoDays, KindOn, CellsOf, Fits;
    var es, slots := ParseSchedule(today, tomorrow), TwoDays(today, tomorrow);
    NextComesFrom(es, 0, now);
    ScheduleFits(today, tomorrow);
    match FindNext(es, 0, now)
    case Some(PowerOn(_, start, _, _)) =>
      var e :| e in es && e.start == start && Time(e.start) <= now < Time(e.end);
      var i :| 0 <= i < |es| && es[i] == e;
      SlotOfTime(e.start, now);
      SlotOfTime(e.end, now);
      ShownKind(es, slots, i, now / MICROS_PER_SLOT);
      EventEdges(today, tomorrow, e);
    case Some(PowerOff(time, end, _, possible)) => EventEdges(today, tomorrow, Event(time, end, possible));
    case None =>
  }

  /** Main result: for any labels of the two days and any time, the next event is
      the one the painted slot map shows: the end of the whole run of off slots
      around now, else the start of the next run, else nothing. */
  lemma NextEventAgrees(today: seq<Label>, tomorrow: seq<Label>, now: int)
    ensures var next := FindNext(ParseSchedule(today, tomorrow), 0, now);
      && Agrees(next, TwoDays(today, tomorrow), now)
      && WholeEvent(next, TwoDays(today, tomorrow), 2 * |today|, now)
  {
    ScheduleFits(today, tomorrow);
    TwoDaysIsSlotMap(today, tomorrow);
    FindNextAgrees(ParseSchedule(today, tomorrow), TwoDays(today, tomorrow), 0, now);
    NextEventIsWhole(today, tomorrow, now);
  }

  // ---------------------------------------------------------------- the code

  ghost predicate EndsBy(ps: seq<Interval>, k: int) { forall i :: 0 <= i < |ps| ==> ps[i].end <= k }

  /** Added after the periods already there, a period makes the list cover its slots
      besides, and leaves it sorted and without touching neighbours. */
  method AddPeriod(ps: seq<Interval>, start: int, end: int) returns (qs: seq<Interval>)
    ensures qs == AddOrExtend(ps, start, end)
    ensures Canonical(ps) && EndsBy(ps, start) && start < end ==> Canonical(qs) && EndsBy(qs, end)
    ensures Canonical(ps) && EndsBy(ps, start) && start < end ==>
      forall k :: Covers(qs, k) <==> Covers(ps, k) || start <= k < end
  {
    if ps != [] && ps[|ps| - 1].end == start {
      qs := ps[|ps| - 1 := ps[|ps| - 1].(end := end)];
    } else {
      qs := ps + [Interval(start, end)];
    }
    if Canonical(ps) && EndsBy(ps, start) && start < end { AddedIsCanonicalCover(ps, start, end); }
  }

  lemma AddedIsCanonicalCover(ps: seq<Interval>, start: int, end: int)
    requires Canonical(ps) && start < end && EndsBy(ps, start)
    ensures Canonical(AddOrExtend(ps, start, end)) && EndsBy(AddOrExtend(ps, start, end), end)
    ensures forall k :: Covers(AddOrExtend(ps, start, end), k) <==> Covers(ps, k) || start <= k < end
  {
    hide AddOrExtend, Covers;
    AddKeepsCanonical(ps, start, end);
    forall k ensures Covers(AddOrExtend(ps, start, end), k) <==> Covers(ps, k) || start <= k < end {
      AddedCovers(ps, start, end, k);
    }
  }

  method MergeConsecutive(ps: seq<Interval>) returns (merged: seq<Interval>)
    ensures merged == Merged(ps)
  {
    merged := [];
    for i := 0 to |ps|
      invariant merged == Merged(ps[..i])
    {
      merged := AddPeriod(merged, ps[i].start, ps[i].end);
      assert ps[..i + 1][..i] == ps[..i];
    }
    assert ps[..|ps|] == ps;
  }

  /** The label marks this half of its hour, the first being 0. */
  predicate MarksHalf(l: Label, half: int) {
    (half == 0 && FirstHalf(l) != CLEAR) || (half == 1 && SecondHalf(l) != CLEAR)
  }

  /** After the periods of the earlier hours, exactly the half hours that the label
      marks are covered besides; hour counts from 1. */
  method AddOutagePeriod(ps: seq<Interval>, hour: nat, value: Label) returns (qs: seq<Interval>)
    ensures Canonical(ps) && EndsBy(ps, 2 * hour - 2) ==> Canonical(qs) && EndsBy(qs, 2 * hour)
    ensures Canonical(ps) && EndsBy(ps, 2 * hour - 2) ==>
      forall k :: Covers(qs, k) <==> Covers(ps, k) || MarksHalf(value, k - (2 * hour - 2))
  {
    qs := ps;
    if value == No || value == Maybe {
      qs := AddPeriod(ps, 2 * hour - 2, 2 * hour);
    } else if value == First || value == MFirst {
      qs := AddPeriod(ps, 2 * hour - 2, 2 * hour - 1);
    } else if value == Second || value == MSecond {
      qs := AddPeriod(ps, 2 * hour - 1, 2 * hour);
    }
  }

  /** The list holds exactly the slots of its kind of the first `hours` hours. */
  ghost predicate ParsedSoFar(ps: seq<Interval>, labels: seq<Label>, kind: int, hours: nat)
    requires hours <= |labels|
  {
    && Canonical(ps) && EndsBy(ps, 2 * hours)
    && forall k :: Covers(ps, k) <==> 0 <= k < 2 * hours && Slots(labels)[k] == kind
  }

  lemma HourParsed(ps: seq<Interval>, qs: seq<Interval>, labels: seq<Label>, kind: int, hour: nat)
    requires 0 < hour <= |labels| && ParsedSoFar(ps, labels, kind, hour - 1)
    requires Canonical(qs) && EndsBy(qs, 2 * hour)
    requires forall k :: Covers(qs, k) <==>
      Covers(ps, k) || (k == 2 * hour - 2 && FirstHalf(labels[hour - 1]) == kind)
                    || (k == 2 * hour - 1 && SecondHalf(labels[hour - 1]) == kind)
    ensures ParsedSoFar(qs, labels, kind, hour)
  {
    hide Covers, Canonical;
    var slots := Slots(labels);
    assert slots[2 * (hour - 1)] == FirstHalf(labels[hour - 1]);
    assert slots[2 * (hour - 1) + 1] == SecondHalf(labels[hour - 1]);
  }

  lemma AllParsed(ps: seq<Interval>, labels: seq<Label>, kind: int)
    requires ParsedSoFar(ps, labels, kind, |labels|)
    ensures ps == Runs(Slots(labels), kind) == Merged(ps)
  {
    hide Covers, Canonical;
    RunsCover(Slots(labels), kind);
    CoverIsUnique(ps, Runs(Slots(labels), kind));
    MergeKeepsCanonical(ps);
  }

  method ParseHourlySchedule(labels: seq<Label>) returns (planned: seq<Interval>, possible: seq<Interval>)
    ensures planned == Merged(Runs(Slots(labels), PLANNED)) && ParsedSoFar(planned, labels, PLANNED, |labels|)
    ensures possible == Merged(Runs(Slots(labels), POSSIBLE)) && ParsedSoFar(possible, labels, POSSIBLE, |labels|)
  {
    planned, possible := [], [];
    for hour := 1 to |labels| + 1
      invariant ParsedSoFar(planned, labels, PLANNED, hour - 1)
      invariant ParsedSoFar(possible, labels, POSSIBLE, hour - 1)
    {
      hide Covers, Canonical, Slots;
      var value := labels[hour - 1];
      ghost var p, q := planned, possible;
      if value == No || value == First || value == Second {
        planned := AddOutagePeriod(planned, hour, value);
      } else if value == Maybe || value == MFirst || value == MSecond {
        possible := AddOutagePeriod(possible, hour, value);
      }
      HourParsed(p, planned, labels, PLANNED, hour);
      HourParsed(q, possible, labels, POSSIBLE, hour);
    }
    AllParsed(planned, labels, PLANNED);
    AllParsed(possible, labels, POSSIBLE);
    planned := MergeConsecutive(planned);
    possible := MergeConsecutive(possible);
  }

  method AppendEvents(events: seq<Event>, periods: seq<Interval>, offset: int, possible: bool) returns (out: seq<Event>)
    ensures out == events + AsEvents(periods, offset, possible)
  {
    out := events;
    for i := 0 to |periods|
      invariant out == events + AsEvents(periods[..i], offset, possible)
    {
      assert periods[..i + 1][..i] == periods[..i];
      out := out + [Event(periods[i].start + offset, periods[i].end + offset, possible)];
    }
    assert periods[..|periods|] == periods;
  }

  /** The whole schedule of a queue: in order, no two events overlapping, and
      showing on each slot of the two days what its label says. */
  method ParseScheduleForQueue(today: seq<Label>, tomorrow: seq<Label>) returns (events: seq<Event>)
    ensures events == ParseSchedule(today, tomorrow) && Ordered(events)
    ensures Fits(events, CellsOf(TwoDays(today, tomorrow), 0))
  {
    hide AsEvents, Runs, Merged, Sort, Slots, CellsOf, Fits;
    var planned, possible := ParseHourlySchedule(today);
    events := AppendEvents([], planned, 0, false);
    events := AppendEvents(events, possible, 0, true);
    assert events == DayEvents(today, 0);
    planned, possible := ParseHourlySchedule(tomorrow);
    var n := 2 * |today|;
    events := AppendEvents(events, planned, n, false);
    events := AppendEvents(events, possible, n, true);
    assert events == DayEvents(today, 0) + DayEvents(tomorrow, n);
    events := Sort(events);
    ScheduleFits(today, tomorrow);
  }

  method GetHourStates(events: seq<Event>, dayStart: int, hours: nat) returns (cells: seq<Cell>)
    ensures cells == HourCells(Painted(events, dayStart, hours))
  {
    var size := 2 * hours;
    var halfMap := new int[size](_ => CLEAR);
    for j := 0 to |events|
      invariant forall k :: 0 <= k < size ==> halfMap[k] == KindAt(events[..j], dayStart + k)
    {
      var ev := events[j];
      assert events[..j + 1][..j] == events[..j];
      var a := if ev.start - dayStart > 0 then ev.start - dayStart else 0;
      var b := if ev.end - dayStart < size then ev.end - dayStart else size;
      var val := if ev.possible then POSSIBLE else PLANNED;
      var i := a;
      while i < b
        invariant i <= a || a <= i <= b
        invariant forall k :: 0 <= k < size ==>
          halfMap[k] == if a <= k < i then val else KindAt(events[..j], dayStart + k)
      {
        halfMap[i] := val;
        i := i + 1;
      }
      forall k | 0 <= k < size ensures halfMap[k] == KindAt(events[..j + 1], dayStart + k) {
        assert Contains(ev, dayStart + k) <==> a <= k < b;
      }
    }
    assert events[..|events|] == events;
    ghost var painted := Painted(events, dayStart, hours);
    cells := [];
    for h := 0 to hours
      invariant |cells| == h
      invariant forall k :: 0 <= k < h ==> cells[k] == CellOf(painted[2 * k], painted[2 * k + 1])
    {
      cells := cells + [CellOf(halfMap[2 * h], halfMap[2 * h + 1])];
    }
  }

  lemma OnePossible(es: seq<Event>, i: nat)
    requires i < |es|
    ensures AnyPossible(es[i..i + 1]) <==> es[i].possible
  {
    assert es[i..i + 1] == [es[i]];
  }

  lemma MorePossible(es: seq<Event>, i: nat, j: nat)
    requires i <= j < |es|
    ensures AnyPossible(es[i..j + 1]) <==> AnyPossible(es[i..j]) || es[j].possible
  {
    assert es[i..j + 1] == es[i..j] + [es[j]];
  }

  method FindNextEvent(events: seq<Event>, now: int) returns (next: Option<NextEvent>)
    ensures next == FindNext(events, 0, now)
  {
    var i := 0;
    while i < |events|
      invariant 0 <= i <= |events|
      invariant FindNext(events, i, now) == FindNext(events, 0, now)
    {
      var ev := events[i];
      if Time(ev.start) <= now < Time(ev.end) {
        var finalEnd := ev.end;
        hide AnyPossible;
        var possible := ev.possible;
        var j := i + 1;
        OnePossible(events, i);
        while j < |events| && events[j].start == finalEnd
          invariant i < j <= |events|
          invariant finalEnd == events[j - 1].end && ChainEnd(events, j) == ChainEnd(events, i + 1)
          invariant possible == AnyPossible(events[i..j])
        {
          MorePossible(events, i, j);
          finalEnd := events[j].end;
          possible := possible || events[j].possible;
          j := j + 1;
        }
        return Some(PowerOn(finalEnd, ev.start, Minutes(now, finalEnd), possible));
      }
      if now < Time(ev.start) {
        return Some(PowerOff(ev.start, ev.end, Minutes(now, ev.start), ev.possible));
      }
      i := i + 1;
    }
    next := None;
  }
}
