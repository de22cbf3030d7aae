/** The price of a start and the warnings about workload, in minutes on the clock: what the period
    arrays, day ranges and running counts stand for. */
module CostTheorems {
  import opened Wrappers
  import opened PlanningModels
  import opened Sorting
  import opened BlockLists
  import opened PlanningGrid
  import opened GridFacts
  import opened PlannerSpec
  import opened PlaceFacts
  import opened LockPhase
  import opened PlanNotes
  import opened Counting

  // ----- Periods -----

  /** The minute lies in the period by its local hour; without a preference every minute does. */
  predicate InPeriod(zone: Zone, p: Period, minute: int) {
    var hour := zone.localHour(minute * MINUTE);
    match p
    case Night => true
    case Morning => 6 <= hour < 12
    case Afternoon => 12 <= hour < 18
    case Evening => 18 <= hour
  }

  /** The minutes of `[from, to)` outside a period. */
  ghost function Outside(zone: Zone, p: Period, from: int, to: int): set<int> {
    set m | from <= m < to && !InPeriod(zone, p, m)
  }

  lemma PeriodAt(zone: Zone, start: int, size: nat, p: Period, i: nat)
    requires i < size && !p.Night?
    ensures PeriodsOf(zone, start, size)[i] == p <==> InPeriod(zone, p, start + i)
  {
    assert InstantAt(start, i) == (start + i) * MINUTE;
    assert PeriodsOf(zone, start, size)[i] == PeriodOf(zone.localHour((start + i) * MINUTE));
  }

  lemma OutsideStep(zone: Zone, p: Period, from: int, last: int)
    requires from <= last
    ensures |Outside(zone, p, from, last + 1)|
            == |Outside(zone, p, from, last)| + if InPeriod(zone, p, last) then 0 else 1
  {
    hide InPeriod;
    assert Outside(zone, p, from, last + 1)
      == Outside(zone, p, from, last) + if InPeriod(zone, p, last) then {} else {last};
  }

  lemma {:induction false} OffPeriodExact(zone: Zone, start: int, size: nat, p: Period, lo: nat, hi: nat)
    requires hi <= size && !p.Night?
    ensures OffPeriod(PeriodsOf(zone, start, size), p, lo, hi) == |Outside(zone, p, start + lo, start + hi)|
    decreases hi
  {
    hide InPeriod, PeriodOf;
    if hi <= lo {
      assert Outside(zone, p, start + lo, start + hi) == {};
    } else {
      OffPeriodExact(zone, start, size, p, lo, hi - 1);
      PeriodAt(zone, start, size, p, hi - 1);
      OutsideStep(zone, p, start + lo, start + hi - 1);
    }
  }

  lemma PeriodCostExact(zone: Zone, start: int, size: nat, p: Period, weight: nat, lo: nat, hi: nat)
    requires hi <= size
    ensures PeriodCost(PeriodsOf(zone, start, size), p, weight, lo, hi)
            == weight * |Outside(zone, p, start + lo, start + hi)|
  {
    if p.Night? {
      assert Outside(zone, p, start + lo, start + hi) == {};
    } else {
      OffPeriodExact(zone, start, size, p, lo, hi);
    }
  }

  // ----- Days -----

  /** The minutes a piece spends on one day. */
  ghost function SpentOn(day: Interval, start: int, end: int): set<int> {
    set m | day.lo <= m < day.hi && Inside(start, end, m)
  }

  lemma SharedSize(day: Interval, start: int, end: int)
    ensures Shared(day, start, end) == |SpentOn(day, start, end)|
  {
    var lo, hi := Max(day.lo, start), Min(day.hi, end);
    RangeSize(lo, hi);
    forall m ensures m in SpentOn(day, start, end) <==> m in Range(lo, hi) {
      assert Inside(lo, hi, m) <==> lo <= m < hi;
    }
    assert SpentOn(day, start, end) == Range(lo, hi);
  }

  predicate Beyond(target: nat, j: int) { target <= j }

  /** The added minutes that come after the target, counted on from the minutes already used. */
  ghost function Excess(used: nat, added: nat, target: nat): set<int> {
    set j | used <= j < used + added && Beyond(target, j)
  }

  lemma OverflowSize(used: nat, added: nat, target: nat)
    ensures Overflow(used, added, target) == |Excess(used, added, target)|
  {
    var lo := Max(used, target);
    RangeSize(lo, used + added);
    forall j ensures j in Excess(used, added, target) <==> j in Range(lo, used + added) {
      assert Inside(lo, used + added, j) <==> lo <= j < used + added;
    }
    assert Excess(used, added, target) == Range(lo, used + added);
  }

  ghost function DayCharge(g: Grid, used: seq<nat>, start: nat, length: nat, k: nat): nat
    requires |used| == |g.days| == |g.targets| && k < |g.days| && length > 0
  {
    |Excess(used[k], |SpentOn(g.days[k], start, start + length)|, g.targets[k])| * 300 / length
  }

  ghost function DayCharges(g: Grid, used: seq<nat>, start: nat, length: nat, n: nat): seq<nat>
    requires |used| == |g.days| == |g.targets| && n <= |g.days| && length > 0
  {
    seq(n, k requires 0 <= k < n => DayCharge(g, used, start, length, k))
  }

  lemma {:induction false} OverloadExact(g: Grid, used: seq<nat>, start: nat, length: nat, n: nat)
    requires |used| == |g.days| == |g.targets| && n <= |g.days| && length > 0
    ensures OverloadCost(g.days, g.targets, used, start, length, n) == Sum(DayCharges(g, used, start, length, n))
  {
    if n == 0 {
    } else {
      OverloadExact(g, used, start, length, n - 1);
      SharedSize(g.days[n - 1], start, start + length);
      OverflowSize(used[n - 1], Shared(g.days[n - 1], start, start + length), g.targets[n - 1]);
      var charges := DayCharges(g, used, start, length, n);
      assert charges[..n - 1] == DayCharges(g, used, start, length, n - 1);
      assert charges[n - 1] == DayCharge(g, used, start, length, n - 1);
    }
  }

  lemma BuiltPeriods(w: PlanningWindow, previous: seq<Block>, tasks: seq<Task>, prefs: Preferences, zone: Zone,
                     now: int, g: Grid)
    requires BuildGrid(w, previous, tasks, prefs, zone, now) == Success(g)
    ensures g.periods == PeriodsOf(zone, g.start, g.size) && g.prefs == prefs
    ensures |g.targets| == |g.days| && g.pending == ById(PendingOnly(tasks))
    ensures g.previous == PreviousOf(previous, g.pending)
    ensures g.targets == Targets(g.avail, g.days, prefs.workload) && |g.avail| == g.size
    ensures PartitionOf(g.days, g.size)
  {
    hide PartitionOf, ClipEvents, HorizonOf, SnapshotMatches, DayRanges, PeriodsOf, LocalDays, ById, PendingOnly,
         PreviousOf, Queue;
    var h, events := BuiltGridShape(w, previous, tasks, prefs, zone, now);
    MadeDaysOK(h, w, previous, tasks, prefs, zone, now, events);
  }

  /** The price of a start: six, two and one for each minute outside the task's, the chronotype's and
      the deep-work period, by the hundred for each minute of the piece; three hundred, likewise, for
      each minute beyond a day's target; and the displacement from the old start. Each quotient is
      rounded down. */
  lemma CostExact(w: PlanningWindow, previous: seq<Block>, tasks: seq<Task>, prefs: Preferences, zone: Zone, now: int,
                  g: Grid, t: Task, used: seq<nat>, start: nat, length: nat)
    requires BuildGrid(w, previous, tasks, prefs, zone, now) == Success(g)
    requires Scorable(g, used) && length > 0 && start + length <= g.size
    ensures var from, to := g.start + start, g.start + start + length;
      Cost(g, t, used, start, length) ==
        (6 * |Outside(zone, t.preferred, from, to)| + 2 * |Outside(zone, prefs.chronotype, from, to)|
         + |Outside(zone, prefs.deepWork, from, to)|) * 100 / length
        + Sum(DayCharges(g, used, start, length, |g.days|)) + MoveCost(g, t, start)
  {
    hide BuildGrid, PeriodCost, OverloadCost, MoveCost, PeriodsOf, DayCharges, Outside, PartitionOf;
    BuiltPeriods(w, previous, tasks, prefs, zone, now, g);
    PeriodCostExact(zone, g.start, g.size, t.preferred, 6, start, start + length);
    PeriodCostExact(zone, g.start, g.size, prefs.chronotype, 2, start, start + length);
    PeriodCostExact(zone, g.start, g.size, prefs.deepWork, 1, start, start + length);
    OverloadExact(g, used, start, length, |g.days|);
  }

  // ----- Displacement -----

  lemma {:induction false} EarliestExact(blocks: seq<Block>)
    requires blocks != []
    ensures exists b :: b in blocks && b.start == EarliestStart(blocks)
    ensures forall b :: b in blocks ==> EarliestStart(blocks) <= b.start
  {
    if |blocks| == 1 {
      assert blocks[0] in blocks;
    } else {
      var init, last := blocks[..|blocks| - 1], blocks[|blocks| - 1];
      EarliestExact(init);
      assert blocks == init + [last];
      var b :| b in init && b.start == EarliestStart(init);
      assert b in blocks && last in blocks;
    }
  }

  /** The first of a task's previous blocks. */
  ghost predicate FirstOf(previous: seq<Block>, id: TaskId, first: Block) {
    first in previous && first.task == id && forall b :: b in previous && b.task == id ==> first.start <= b.start
  }

  /** Every fifteen minutes from the task's first previous start cost 8, 3 or 1 by flexibility; a task
      without previous blocks pays nothing. */
  lemma MoveExact(w: PlanningWindow, previous: seq<Block>, tasks: seq<Task>, prefs: Preferences, zone: Zone, now: int,
                  g: Grid, t: Task, start: nat, first: Block)
    requires BuildGrid(w, previous, tasks, prefs, zone, now) == Success(g) && t.id in g.pending
    ensures (forall b :: b in previous ==> b.task != t.id) ==> MoveCost(g, t, start) == 0
    ensures FirstOf(previous, t.id, first) ==> var away := Abs(g.start + start - first.start);
      MoveCost(g, t, start) ==
        if prefs.flexibility == Low then away * 8 / 15
        else if prefs.flexibility == Medium then away * 3 / 15
        else away / 15
  {
    hide BuildGrid, PartitionOf, PeriodsOf, EarliestStart, ById, PendingOnly, Targets;
    BuiltPeriods(w, previous, tasks, prefs, zone, now, g);
    PreviousMembers(previous, g.pending);
    OfMembers(g.previous, t.id);
    var mine := Of(g.previous, t.id);
    if mine != [] {
      assert mine[0] in mine;
      EarliestExact(mine);
    }
    if FirstOf(previous, t.id, first) { assert first in mine; }
  }

  // ----- Daily targets -----

  /** A day's target is half, three quarters or all of its available minutes, rounded down, and at
      least one. */
  lemma TargetsExact(w: PlanningWindow, previous: seq<Block>, tasks: seq<Task>, prefs: Preferences, zone: Zone,
                     now: int, g: Grid, k: nat)
    requires BuildGrid(w, previous, tasks, prefs, zone, now) == Success(g) && k < |g.days|
    ensures |g.targets| == |g.days| && |g.avail| == g.size && 0 <= g.days[k].lo < g.days[k].hi <= g.size
    ensures var free := |FreeMinutes(g.avail, g.days[k].lo, g.days[k].hi)|;
      g.targets[k] ==
        Max(1, if prefs.workload == Low then free / 2 else if prefs.workload == Medium then free * 3 / 4 else free)
  {
    hide BuildGrid, PeriodsOf, ById, PendingOnly, PreviousOf, FreeMinutes;
    BuiltPeriods(w, previous, tasks, prefs, zone, now, g);
    FreeCountSize(g.avail, g.days[k].lo, g.days[k].hi);
  }

  // ----- Used minutes and warnings -----

  /** The minutes of a day that some interval covers. */
  ghost function CoveredOn(day: Interval, xs: seq<Interval>): set<int> {
    set m | day.lo <= m < day.hi && Covered(xs, m)
  }

  lemma CoveredMore(xs: seq<Interval>, x: Interval, m: int)
    ensures Covered(xs + [x], m) <==> Covered(xs, m) || InInterval(x, m)
  {
    if Covered(xs, m) {
      var y :| y in xs && InInterval(y, m);
      assert y in xs + [x];
    }
    if InInterval(x, m) { assert x in xs + [x]; }
  }

  /** Adding up the shares of separate intervals counts each covered minute once. */
  lemma {:induction false} UsedExact(day: Interval, xs: seq<Interval>)
    requires AllSeparate(xs)
    ensures UsedIn(day, xs) == |CoveredOn(day, xs)|
  {
    if xs == [] {
      assert CoveredOn(day, xs) == {};
    } else {
      var init, last := xs[..|xs| - 1], xs[|xs| - 1];
      UsedExact(day, init);
      SharedSize(day, last.lo, last.hi);
      assert xs == init + [last];
      forall m ensures Covered(xs, m) <==> Covered(init, m) || Inside(last.lo, last.hi, m) {
        CoveredMore(init, last, m);
      }
      forall m | m in SpentOn(day, last.lo, last.hi) ensures !Covered(init, m) {
        forall k | 0 <= k < |init| ensures !InInterval(init[k], m) { assert Separate(xs[k], last); }
      }
      assert CoveredOn(day, xs) == CoveredOn(day, init) + SpentOn(day, last.lo, last.hi);
    }
  }

  /** The minutes of a day given to some block. */
  ghost function PlacedOn(g: Grid, blocks: seq<Block>, day: Interval): set<int> {
    set m | day.lo <= m < day.hi && Taken(g, blocks, m)
  }

  ghost predicate Taken(g: Grid, blocks: seq<Block>, m: int) { exists b :: b in blocks && Holds(b, g.start + m) }

  lemma IndicesSeparate(g: Grid, blocks: seq<Block>)
    requires Disjoint(blocks)
    ensures AllSeparate(Indices(g, blocks))
  {
    IndicesAre(g, blocks);
    hide Indices;
    forall i, j | 0 <= i < j < |blocks| ensures Separate(Indices(g, blocks)[i], Indices(g, blocks)[j]) {
      assert Apart(blocks[i], blocks[j]);
    }
  }

  lemma CoveredIsTaken(g: Grid, blocks: seq<Block>, m: int)
    ensures Covered(Indices(g, blocks), m) <==> Taken(g, blocks, m)
  {
    IndicesAre(g, blocks);
    hide Indices;
    var xs := Indices(g, blocks);
    if x :| x in xs && InInterval(x, m) {
      var k :| 0 <= k < |xs| && xs[k] == x;
      assert blocks[k] in blocks && Holds(blocks[k], g.start + m);
    }
    if b :| b in blocks && Holds(b, g.start + m) {
      var k :| 0 <= k < |blocks| && blocks[k] == b;
      assert xs[k] in xs && InInterval(xs[k], m);
    }
  }

  lemma PlacedSize(g: Grid, blocks: seq<Block>, day: Interval)
    requires Disjoint(blocks)
    ensures UsedIn(day, Indices(g, blocks)) == |PlacedOn(g, blocks, day)|
  {
    hide Indices, Disjoint, AllSeparate, Covered, Taken, UsedIn;
    IndicesSeparate(g, blocks);
    UsedExact(day, Indices(g, blocks));
    forall m ensures Covered(Indices(g, blocks), m) <==> Taken(g, blocks, m) { CoveredIsTaken(g, blocks, m); }
    assert PlacedOn(g, blocks, day) == CoveredOn(day, Indices(g, blocks));
  }

  /** The workload warning says that some local day holds more placed minutes than its target; the focus
      warning, that a placed task which may not be split is longer than the focus length. */
  lemma LoadWarningsExact(g: Grid, blocks: seq<Block>)
    requires GridOK(g) && Disjoint(blocks)
    ensures WorkloadNotMet in WarningsOf(g, blocks) <==>
      exists k :: 0 <= k < |g.days| && |PlacedOn(g, blocks, g.days[k])| > g.targets[k]
    ensures FocusExceeded in WarningsOf(g, blocks) <==>
      exists b :: b in blocks && b.task in g.pending && !g.pending[b.task].splittable
                  && g.pending[b.task].duration > g.prefs.focus
  {
    hide UsedIn, PlacedOn, TightNeighbours, Sort, Busy, Indices, Disjoint;
    forall k | 0 <= k < |g.days|
      ensures Usage(g.days, Indices(g, blocks))[k] == |PlacedOn(g, blocks, g.days[k])|
    {
      PlacedSize(g, blocks, g.days[k]);
    }
    if exists b :: b in blocks && b.task in g.pending && !g.pending[b.task].splittable
                   && g.pending[b.task].duration > g.prefs.focus
    {
      var b :| b in blocks && b.task in g.pending && !g.pending[b.task].splittable
        && g.pending[b.task].duration > g.prefs.focus;
      assert LongWhole(g, b);
    }
  }
}
