/** The planner as an object: it is built once, then `busy`, `blocks`, `unscheduled` and
    `budget` change as work is kept and placed. Each method computes its specification. */
module PlannerMachine {
  import opened Wrappers
  import opened PlanningModels
  import opened Sorting
  import opened BlockLists
  import opened Masks
  import opened PlanningGrid
  import opened GridFacts
  import opened PlannerSpec
  import opened KeepPhase
  import opened Previews
  import opened PlanNotes
  import opened PlannerBuild
  import opened ScanFacts

  /** Maximal free runs of `[lo, hi)`, left to right. */
  method Gaps(mask: array<bool>, lo: nat, hi: nat) returns (gaps: seq<Interval>)
    requires lo <= mask.Length && hi <= mask.Length
    ensures AreGaps(mask[..], lo, hi, gaps)
  {
    hide InGaps;
    gaps := [];
    var index := lo;
    while index < hi
      invariant lo <= index && (index <= hi || hi < lo == index)
      invariant hi <= lo ==> gaps == []
      invariant AreGaps(mask[..], lo, index, gaps)
      invariant gaps != [] && index < hi ==> gaps[|gaps| - 1].hi < index || !mask[index]
    {
      if !mask[index] {
        GapsSkip(mask[..], lo, index, gaps);
        index := index + 1;
      } else {
        var left := index;
        while index < hi && mask[index]
          invariant left <= index <= hi
          invariant forall i :: left <= i < index ==> mask[i]
          invariant index == left ==> mask[index]
        {
          index := index + 1;
        }
        GapsTake(mask[..], lo, left, index, gaps);
        gaps := gaps + [Interval(left, index)];
      }
    }
  }

  lemma GapsSkip(mask: seq<bool>, lo: nat, index: nat, gaps: seq<Interval>)
    requires lo <= index < |mask| && AreGaps(mask, lo, index, gaps) && !mask[index]
    ensures AreGaps(mask, lo, index + 1, gaps)
  {
  }

  lemma GapsTake(mask: seq<bool>, lo: nat, left: nat, index: nat, gaps: seq<Interval>)
    requires lo <= left < index <= |mask| && AreGaps(mask, lo, left, gaps) && AllFree(mask, left, index)
    requires gaps != [] ==> gaps[|gaps| - 1].hi < left
    ensures AreGaps(mask, lo, index, gaps + [Interval(left, index)])
  {
    hide InGaps;
    InGapsAppend(gaps, Interval(left, index));
  }

  lemma InGapsAppend(gaps: seq<Interval>, x: Interval)
    ensures forall i :: InGaps(gaps, i) ==> InGaps(gaps + [x], i)
    ensures forall i :: x.lo <= i < x.hi ==> InGaps(gaps + [x], i)
  {
    forall i | InGaps(gaps, i) ensures InGaps(gaps + [x], i) {
      var k :| 0 <= k < |gaps| && gaps[k].lo <= i < gaps[k].hi;
      assert (gaps + [x])[k] == gaps[k];
    }
    assert (gaps + [x])[|gaps|] == x;
  }

  method LongestOf(gaps: seq<Interval>, ghost mask: seq<bool>, ghost lo: nat, ghost hi: nat) returns (longest: nat)
    requires hi <= |mask| && AreGaps(mask, lo, hi, gaps)
    ensures longest == Longest(mask, lo, hi)
  {
    longest := 0;
    for k := 0 to |gaps|
      invariant forall j :: 0 <= j < k ==> gaps[j].hi - gaps[j].lo <= longest
      invariant longest == 0 || exists j :: 0 <= j < k && gaps[j].hi - gaps[j].lo == longest
    {
      if gaps[k].hi - gaps[k].lo > longest { longest := gaps[k].hi - gaps[k].lo; }
    }
    LongestGap(mask, lo, hi, gaps, longest);
  }

  method AllSet(mask: array<bool>, lo: nat, hi: nat) returns (ok: bool)
    requires lo <= hi <= mask.Length
    ensures ok == AllFree(mask[..], lo, hi)
  {
    for i := lo to hi
      invariant AllFree(mask[..], lo, i)
    {
      if !mask[i] { return false; }
    }
    ok := true;
  }

  method ClearSlice(mask: array<bool>, lo: int, hi: int)
    modifies mask
    ensures mask[..] == Cleared(old(mask[..]), lo, hi)
  {
    forall i | 0 <= i < mask.Length && lo <= i < hi { mask[i] := false; }
  }

  /** Minutes that stay free at a given pause around every busy interval. */
  method MakeFreeMask(available: array<bool>, busy: seq<Interval>, pause: nat) returns (mask: array<bool>)
    ensures fresh(mask) && mask.Length == available.Length
    ensures mask[..] == FreeMask(available[..], busy, pause)
  {
    var size := available.Length;
    mask := new bool[size](i requires 0 <= i < size reads available => available[i]);
    for k := 0 to |busy|
      invariant forall i :: 0 <= i < size ==> mask[i] == (available[i] && !NearBefore(busy, k, pause, i))
    {
      var left, right := Max(0, busy[k].lo - pause), Min(size, busy[k].hi + pause);
      forall i | 0 <= i < size && left <= i < right { mask[i] := false; }
    }
    forall i | 0 <= i < size ensures NearBefore(busy, |busy|, pause, i) == Blocked(busy, pause, i) {
      if j :| 0 <= j < |busy| && Near(busy[j], pause, i) { assert busy[j] in busy; }
    }
  }

  predicate NearBefore(busy: seq<Interval>, k: nat, pause: nat, i: int)
    requires k <= |busy|
  {
    exists j :: 0 <= j < k && Near(busy[j], pause, i)
  }

  method UsageOf(days: seq<Interval>, intervals: seq<Interval>) returns (used: seq<nat>)
    ensures used == Usage(days, intervals)
  {
    used := [];
    for k := 0 to |days|
      invariant |used| == k
      invariant forall j :: 0 <= j < k ==> used[j] == UsedIn(days[j], intervals)
    {
      var n: nat := 0;
      for i := 0 to |intervals|
        invariant n == UsedIn(days[k], intervals[..i])
      {
        assert intervals[..i + 1][..i] == intervals[..i];
        n := n + Shared(days[k], intervals[i].lo, intervals[i].hi);
      }
      assert intervals[..|intervals|] == intervals;
      used := used + [n];
    }
  }

  method PrefixBetween(prefix: seq<nat>, ghost periods: seq<Period>, ghost p: Period, ghost k: nat, lo: nat, hi: nat)
      returns (n: nat)
    requires PrefixSums(prefix, periods, p, k) && lo <= hi <= k
    ensures n == OffPeriod(periods, p, lo, hi)
  {
    PrefixDifference(periods, p, lo, hi);
    n := prefix[hi] - prefix[lo];
  }

  class Planner {
    const start: int
    const size: nat
    const floor: nat
    const available: array<bool>
    const days: seq<Interval>
    const morning: seq<nat>
    const afternoon: seq<nat>
    const evening: seq<nat>
    const targets: seq<nat>
    const prefs: Preferences
    const queue: seq<Task>
    const pending: map<TaskId, Task>
    const previous: seq<Block>
    const previousStart: map<TaskId, int>

    var busy: seq<Interval>
    var blocks: seq<Block>
    var unscheduled: seq<Unscheduled>
    var budget: int

    /** The context this planner was built for, and the candidates scored so far. */
    ghost const grid: Grid
    ghost var evaluated: nat

    ghost predicate Built()
      reads available
    {
      && GridOK(grid)
      && available.Length == size && available[..] == grid.avail
      && start == grid.start && size == grid.size && floor == grid.floor
      && days == grid.days && targets == grid.targets && prefs == grid.prefs
      && queue == grid.queue && pending == grid.pending && previous == grid.previous
      && PrefixSums(morning, grid.periods, Morning, size)
      && PrefixSums(afternoon, grid.periods, Afternoon, size)
      && PrefixSums(evening, grid.periods, Evening, size)
      && EarliestStarts(previousStart, previous, start)
    }

    ghost predicate Valid()
      reads this, available
    {
      Built() && busy == Busy(grid, blocks)
    }

    /** The mutable part as a value. */
    ghost function Done(): Work
      reads this
    {
      Work(blocks, unscheduled, budget)
    }

    constructor (g: Grid, mask: array<bool>, m: seq<nat>, a: seq<nat>, e: seq<nat>, earliest: map<TaskId, int>,
                 searchBudget: int)
      requires GridOK(g) && mask.Length == g.size && mask[..] == g.avail
      requires PrefixSums(m, g.periods, Morning, g.size)
      requires PrefixSums(a, g.periods, Afternoon, g.size)
      requires PrefixSums(e, g.periods, Evening, g.size)
      requires EarliestStarts(earliest, g.previous, g.start)
      ensures Valid() && grid == g && available == mask
      ensures Done() == Work([], [], searchBudget) && evaluated == 0
    {
      start, size, floor, available := g.start, g.size, g.floor, mask;
      days, morning, afternoon, evening, targets := g.days, m, a, e, g.targets;
      prefs, queue, pending, previous, previousStart := g.prefs, g.queue, g.pending, g.previous, earliest;
      busy, blocks, unscheduled, budget := g.events, [], [], searchBudget;
      grid, evaluated := g, 0;
      new;
      assert g.events + [] == g.events;
    }

    method Reserve(b: Block)
      requires Valid()
      modifies this`blocks, this`busy
      ensures Valid() && blocks == old(blocks) + [b]
    {
      IndicesAppend(grid, blocks, b);
      blocks := blocks + [b];
      busy := busy + [Interval(b.start - start, b.end - start)];
    }

    // ----- Scoring -----

    /** A period's cost from its prefix sums. */
    method WeighPeriod(p: Period, weight: nat, lo: nat, hi: nat) returns (cost: nat)
      requires Built() && lo <= hi <= size
      ensures cost == PeriodCost(grid.periods, p, weight, lo, hi)
    {
      hide GridOK, EarliestStarts, PrefixSums, OffPeriod;
      if p.Night? { return 0; }
      var prefix := match p case Morning => morning case Afternoon => afternoon case _ => evening;
      var off := PrefixBetween(prefix, grid.periods, p, size, lo, hi);
      cost := weight * off;
    }

    method WeighOverload(used: seq<nat>, at: nat, length: nat) returns (cost: nat)
      requires Built() && |used| == |days| && length > 0
      ensures cost == OverloadCost(grid.days, grid.targets, used, at, length, |grid.days|)
    {
      cost := 0;
      for index := 0 to |days|
        invariant cost == OverloadCost(grid.days, grid.targets, used, at, length, index)
      {
        var u: int, target: int := used[index], targets[index];
        var added := Max(0, Min(at + length, days[index].hi) - Max(at, days[index].lo));
        var overflow := Max(0, u + added - target) - Max(0, u - target);
        cost := cost + Per(overflow * 300, length);
      }
    }

    method WeighMove(t: Task, at: nat) returns (cost: nat)
      requires Built()
      ensures cost == MoveCost(grid, t, at)
    {
      if t.id in previousStart {
        cost := Abs(at - previousStart[t.id]) * MoveWeight(prefs.flexibility) / 15;
      } else {
        cost := 0;
      }
    }

    /** The cost of one candidate; prefix sums agree with counting minute by minute. */
    method Score(t: Task, at: nat, length: nat, used: seq<nat>) returns (cost: nat)
      requires Built() && |used| == |days| && length > 0 && at + length <= size
      ensures cost == Cost(grid, t, used, at, length)
    {
      var own := WeighPeriod(t.preferred, 6, at, at + length);
      var chronotype := WeighPeriod(prefs.chronotype, 2, at, at + length);
      var deepWork := WeighPeriod(prefs.deepWork, 1, at, at + length);
      var overload := WeighOverload(used, at, length);
      var moved := WeighMove(t, at);
      cost := Per((own + chronotype + deepWork) * 100, length) + overload + moved;
    }

    // ----- Searching -----

    /** Scores every start of one gap, paying one unit of budget for each. */
    method ScanGap(t: Task, gap: Interval, length: nat, used: seq<nat>, best0: Option<(nat, nat)>,
                   ghost mask: seq<bool>, ghost lo: nat, ghost hi: nat, ghost budget0: int)
        returns (best: Option<(nat, nat)>, exhausted: bool)
      requires Built() && Scorable(grid, used) && length > 0 && hi <= |mask| == size && 0 <= gap.lo
      requires forall s :: gap.lo <= s && s + length <= gap.hi ==> Legal(mask, lo, hi, length, s)
      requires Scanned(grid, t, used, mask, lo, hi, length, gap.lo, budget0, budget, Start(best0))
      requires Scored(grid, t, used, length, best0)
      modifies this`budget, this`evaluated
      ensures evaluated + budget == old(evaluated + budget)
      ensures exhausted ==> SearchLevel(grid, t, used, mask, lo, hi, length, budget0) == Exhausted(budget)
      ensures !exhausted ==> Scored(grid, t, used, length, best)
      ensures !exhausted ==>
        Scanned(grid, t, used, mask, lo, hi, length, Max(gap.lo, gap.hi - length + 1), budget0, budget, Start(best))
    {
      hide Scanned, SearchLevel, Legal, Cost, PrefixSums, GridOK, EarliestStarts;
      best, exhausted := best0, false;
      var at := gap.lo;
      while at + length <= gap.hi
        invariant gap.lo <= at <= Max(gap.lo, gap.hi - length + 1)
        invariant evaluated + budget == old(evaluated + budget)
        invariant Scanned(grid, t, used, mask, lo, hi, length, at, budget0, budget, Start(best))
        invariant Scored(grid, t, used, length, best)
      {
        LegalFits(mask, lo, hi, length, at);
        if budget <= 0 {
          ScanExhausted(grid, t, used, mask, lo, hi, length, at, budget0, budget, Start(best));
          return best, true;
        }
        ScannedBestLegal(grid, t, used, mask, lo, hi, length, at, budget0, budget, Start(best));
        ScannedStep(grid, t, used, mask, lo, hi, length, at, budget0, budget, Start(best));
        budget := budget - 1;
        evaluated := evaluated + 1;
        var cost := Score(t, at, length, used);
        if best == None || Cheaper((cost, at), best.value) { best := Some((cost, at)); }
        at := at + 1;
      }
    }

    /** Every legal start of every gap, in order; the cheapest wins and earlier starts break ties. */
    method ScanGaps(t: Task, gaps: seq<Interval>, length: nat, used: seq<nat>,
                    ghost mask: seq<bool>, ghost lo: nat, ghost hi: nat) returns (r: Search)
      requires Built() && Scorable(grid, used) && hi <= |mask| == size && AreGaps(mask, lo, hi, gaps)
      requires 1 <= length <= Longest(mask, lo, hi)
      modifies this`budget, this`evaluated
      ensures r == SearchLevel(grid, t, used, mask, lo, hi, length, old(budget)) && budget == r.budget
      ensures evaluated + budget == old(evaluated + budget)
    {
      hide Scanned, SearchLevel, Legal, PrefixSums, GridOK, EarliestStarts, Longest, AreGaps, ScannedTo;
      ghost var budget0 := budget;
      var best: Option<(nat, nat)> := None;
      ghost var done: nat := 0;
      ScanStarts(mask, lo, hi, gaps, length);
      NothingScanned(grid, t, used, mask, lo, hi, length, budget0);
      if gaps != [] { GapInside(mask, lo, hi, gaps, 0, length); }
      for k := 0 to |gaps|
        invariant evaluated + budget == old(evaluated + budget)
        invariant done <= size && ScannedTo(mask, lo, hi, gaps, length, k, done)
        invariant Scanned(grid, t, used, mask, lo, hi, length, done, budget0, budget, Start(best))
        invariant Scored(grid, t, used, length, best)
        invariant k < |gaps| ==> done <= gaps[k].lo
      {
        GapInside(mask, lo, hi, gaps, k, length);
        SkipToGap(grid, t, used, mask, lo, hi, gaps, length, k, done, budget0, budget, Start(best));
        var exhausted;
        best, exhausted := ScanGap(t, gaps[k], length, used, best, mask, lo, hi, budget0);
        if exhausted { return Exhausted(budget); }
        done := Max(gaps[k].lo, gaps[k].hi - length + 1);
        ScanAdvances(mask, lo, hi, gaps, length, k, done);
      }
      SkipToGap(grid, t, used, mask, lo, hi, gaps, length, |gaps|, done, budget0, budget, Start(best));
      ScanComplete(grid, t, used, mask, lo, hi, length, budget0, budget, Start(best));
      r := Found(best.value.1, length, budget);
    }

    /** One pause level; `None` when it has no room. */
    method SearchPause(t: Task, target: nat, occupied: seq<Interval>, used: seq<nat>, pause: nat)
        returns (r: Option<Search>)
      requires Built() && Scorable(grid, used) && target > 0
      modifies this`budget, this`evaluated
      ensures var mask := FreeMask(grid.avail, occupied, pause);
        var lo, hi := EarliestIndex(grid, t), LatestIndex(grid, t);
        var length := PieceLength(t.splittable, target, Longest(mask, lo, hi));
        if length == 0 then r == None && budget == old(budget)
        else r == Some(SearchLevel(grid, t, used, mask, lo, hi, length, old(budget))) && budget == r.value.budget
      ensures evaluated + budget == old(evaluated + budget)
    {
      hide SearchLevel, PrefixSums, GridOK, EarliestStarts, AreGaps, Scorable;
      var mask := MakeFreeMask(available, occupied, pause);
      var left, right := EarliestAt(start, size, floor, t), LatestAt(start, size, t);
      var gaps := Gaps(mask, left, right);
      var longest := LongestOf(gaps, mask[..], left, right);
      var length: nat := if t.splittable then Min(target, longest) else target;
      if length == 0 || longest < length { return None; }
      var found := ScanGaps(t, gaps, length, used, mask[..], left, right);
      r := Some(found);
    }

    /** The preferred pause first, then none: the planner's `find_slot`. */
    method SearchSlot(t: Task, remaining: nat, occupied: seq<Interval>, used: seq<nat>) returns (r: Search)
      requires Built() && Scorable(grid, used) && remaining > 0
      modifies this`budget, this`evaluated
      ensures r == FindSlot(grid, t, remaining, occupied, used, old(budget)) && budget == r.budget
      ensures evaluated + budget == old(evaluated + budget)
    {
      hide SearchLevel, PrefixSums, EarliestStarts, Scorable, FreeMask, EarliestIndex, LatestIndex, Longest;
      var target: nat := if t.splittable then Min(remaining, prefs.focus) else remaining;
      var paused := SearchPause(t, target, occupied, used, prefs.pause);
      if paused.Some? { return paused.value; }
      if prefs.pause != 0 {
        var tight := SearchPause(t, target, occupied, used, 0);
        if tight.Some? { return tight.value; }
      }
      r := Nothing(budget);
    }

    // ----- Placing one task -----

    /** Places all missing minutes or leaves `blocks` and `busy` alone: the planner's `allocate_task`. */
    method AllocateTask(t: Task)
      requires Valid() && t.id in pending
      modifies this`busy, this`blocks, this`unscheduled, this`budget, this`evaluated
      ensures Valid() && Done() == Allocate(grid, t, old(Done()))
      ensures evaluated + budget == old(evaluated + budget)
    {
      hide GridOK, PrefixSums, EarliestStarts, FindSlot, Of, Total, Allocate, Busy, Indices, Usage, Scorable;
      PlannableHere(grid);
      var placed := Total(Of(blocks, t.id));
      if t.duration <= placed {
        NothingMissing(grid, t, Done());
        return;
      }
      var requested: nat := t.duration - placed;
      ghost var before := Done();
      var additions, limited, remaining := FindPieces(t, requested);
      if remaining == 0 {
        PiecesPlaced(grid, t, before, additions, budget);
        ReserveAll(t, additions);
        return;
      }
      PiecesMissing(grid, t, before, limited, budget);
      var reason := if limited then SearchLimit else NoSlotFound;
      if t.deadline.Some? && LatestAt(start, size, t) <= EarliestAt(start, size, floor, t) { reason := DeadlinePassed; }
      unscheduled := unscheduled + [Unscheduled(t.id, requested, reason)];
    }

    /** The search loop: pieces are collected aside and nothing is reserved yet. */
    method FindPieces(t: Task, requested: nat) returns (additions: seq<Interval>, limited: bool, remaining: nat)
      requires Valid() && Plannable(grid) && requested > 0
      modifies this`budget, this`evaluated
      ensures evaluated + budget == old(evaluated + budget)
      ensures Place(grid, t, requested, Busy(grid, blocks), Indices(grid, blocks), old(budget)) ==
        if remaining == 0 then Placed(additions, budget) else if limited then Limited(budget) else NoRoom(budget)
    {
      hide GridOK, PrefixSums, EarliestStarts, FindSlot, Busy, Indices, Usage, Place, Prefixed;
      var occupied := busy;
      var intervals := IndicesHere(blocks);
      additions, limited, remaining := [], false, requested;
      ghost var goal := Place(grid, t, requested, busy, intervals, budget);
      NothingPrefixed(goal);
      while remaining > 0
        invariant evaluated + budget == old(evaluated + budget)
        invariant goal == Prefixed(additions, Place(grid, t, remaining, occupied, intervals, budget))
        invariant |intervals| == |blocks| + |additions|
        decreases remaining
      {
        PlaceStep(grid, t, remaining, occupied, intervals, budget, additions);
        if |blocks| + |additions| >= MAX_BLOCKS { limited := true; return; }
        var used := UsageOf(days, intervals);
        var slot := SearchSlot(t, remaining, occupied, used);
        match slot {
          case Exhausted(_) => limited := true; return;
          case Nothing(_) => return;
          case Found(at, length, _) =>
            var piece := Interval(at, at + length);
            additions, occupied, intervals := additions + [piece], occupied + [piece], intervals + [piece];
            remaining := remaining - length;
        }
      }
      PlaceDone(grid, t, occupied, intervals, budget, additions);
    }

    method IndicesHere(bs: seq<Block>) returns (intervals: seq<Interval>)
      requires Built()
      ensures intervals == Indices(grid, bs)
    {
      hide GridOK, PrefixSums, EarliestStarts;
      intervals := [];
      for k := 0 to |bs|
        invariant intervals == Indices(grid, bs[..k])
      {
        assert bs[..k + 1][..k] == bs[..k];
        intervals := intervals + [Interval(bs[k].start - start, bs[k].end - start)];
      }
      assert bs[..|bs|] == bs;
    }

    method ReserveAll(t: Task, additions: seq<Interval>)
      requires Valid()
      modifies this`blocks, this`busy
      ensures Valid() && blocks == old(blocks) + BlocksFor(grid, t, additions)
    {
      hide GridOK, PrefixSums, EarliestStarts, Busy;
      for k := 0 to |additions|
        invariant Valid() && blocks == old(blocks) + BlocksFor(grid, t, additions[..k])
      {
        assert additions[..k + 1][..k] == additions[..k];
        Reserve(Block(t.id, start + additions[k].lo, start + additions[k].hi, false));
      }
      assert additions[..|additions|] == additions;
    }

    // ----- Keeping previous work -----

    /** Validates and reserves the locks of one task, stopping at the first that is not valid. */
    method ReserveTaskLocks(locks: seq<Block>) returns (ok: bool)
      requires Valid() && forall b :: b in locks ==> b.task in pending
      modifies this`blocks, this`busy
      ensures Valid()
      ensures var r := ReserveEach(grid, locks, old(blocks));
        if ok then r == Success(blocks) else r == Failure(LockedBlockConflict)
    {
      hide GridOK, PrefixSums, EarliestStarts, Busy, FreeMask, ValidBlock;
      SizeHere(grid);
      ghost var goal := ReserveEach(grid, locks, blocks);
      for k := 0 to |locks|
        invariant Valid() && goal == ReserveEach(grid, locks[k..], blocks)
      {
        assert locks[k..][0] == locks[k] && locks[k..][1..] == locks[k + 1..];
        var mask := MakeFreeMask(available, busy, 0);
        var valid := CheckBlock(locks[k], mask);
        if !valid { return false; }
        Reserve(locks[k]);
      }
      assert locks[|locks|..] == [];
      ok := true;
    }

    /** Bounds and mask of one block: the planner's `valid_block`. */
    method CheckBlock(b: Block, mask: array<bool>) returns (ok: bool)
      requires Built() && b.task in pending && mask.Length == size
      ensures ok == ValidBlock(grid, b, mask[..])
    {
      hide GridOK, PrefixSums, EarliestStarts;
      var t, left, right := pending[b.task], b.start - start, b.end - start;
      if !(EarliestAt(start, size, floor, t) <= left < right <= LatestAt(start, size, t)) { return false; }
      ok := AllSet(mask, left, right);
    }

    method ReserveLockedWork() returns (failure: Option<Code>)
      requires Valid() && LocksKnown(grid, Keys(previous))
      modifies this`blocks, this`busy
      ensures Valid()
      ensures var r := ReserveLocks(grid, Keys(previous), old(blocks));
        if failure.Some? then r == Failure(failure.value) else r == Success(blocks)
    {
      hide GridOK, PrefixSums, EarliestStarts, Busy, Keys, LocksOf, ReserveEach;
      var keys := Keys(previous);
      ghost var goal := ReserveLocks(grid, keys, blocks);
      for k := 0 to |keys|
        invariant Valid() && LocksKnown(grid, keys[k..]) && goal == ReserveLocks(grid, keys[k..], blocks)
      {
        assert keys[k..][0] == keys[k] && keys[k..][1..] == keys[k + 1..];
        var locks := LocksOf(previous, keys[k]);
        if LockDurationConflict(pending[keys[k]], locks) { return Some(LockedDurationConflict); }
        var ok := ReserveTaskLocks(locks);
        if !ok { return Some(LockedBlockConflict); }
      }
      assert keys[|keys|..] == [];
      failure := None;
    }

    /** Checks a task's movable blocks one after another against a running mask. */
    method CheckMovable(movable: seq<Block>) returns (kept: bool)
      requires Valid() && forall b :: b in movable ==> b.task in pending
      ensures kept == AllKept(grid, movable, FreeMask(grid.avail, Busy(grid, blocks), 0))
    {
      hide GridOK, PrefixSums, EarliestStarts, Busy, FreeMask, ValidBlock;
      SizeHere(grid);
      var mask := MakeFreeMask(available, busy, 0);
      ghost var goal := AllKept(grid, movable, mask[..]);
      for k := 0 to |movable|
        invariant goal == AllKept(grid, movable[k..], mask[..])
      {
        assert movable[k..][0] == movable[k] && movable[k..][1..] == movable[k + 1..];
        var valid := CheckBlock(movable[k], mask);
        if !valid { return false; }
        ClearSlice(mask, movable[k].start - start, movable[k].end - start);
      }
      assert movable[|movable|..] == [];
      kept := true;
    }

    method KeepTaskWork(t: Task)
      requires Valid() && forall b :: b in MovableOf(previous, t.id) ==> b.task in pending
      modifies this`blocks, this`busy
      ensures Valid() && blocks == KeepTask(grid, t, old(blocks))
    {
      hide GridOK, PrefixSums, EarliestStarts, Busy, MovableOf, AllKept, Of, Total, FreeMask;
      SizeHere(grid);
      var mine := Of(previous, t.id);
      if Total(mine) != t.duration || (!t.splittable && |mine| != 1) { return; }
      var movable := MovableOf(previous, t.id);
      var kept := CheckMovable(movable);
      if kept {
        for k := 0 to |movable|
          invariant Valid() && blocks == old(blocks) + movable[..k]
        {
          assert movable[..k + 1] == movable[..k] + [movable[k]];
          Reserve(movable[k]);
        }
        assert movable[..|movable|] == movable;
      }
    }

    /** Locks first, then every task's valid movable placements: the planner's `preserve_previous`. */
    method PreservePrevious() returns (failure: Option<Code>)
      requires Valid() && blocks == []
      modifies this`blocks, this`busy
      ensures Valid() && LocksKnown(grid, Keys(grid.previous)) && MovableKnown(grid, grid.queue)
      ensures if failure.Some? then Preserve(grid) == Failure(failure.value) else Preserve(grid) == Success(blocks)
    {
      hide PrefixSums, EarliestStarts, Busy, Keys, LocksOf, MovableOf, ReserveLocks, KeepTask, LocksKnown;
      KnownHere(grid);
      failure := ReserveLockedWork();
      if failure.Some? { return; }
      ghost var goal := KeepMovable(grid, queue, blocks);
      for k := 0 to |queue|
        invariant Valid() && MovableKnown(grid, queue[k..]) && goal == KeepMovable(grid, queue[k..], blocks)
      {
        assert queue[k..][0] == queue[k] && queue[k..][1..] == queue[k + 1..];
        KeepTaskWork(queue[k]);
      }
      assert queue[|queue|..] == [];
    }

    /** A placed task that may not be split and is longer than the focus length. */
    method AnyLongWhole() returns (found: bool)
      requires Valid()
      ensures found == OverFocus(grid, blocks)
    {
      for k := 0 to |blocks|
        invariant forall j :: 0 <= j < k ==> !LongWhole(grid, blocks[j])
      {
        var b := blocks[k];
        if b.task in pending && !pending[b.task].splittable && pending[b.task].duration > prefs.focus {
          assert LongWhole(grid, blocks[k]) && blocks[k] in blocks;
          return true;
        }
      }
      found := false;
    }

    /** Soft preferences the layout does not meet. */
    method Warnings() returns (warnings: seq<Warning>)
      requires Valid()
      ensures |grid.targets| == |grid.days| && warnings == WarningsOf(grid, blocks)
    {
      hide Usage, Indices, TightNeighbours, OverTarget, OverFocus, PrefixSums, EarliestStarts, Sort;
      PlannableHere(grid);
      warnings := [];
      var tight := AnyTight(Sort(IntervalOrder(), busy), prefs.pause);
      if prefs.pause > 0 && tight { warnings := warnings + [BreakNotMet]; }
      var intervals := IndicesHere(blocks);
      var used := UsageOf(days, intervals);
      var over := AnyOver(used, targets);
      if over { warnings := warnings + [WorkloadNotMet]; }
      var long := AnyLongWhole();
      if long { warnings := warnings + [FocusExceeded]; }
    }

    /** Greedy placement of every pending task in order. */
    method AllocatePending()
      requires Valid()
      modifies this`busy, this`blocks, this`unscheduled, this`budget, this`evaluated
      ensures Valid() && Plannable(grid) && Done() == AllocateAll(grid, grid.queue, old(Done()))
      ensures evaluated + budget == old(evaluated + budget)
    {
      hide GridOK, PrefixSums, EarliestStarts, Busy, Allocate;
      PlannableHere(grid);
      QueuePending(grid);
      ghost var goal := AllocateAll(grid, queue, Done());
      for k := 0 to |queue|
        invariant Valid() && goal == AllocateAll(grid, queue[k..], Done())
        invariant evaluated + budget == old(evaluated + budget)
      {
        assert queue[k..][0] == queue[k] && queue[k..][1..] == queue[k + 1..];
        AllocateTask(queue[k]);
      }
      assert queue[|queue|..] == [];
    }
  }

  method AnyTight(sorted: seq<Interval>, pause: nat) returns (found: bool)
    ensures found == TightNeighbours(sorted, pause)
  {
    for k := 0 to |sorted|
      invariant forall j :: 0 <= j < k - 1 ==> !Tight(sorted[j], sorted[j + 1], pause)
    {
      if k > 0 && Tight(sorted[k - 1], sorted[k], pause) { return true; }
    }
    found := false;
  }

  method AnyOver(used: seq<nat>, targets: seq<nat>) returns (found: bool)
    requires |used| == |targets|
    ensures found == OverTarget(used, targets)
  {
    for k := 0 to |used|
      invariant forall j :: 0 <= j < k ==> used[j] <= targets[j]
    {
      if used[k] > targets[k] { return true; }
    }
    found := false;
  }

  /** The running best as (cost, start). */
  function Start(best: Option<(nat, nat)>): Option<nat> {
    if best.Some? then Some(best.value.1) else None
  }

  ghost predicate Scored(g: Grid, t: Task, used: seq<nat>, length: nat, best: Option<(nat, nat)>)
    requires Scorable(g, used) && length > 0
  {
    best.Some? ==> best.value.1 + length <= g.size && best.value.0 == Cost(g, t, used, best.value.1, length)
  }

  lemma ScannedBestLegal(g: Grid, t: Task, used: seq<nat>, mask: seq<bool>, lo: nat, hi: nat, length: nat, done: nat,
                         budget0: int, budget: int, best: Option<nat>)
    requires Scorable(g, used) && hi <= |mask| == g.size && length > 0
    requires Scanned(g, t, used, mask, lo, hi, length, done, budget0, budget, best)
    ensures best.Some? ==> Legal(mask, lo, hi, length, best.value)
  {
  }

  lemma NothingScanned(g: Grid, t: Task, used: seq<nat>, mask: seq<bool>, lo: nat, hi: nat, length: nat, budget0: int)
    requires Scorable(g, used) && hi <= |mask| == g.size && length > 0
    ensures Scanned(g, t, used, mask, lo, hi, length, 0, budget0, budget0, None)
  {
  }

  lemma GapInside(mask: seq<bool>, lo: nat, hi: nat, gaps: seq<Interval>, k: nat, length: nat)
    requires hi <= |mask| && AreGaps(mask, lo, hi, gaps) && k < |gaps| && length > 0
    ensures 0 <= gaps[k].lo < gaps[k].hi <= hi
    ensures forall s :: gaps[k].lo <= s && s + length <= gaps[k].hi ==> Legal(mask, lo, hi, length, s)
    ensures k + 1 < |gaps| ==> gaps[k].hi < gaps[k + 1].lo
  {
  }

  /** The outcome of a search that already holds `pieces`. */
  function Prefixed(pieces: seq<Interval>, p: Placement): Placement {
    match p
    case Placed(rest, b) => Placed(pieces + rest, b)
    case NoRoom(b) => NoRoom(b)
    case Limited(b) => Limited(b)
  }

  lemma PlannableHere(g: Grid)
    requires GridOK(g)
    ensures Plannable(g)
  {
  }

  lemma NothingMissing(g: Grid, t: Task, w: Work)
    requires Plannable(g) && t.duration <= Minutes(w.blocks, t.id)
    ensures Allocate(g, t, w) == w
  {
  }

  lemma PiecesPlaced(g: Grid, t: Task, w: Work, pieces: seq<Interval>, b: int)
    requires Plannable(g) && Minutes(w.blocks, t.id) < t.duration
    requires Place(g, t, t.duration - Minutes(w.blocks, t.id), Busy(g, w.blocks), Indices(g, w.blocks), w.budget)
             == Placed(pieces, b)
    ensures Allocate(g, t, w) == w.(blocks := w.blocks + BlocksFor(g, t, pieces), budget := b)
  {
    hide Place, Busy, Indices, Of, Total, BlocksFor;
  }

  lemma PiecesMissing(g: Grid, t: Task, w: Work, limited: bool, b: int)
    requires Plannable(g) && Minutes(w.blocks, t.id) < t.duration
    requires Place(g, t, t.duration - Minutes(w.blocks, t.id), Busy(g, w.blocks), Indices(g, w.blocks), w.budget)
             == if limited then Limited(b) else NoRoom(b)
    ensures Allocate(g, t, w) == w.(budget := b, unscheduled := w.unscheduled
      + [Unscheduled(t.id, t.duration - Minutes(w.blocks, t.id), FailureReason(g, t, limited))])
  {
    hide Place, Busy, Indices, Of, Total, BlocksFor;
  }

  lemma SizeHere(g: Grid)
    requires GridOK(g)
    ensures |g.avail| == g.size
  {
  }

  lemma QueuePending(g: Grid)
    requires GridOK(g)
    ensures forall t :: t in g.queue ==> t.id in g.pending
  {
  }

  lemma NothingPrefixed(p: Placement)
    ensures Prefixed([], p) == p
  {
    if p.Placed? { assert [] + p.pieces == p.pieces; }
  }

  /** One round of the search loop, seen from the whole placement. */
  lemma PlaceStep(g: Grid, t: Task, remaining: nat, busy: seq<Interval>, intervals: seq<Interval>, budget: int,
                  additions: seq<Interval>)
    requires Plannable(g) && remaining > 0
    ensures var whole := Prefixed(additions, Place(g, t, remaining, busy, intervals, budget));
      if |intervals| >= MAX_BLOCKS then whole == Limited(budget)
      else
        match FindSlot(g, t, remaining, busy, Usage(g.days, intervals), budget)
        case Exhausted(b) => whole == Limited(b)
        case Nothing(b) => whole == NoRoom(b)
        case Found(at, length, b) =>
          var piece := Interval(at, at + length);
          whole == Prefixed(additions + [piece],
                            Place(g, t, remaining - length, busy + [piece], intervals + [piece], b))
  {
    hide FindSlot, Usage;
    if |intervals| < MAX_BLOCKS {
      var r := FindSlot(g, t, remaining, busy, Usage(g.days, intervals), budget);
      if r.Found? {
        var piece := Interval(r.start, r.start + r.length);
        var rest := Place(g, t, remaining - r.length, busy + [piece], intervals + [piece], r.budget);
        if rest.Placed? {
          assert additions + ([piece] + rest.pieces) == (additions + [piece]) + rest.pieces;
        }
      }
    }
  }

  lemma PlaceDone(g: Grid, t: Task, busy: seq<Interval>, intervals: seq<Interval>, budget: int,
                  additions: seq<Interval>)
    requires Plannable(g)
    ensures Prefixed(additions, Place(g, t, 0, busy, intervals, budget)) == Placed(additions, budget)
  {
    assert additions + [] == additions;
  }
}
