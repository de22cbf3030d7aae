/** What each planning step computes, as functions of the grid and the work so far.
    The imperative planner is proved equal to these; the theorems are about them. */
module PlannerSpec {
  import opened Wrappers
  import opened PlanningModels
  import opened Sorting
  import opened BlockLists
  import opened Masks
  import opened PlanningGrid

  /** The mutable part of a planner. */
  datatype Work = Work(blocks: seq<Block>, unscheduled: seq<Unscheduled>, budget: int)

  // ----- Bounds and masks -----

  function EarliestAt(start: int, size: nat, floor: nat, t: Task): nat {
    Max(0, Min(size, Max(floor, if t.earliest.Some? then CeilMinutes(t.earliest.value - start * MINUTE) else 0)))
  }

  function LatestAt(start: int, size: nat, t: Task): (r: nat)
    ensures r <= size
  {
    Max(0, Min(size, if t.deadline.Some? then FloorMinutes(t.deadline.value - start * MINUTE) else size))
  }

  function EarliestIndex(g: Grid, t: Task): nat { EarliestAt(g.start, g.size, g.floor, t) }

  function LatestIndex(g: Grid, t: Task): (r: nat)
    ensures r <= g.size
  {
    LatestAt(g.start, g.size, t)
  }

  function IndexOf(g: Grid, b: Block): Interval {
    Interval(b.start - g.start, b.end - g.start)
  }

  function Indices(g: Grid, blocks: seq<Block>): (r: seq<Interval>)
    ensures |r| == |blocks|
  {
    if blocks == [] then [] else Indices(g, blocks[..|blocks| - 1]) + [IndexOf(g, blocks[|blocks| - 1])]
  }

  /** The occupied intervals: clipped events, then every placed block in order. */
  function Busy(g: Grid, blocks: seq<Block>): seq<Interval> {
    g.events + Indices(g, blocks)
  }

  /** Minute `i` is closer than `pause` to a busy interval, or inside it. */
  predicate Near(x: Interval, pause: nat, i: int) {
    x.lo - pause <= i < x.hi + pause
  }

  predicate Blocked(busy: seq<Interval>, pause: nat, i: int) {
    exists x :: x in busy && Near(x, pause, i)
  }

  function FreeMask(avail: seq<bool>, busy: seq<Interval>, pause: nat): (m: seq<bool>)
    ensures |m| == |avail|
  {
    seq(|avail|, i requires 0 <= i < |avail| => avail[i] && !Blocked(busy, pause, i))
  }

  predicate ValidBlock(g: Grid, b: Block, mask: seq<bool>)
    requires b.task in g.pending && |mask| == g.size
  {
    var t, x := g.pending[b.task], IndexOf(g, b);
    EarliestIndex(g, t) <= x.lo < x.hi <= LatestIndex(g, t) && AllFree(mask, x.lo, x.hi)
  }

  // ----- Phase one: locks -----

  function InsertKey(x: TaskId, keys: seq<TaskId>): seq<TaskId> {
    if keys == [] then [x]
    else if x == keys[0] then keys
    else if x < keys[0] then [x] + keys
    else [keys[0]] + InsertKey(x, keys[1..])
  }

  /** The tasks that own a previous block, ascending. */
  function Keys(blocks: seq<Block>): seq<TaskId> {
    if blocks == [] then [] else InsertKey(blocks[|blocks| - 1].task, Keys(blocks[..|blocks| - 1]))
  }

  function LocksOf(previous: seq<Block>, id: TaskId): seq<Block> {
    Sort(ByStart(), LockedOnly(Of(previous, id)))
  }

  predicate LockDurationConflict(t: Task, locks: seq<Block>) {
    Total(locks) > t.duration
    || (locks != [] && !t.splittable && (|locks| != 1 || Total(locks) != t.duration))
  }

  function ReserveEach(g: Grid, locks: seq<Block>, blocks: seq<Block>): Result<seq<Block>, Code>
    requires |g.avail| == g.size && forall b :: b in locks ==> b.task in g.pending
  {
    if locks == [] then Success(blocks)
    else if !ValidBlock(g, locks[0], FreeMask(g.avail, Busy(g, blocks), 0)) then Failure(LockedBlockConflict)
    else ReserveEach(g, locks[1..], blocks + [locks[0]])
  }

  predicate LocksKnown(g: Grid, keys: seq<TaskId>) {
    |g.avail| == g.size
    && forall id :: id in keys ==> id in g.pending && forall b :: b in LocksOf(g.previous, id) ==> b.task in g.pending
  }

  function ReserveLocks(g: Grid, keys: seq<TaskId>, blocks: seq<Block>): Result<seq<Block>, Code>
    requires LocksKnown(g, keys)
  {
    if keys == [] then Success(blocks)
    else
      var locks := LocksOf(g.previous, keys[0]);
      if LockDurationConflict(g.pending[keys[0]], locks) then Failure(LockedDurationConflict)
      else
        match ReserveEach(g, locks, blocks)
        case Failure(e) => Failure(e)
        case Success(next) => ReserveLocks(g, keys[1..], next)
  }

  // ----- Phase two: movable previous placements -----

  function MovableOf(previous: seq<Block>, id: TaskId): seq<Block> {
    Sort(ByStart(), MovableOnly(Of(previous, id)))
  }

  function Cleared(mask: seq<bool>, lo: int, hi: int): (r: seq<bool>)
    ensures |r| == |mask|
  {
    seq(|mask|, i requires 0 <= i < |mask| => mask[i] && !(lo <= i < hi))
  }

  /** Every block is valid once the ones before it are taken out of the mask. */
  predicate AllKept(g: Grid, blocks: seq<Block>, mask: seq<bool>)
    requires |mask| == g.size && forall b :: b in blocks ==> b.task in g.pending
  {
    blocks == []
    || (ValidBlock(g, blocks[0], mask)
        && AllKept(g, blocks[1..], Cleared(mask, IndexOf(g, blocks[0]).lo, IndexOf(g, blocks[0]).hi)))
  }

  predicate MovableKnown(g: Grid, queue: seq<Task>) {
    |g.avail| == g.size
    && forall t :: t in queue ==> forall b :: b in MovableOf(g.previous, t.id) ==> b.task in g.pending
  }

  predicate WholePlacement(t: Task, previous: seq<Block>) {
    Total(previous) == t.duration && (t.splittable || |previous| == 1)
  }

  function KeepTask(g: Grid, t: Task, blocks: seq<Block>): seq<Block>
    requires |g.avail| == g.size && forall b :: b in MovableOf(g.previous, t.id) ==> b.task in g.pending
  {
    var movable := MovableOf(g.previous, t.id);
    if WholePlacement(t, Of(g.previous, t.id)) && AllKept(g, movable, FreeMask(g.avail, Busy(g, blocks), 0))
    then blocks + movable
    else blocks
  }

  function KeepMovable(g: Grid, queue: seq<Task>, blocks: seq<Block>): seq<Block>
    requires MovableKnown(g, queue)
  {
    if queue == [] then blocks
    else KeepMovable(g, queue[1..], KeepTask(g, queue[0], blocks))
  }

  function Preserve(g: Grid): Result<seq<Block>, Code>
    requires LocksKnown(g, Keys(g.previous)) && MovableKnown(g, g.queue)
  {
    match ReserveLocks(g, Keys(g.previous), [])
    case Failure(e) => Failure(e)
    case Success(locks) => Success(KeepMovable(g, g.queue, locks))
  }

  // ----- Scoring -----

  /** Minutes `[lo, hi)` and `[a, b)` have in common. */
  function Shared(x: Interval, lo: int, hi: int): nat {
    Max(0, Min(x.hi, hi) - Max(x.lo, lo))
  }

  function UsedIn(day: Interval, intervals: seq<Interval>): nat {
    if intervals == [] then 0
    else
      var last := intervals[|intervals| - 1];
      UsedIn(day, intervals[..|intervals| - 1]) + Shared(day, last.lo, last.hi)
  }

  function Usage(days: seq<Interval>, intervals: seq<Interval>): (r: seq<nat>)
    ensures |r| == |days|
  {
    seq(|days|, k requires 0 <= k < |days| => UsedIn(days[k], intervals))
  }

  /** Minutes of `[lo, hi)` outside a period. */
  function OffPeriod(periods: seq<Period>, p: Period, lo: nat, hi: nat): nat
    requires hi <= |periods|
    decreases hi
  {
    if hi <= lo then 0 else OffPeriod(periods, p, lo, hi - 1) + if periods[hi - 1] != p then 1 else 0
  }

  /** A preference for one period costs its weight for every minute outside it; `Night` means none. */
  function PeriodCost(periods: seq<Period>, p: Period, weight: nat, lo: nat, hi: nat): nat
    requires hi <= |periods|
  {
    if p.Night? then 0 else weight * OffPeriod(periods, p, lo, hi)
  }

  function Overflow(used: nat, added: nat, target: nat): nat {
    Max(0, used + added - target) - Max(0, used - target)
  }

  /** Python's floor division of natural numbers. */
  function Per(amount: nat, length: nat): nat
    requires length > 0
  {
    amount / length
  }

  function OverloadCost(days: seq<Interval>, targets: seq<nat>, used: seq<nat>, start: nat, length: nat, k: nat): nat
    requires |targets| == |used| == |days| && k <= |days| && length > 0
  {
    if k == 0 then 0
    else OverloadCost(days, targets, used, start, length, k - 1)
         + Per(Overflow(used[k - 1], Shared(days[k - 1], start, start + length), targets[k - 1]) * 300, length)
  }

  function MoveWeight(l: Level): nat {
    match l case Low => 8 case Medium => 3 case High => 1
  }

  function EarliestStart(blocks: seq<Block>): int
    requires blocks != []
  {
    if |blocks| == 1 then blocks[0].start
    else Min(EarliestStart(blocks[..|blocks| - 1]), blocks[|blocks| - 1].start)
  }

  function MoveCost(g: Grid, t: Task, start: nat): nat {
    var previous := Of(g.previous, t.id);
    if previous == [] then 0
    else Abs(start - (EarliestStart(previous) - g.start)) * MoveWeight(g.prefs.flexibility) / 15
  }

  predicate Scorable(g: Grid, used: seq<nat>) {
    |g.periods| == g.size && |g.targets| == |used| == |g.days|
  }

  function Cost(g: Grid, t: Task, used: seq<nat>, start: nat, length: nat): nat
    requires Scorable(g, used) && length > 0 && start + length <= g.size
  {
    Per((PeriodCost(g.periods, t.preferred, 6, start, start + length)
         + PeriodCost(g.periods, g.prefs.chronotype, 2, start, start + length)
         + PeriodCost(g.periods, g.prefs.deepWork, 1, start, start + length)) * 100, length)
    + OverloadCost(g.days, g.targets, used, start, length, |g.days|)
    + MoveCost(g, t, start)
  }

  // ----- Searching -----

  datatype Search = Found(start: nat, length: nat, budget: int) | Nothing(budget: int) | Exhausted(budget: int)

  predicate Cheaper(a: (nat, nat), b: (nat, nat)) {
    a.0 < b.0 || (a.0 == b.0 && a.1 < b.1)
  }

  /** The legal start of least (cost, start). */
  ghost predicate Best(g: Grid, t: Task, used: seq<nat>, mask: seq<bool>, lo: nat, hi: nat, length: nat, s: nat)
    requires Scorable(g, used) && hi <= |mask| == g.size && length > 0
  {
    && Legal(mask, lo, hi, length, s)
    && forall other: nat :: Legal(mask, lo, hi, length, other) && other != s ==>
         Cheaper((Cost(g, t, used, s, length), s), (Cost(g, t, used, other, length), other))
  }

  /** Piece length tried at one pause level, 0 when the level has no room. */
  function PieceLength(splittable: bool, target: nat, longest: nat): (r: nat)
    ensures r <= target && r <= longest
  {
    if splittable then Min(target, longest) else if longest < target then 0 else target
  }

  /** The legal start of least (cost, start) among those below `upto`. */
  ghost function BestBelow(g: Grid, t: Task, used: seq<nat>, mask: seq<bool>, lo: nat, hi: nat, length: nat, upto: nat)
      : (r: Option<nat>)
    requires Scorable(g, used) && hi <= |mask| == g.size && length > 0
    ensures r.Some? ==> Legal(mask, lo, hi, length, r.value) && r.value < upto
  {
    if upto == 0 then None
    else
      var before := BestBelow(g, t, used, mask, lo, hi, length, upto - 1);
      var s := upto - 1;
      if !Legal(mask, lo, hi, length, s) then before
      else if before.Some?
              && !Cheaper((Cost(g, t, used, s, length), s), (Cost(g, t, used, before.value, length), before.value))
      then before
      else Some(s)
  }

  function Spent(budget: int): int { if budget < 0 then budget else 0 }

  ghost function SearchLevel(g: Grid, t: Task, used: seq<nat>, mask: seq<bool>, lo: nat, hi: nat, length: nat,
                             budget: int)
      : (r: Search)
    requires Scorable(g, used) && hi <= |mask| == g.size && length > 0
    ensures r.Found? ==> r.length == length && Legal(mask, lo, hi, length, r.start)
  {
    var candidates := CountLegal(mask, lo, hi, length, g.size);
    if budget < candidates then Exhausted(Spent(budget))
    else
      match BestBelow(g, t, used, mask, lo, hi, length, g.size)
      case None => Nothing(budget)
      case Some(s) => Found(s, length, budget - candidates)
  }

  function Target(g: Grid, t: Task, remaining: nat): nat {
    if t.splittable then Min(remaining, g.prefs.focus) else remaining
  }

  /** The preferred pause first; without a pause when nothing fits. */
  ghost function FindSlot(g: Grid, t: Task, remaining: nat, busy: seq<Interval>, used: seq<nat>,
                          budget: int): (r: Search)
    requires Scorable(g, used) && |g.avail| == g.size
    ensures r.Found? ==> 1 <= r.length <= remaining
  {
    var lo, hi := EarliestIndex(g, t), LatestIndex(g, t);
    var target := Target(g, t, remaining);
    var paused, tight := FreeMask(g.avail, busy, g.prefs.pause), FreeMask(g.avail, busy, 0);
    var first := PieceLength(t.splittable, target, Longest(paused, lo, hi));
    var second := PieceLength(t.splittable, target, Longest(tight, lo, hi));
    if first > 0 then SearchLevel(g, t, used, paused, lo, hi, first, budget)
    else if second > 0 then SearchLevel(g, t, used, tight, lo, hi, second, budget)
    else Nothing(budget)
  }

  // ----- Phase three: all-or-nothing placement -----

  datatype Placement = Placed(pieces: seq<Interval>, budget: int) | NoRoom(budget: int) | Limited(budget: int)

  /** Places `remaining` minutes piece by piece; `intervals` are the blocks and pieces so far. */
  ghost function Place(g: Grid, t: Task, remaining: nat, busy: seq<Interval>, intervals: seq<Interval>,
                       budget: int): Placement
    requires |g.periods| == g.size == |g.avail| && |g.targets| == |g.days|
    decreases remaining
  {
    if remaining == 0 then Placed([], budget)
    else if |intervals| >= MAX_BLOCKS then Limited(budget)
    else
      match FindSlot(g, t, remaining, busy, Usage(g.days, intervals), budget)
      case Exhausted(b) => Limited(b)
      case Nothing(b) => NoRoom(b)
      case Found(start, length, b) =>
        var piece := Interval(start, start + length);
        match Place(g, t, remaining - length, busy + [piece], intervals + [piece], b)
        case Placed(pieces, b') => Placed([piece] + pieces, b')
        case NoRoom(b') => NoRoom(b')
        case Limited(b') => Limited(b')
  }

  function BlockFor(g: Grid, t: Task, x: Interval): Block {
    Block(t.id, g.start + x.lo, g.start + x.hi, false)
  }

  function BlocksFor(g: Grid, t: Task, pieces: seq<Interval>): (r: seq<Block>)
    ensures |r| == |pieces|
  {
    if pieces == [] then [] else BlocksFor(g, t, pieces[..|pieces| - 1]) + [BlockFor(g, t, pieces[|pieces| - 1])]
  }

  function FailureReason(g: Grid, t: Task, limited: bool): Reason {
    if t.deadline.Some? && LatestIndex(g, t) <= EarliestIndex(g, t) then DeadlinePassed
    else if limited then SearchLimit
    else NoSlotFound
  }

  predicate Plannable(g: Grid) {
    |g.periods| == g.size == |g.avail| && |g.targets| == |g.days|
  }

  /** One task: all its missing minutes are placed, or only the report and the budget change.
      Kept blocks never exceed the duration, so the first test is the source's `remaining == 0`. */
  ghost function Allocate(g: Grid, t: Task, w: Work): Work
    requires Plannable(g)
  {
    if t.duration <= Minutes(w.blocks, t.id) then w
    else
      var remaining := t.duration - Minutes(w.blocks, t.id);
      match Place(g, t, remaining, Busy(g, w.blocks), Indices(g, w.blocks), w.budget)
      case Placed(pieces, b) => w.(blocks := w.blocks + BlocksFor(g, t, pieces), budget := b)
      case NoRoom(b) =>
        w.(unscheduled := w.unscheduled + [Unscheduled(t.id, remaining, FailureReason(g, t, false))], budget := b)
      case Limited(b) =>
        w.(unscheduled := w.unscheduled + [Unscheduled(t.id, remaining, FailureReason(g, t, true))], budget := b)
  }

  ghost function AllocateAll(g: Grid, queue: seq<Task>, w: Work): Work
    requires Plannable(g)
  {
    if queue == [] then w else AllocateAll(g, queue[1..], Allocate(g, queue[0], w))
  }
}
