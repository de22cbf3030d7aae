/** What the slot search returns, said without its own steps: which pause, which length, which start
    and which price. */
module SlotTheorems {
  import opened PlanningModels
  import opened Masks
  import opened PlanningGrid
  import opened PlannerSpec
  import opened SearchFacts
  import opened PlaceFacts
  import opened Counting

  // ----- Pieces and pauses -----

  /** A piece of `length` minutes from minute `s` fits: inside the task's bounds, on available minutes,
      and at least the pause away from everything occupied. */
  ghost predicate Fits(g: Grid, t: Task, busy: seq<Interval>, pause: nat, length: nat, s: int)
    requires |g.avail| == g.size
  {
    && EarliestIndex(g, t) <= s && s + length <= LatestIndex(g, t)
    && (forall i :: s <= i < s + length ==> g.avail[i])
    && (forall x :: x in busy ==> s + length + pause <= x.lo || x.hi + pause <= s)
  }

  ghost predicate Nonempty(busy: seq<Interval>) { forall x :: x in busy ==> x.lo < x.hi }

  lemma FitsExact(g: Grid, t: Task, busy: seq<Interval>, pause: nat, length: nat, s: int)
    requires |g.avail| == g.size && length > 0 && Nonempty(busy)
    ensures Fits(g, t, busy, pause, length, s) <==>
      Legal(FreeMask(g.avail, busy, pause), EarliestIndex(g, t), LatestIndex(g, t), length, s)
  {
    hide EarliestAt, LatestAt;
    var lo, hi, mask := EarliestIndex(g, t), LatestIndex(g, t), FreeMask(g.avail, busy, pause);
    if Legal(mask, lo, hi, length, s) {
      forall x | x in busy ensures s + length + pause <= x.lo || x.hi + pause <= s {
        PieceKeepsPause(g.avail, busy, pause, lo, hi, length, s, x);
      }
      forall i | s <= i < s + length ensures g.avail[i] { assert mask[i]; }
    }
    if Fits(g, t, busy, pause, length, s) {
      forall i | s <= i < s + length ensures mask[i] {
        forall x | x in busy ensures !Near(x, pause, i) { }
      }
    }
  }

  // ----- Length -----

  /** Lengths a piece may have: up to the focus length for a task that may be split, all the missing
      minutes for another. */
  ghost predicate Allowed(g: Grid, t: Task, remaining: nat, length: nat) {
    1 <= length <= remaining && if t.splittable then length <= g.prefs.focus else length == remaining
  }

  /** With this pause some piece of an allowed length fits. */
  ghost predicate Room(g: Grid, t: Task, remaining: nat, busy: seq<Interval>, pause: nat)
    requires |g.avail| == g.size
  {
    exists length: nat, s: int :: Allowed(g, t, remaining, length) && Fits(g, t, busy, pause, length, s)
  }

  /** The greatest allowed length at which a piece fits. */
  ghost predicate LongestAllowed(g: Grid, t: Task, remaining: nat, busy: seq<Interval>, pause: nat, length: nat)
    requires |g.avail| == g.size
  {
    && Allowed(g, t, remaining, length)
    && (exists s :: Fits(g, t, busy, pause, length, s))
    && (forall other: nat, s :: Allowed(g, t, remaining, other) && Fits(g, t, busy, pause, other, s) ==>
          other <= length)
  }

  ghost function LevelLength(g: Grid, t: Task, remaining: nat, busy: seq<Interval>, pause: nat): nat
    requires |g.avail| == g.size
  {
    PieceLength(t.splittable, Target(g, t, remaining),
                Longest(FreeMask(g.avail, busy, pause), EarliestIndex(g, t), LatestIndex(g, t)))
  }

  lemma FittingBounded(g: Grid, t: Task, remaining: nat, busy: seq<Interval>, pause: nat, length: nat, s: int)
    requires |g.avail| == g.size && Nonempty(busy)
    requires Allowed(g, t, remaining, length) && Fits(g, t, busy, pause, length, s)
    ensures length <= LevelLength(g, t, remaining, busy, pause)
  {
    hide Fits, Longest, EarliestIndex, LatestIndex, FreeMask;
    FitsExact(g, t, busy, pause, length, s);
    NothingLonger(FreeMask(g.avail, busy, pause), EarliestIndex(g, t), LatestIndex(g, t), length, s);
  }

  /** A level has room exactly when its piece length is positive, which is then the longest allowed. */
  lemma LevelExact(g: Grid, t: Task, remaining: nat, busy: seq<Interval>, pause: nat)
    requires |g.avail| == g.size && Nonempty(busy) && remaining > 0 && ValidPreferences(g.prefs)
    ensures var length := LevelLength(g, t, remaining, busy, pause);
      && (length > 0 <==> Room(g, t, remaining, busy, pause))
      && (length > 0 ==> LongestAllowed(g, t, remaining, busy, pause, length))
      && (forall other :: LongestAllowed(g, t, remaining, busy, pause, other) ==> length > 0 && other == length)
  {
    hide Fits, Longest, EarliestIndex, LatestIndex, FreeMask;
    var length := LevelLength(g, t, remaining, busy, pause);
    forall other: nat, s | Allowed(g, t, remaining, other) && Fits(g, t, busy, pause, other, s)
      ensures other <= length
    {
      FittingBounded(g, t, remaining, busy, pause, other, s);
    }
    if length > 0 {
      var s := ShorterFits(FreeMask(g.avail, busy, pause), EarliestIndex(g, t), LatestIndex(g, t), length);
      FitsExact(g, t, busy, pause, length, s);
      assert Allowed(g, t, remaining, length);
    }
  }

  // ----- Start and price -----

  /** The starts at which a piece of this length fits. */
  ghost function Starts(g: Grid, t: Task, busy: seq<Interval>, pause: nat, length: nat): set<int>
    requires |g.avail| == g.size
  {
    set s | 0 <= s < g.size && Fits(g, t, busy, pause, length, s)
  }

  lemma StartsCounted(g: Grid, t: Task, busy: seq<Interval>, pause: nat, length: nat)
    requires |g.avail| == g.size && length > 0 && Nonempty(busy)
    ensures CountLegal(FreeMask(g.avail, busy, pause), EarliestIndex(g, t), LatestIndex(g, t), length, g.size)
            == |Starts(g, t, busy, pause, length)|
  {
    hide Fits, Legal, EarliestIndex, LatestIndex, FreeMask;
    var lo, hi, mask := EarliestIndex(g, t), LatestIndex(g, t), FreeMask(g.avail, busy, pause);
    CountLegalSize(mask, lo, hi, length, g.size);
    forall s ensures Fits(g, t, busy, pause, length, s) <==> Legal(mask, lo, hi, length, s) {
      FitsExact(g, t, busy, pause, length, s);
    }
    assert Starts(g, t, busy, pause, length) == LegalStarts(mask, lo, hi, length, g.size);
  }

  /** No other start costs less, and none at equal cost is earlier. */
  ghost predicate Cheapest(g: Grid, t: Task, busy: seq<Interval>, used: seq<nat>, pause: nat, length: nat, start: nat)
    requires |g.avail| == g.size && Scorable(g, used) && length > 0 && Fits(g, t, busy, pause, length, start)
  {
    forall s: nat :: Fits(g, t, busy, pause, length, s) && s != start ==>
      Cost(g, t, used, start, length) < Cost(g, t, used, s, length)
      || (Cost(g, t, used, start, length) == Cost(g, t, used, s, length) && start < s)
  }

  /** The search at one pause level that has room. */
  lemma LevelMeaning(g: Grid, t: Task, busy: seq<Interval>, used: seq<nat>, pause: nat, length: nat, budget: int)
    requires Scorable(g, used) && |g.avail| == g.size && Nonempty(busy)
    requires var mask := FreeMask(g.avail, busy, pause);
      1 <= length <= Longest(mask, EarliestIndex(g, t), LatestIndex(g, t))
    ensures var r := SearchLevel(g, t, used, FreeMask(g.avail, busy, pause), EarliestIndex(g, t), LatestIndex(g, t),
                                 length, budget);
      && !r.Nothing?
      && (r.Exhausted? <==> budget < |Starts(g, t, busy, pause, length)|)
      && (r.Exhausted? ==> r.budget == Min(budget, 0))
      && (r.Found? ==> r.length == length && Fits(g, t, busy, pause, length, r.start)
                       && r.budget == budget - |Starts(g, t, busy, pause, length)|
                       && Cheapest(g, t, busy, used, pause, length, r.start))
  {
    hide Fits, Legal, EarliestIndex, LatestIndex, FreeMask, Cost, Longest;
    var lo, hi, mask := EarliestIndex(g, t), LatestIndex(g, t), FreeMask(g.avail, busy, pause);
    SearchLevelMeaning(g, t, used, mask, lo, hi, length, budget);
    StartsCounted(g, t, busy, pause, length);
    forall s ensures Fits(g, t, busy, pause, length, s) <==> Legal(mask, lo, hi, length, s) {
      FitsExact(g, t, busy, pause, length, s);
    }
  }

  /** `find_slot`: the preferred pause when some allowed piece fits with it, otherwise none; the
      greatest allowed length that then fits, so a divisible task gets the longest piece within its
      missing minutes and the focus length; the cheapest start, the earlier of equals; one unit of
      budget for each start that fits, and no result exactly when the budget cannot pay for them. */
  lemma SlotExact(g: Grid, t: Task, remaining: nat, busy: seq<Interval>, used: seq<nat>, budget: int)
    requires Searchable(g) && |used| == |g.days| && remaining > 0 && Nonempty(busy)
    ensures var r := FindSlot(g, t, remaining, busy, used, budget);
      var pause := if Room(g, t, remaining, busy, g.prefs.pause) then g.prefs.pause else 0;
      && (r.Nothing? <==> !Room(g, t, remaining, busy, pause))
      && (r.Nothing? ==> r.budget == budget)
      && (r.Found? ==> LongestAllowed(g, t, remaining, busy, pause, r.length)
                       && Fits(g, t, busy, pause, r.length, r.start)
                       && Cheapest(g, t, busy, used, pause, r.length, r.start)
                       && r.budget == budget - |Starts(g, t, busy, pause, r.length)|)
      && (r.Exhausted? ==> r.budget == Min(budget, 0))
      && (forall length :: LongestAllowed(g, t, remaining, busy, pause, length) ==>
            (r.Exhausted? <==> budget < |Starts(g, t, busy, pause, length)|))
  {
    hide Fits, FreeMask, Cost, EarliestIndex, LatestIndex, Longest, SearchLevel, Room, Cheapest, Starts;
    var first, second := LevelLength(g, t, remaining, busy, g.prefs.pause), LevelLength(g, t, remaining, busy, 0);
    LevelExact(g, t, remaining, busy, g.prefs.pause);
    LevelExact(g, t, remaining, busy, 0);
    if first > 0 {
      LevelMeaning(g, t, busy, used, g.prefs.pause, first, budget);
    } else if second > 0 {
      LevelMeaning(g, t, busy, used, 0, second, budget);
    }
  }
}
