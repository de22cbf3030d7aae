/** Placement of one task: soundness of its pieces, the exact success condition, and the budget. */
module PlaceFacts {
  import opened PlanningModels
  import opened Masks
  import opened PlanningGrid
  import opened PlannerSpec
  import opened SearchFacts

  ghost predicate Searchable(g: Grid) {
    Plannable(g) && ValidPreferences(g.prefs)
  }

  function Lengths(xs: seq<Interval>): int {
    if xs == [] then 0 else xs[0].hi - xs[0].lo + Lengths(xs[1..])
  }

  /** A piece inside the task's bounds, on minutes free of `busy`. */
  predicate PieceFits(g: Grid, t: Task, busy: seq<Interval>, p: Interval)
    requires |g.avail| == g.size
  {
    EarliestIndex(g, t) <= p.lo < p.hi <= LatestIndex(g, t) && AllFree(FreeMask(g.avail, busy, 0), p.lo, p.hi)
  }

  predicate Separate(a: Interval, b: Interval) { a.hi <= b.lo || b.hi <= a.lo }

  predicate AllSeparate(xs: seq<Interval>) {
    forall i, j :: 0 <= i < j < |xs| ==> Separate(xs[i], xs[j])
  }

  lemma MaskAfterPiece(avail: seq<bool>, busy: seq<Interval>, p: Interval)
    ensures forall i :: 0 <= i < |avail| ==>
      FreeMask(avail, busy + [p], 0)[i] == (FreeMask(avail, busy, 0)[i] && !(p.lo <= i < p.hi))
  {
    forall i | 0 <= i < |avail|
      ensures Blocked(busy + [p], 0, i) <==> Blocked(busy, 0, i) || p.lo <= i < p.hi
    {
      if Blocked(busy, 0, i) {
        var x :| x in busy && Near(x, 0, i);
        assert x in busy + [p];
      }
      assert p in busy + [p];
      if p.lo <= i < p.hi { assert Near(p, 0, i); }
    }
  }

  /** The found slot as a piece. */
  lemma FoundFits(g: Grid, t: Task, remaining: nat, busy: seq<Interval>, used: seq<nat>, budget: int)
    requires Searchable(g) && |used| == |g.days| && remaining > 0
    requires FindSlot(g, t, remaining, busy, used, budget).Found?
    ensures var r := FindSlot(g, t, remaining, busy, used, budget);
      && PieceFits(g, t, busy, Interval(r.start, r.start + r.length))
      && (t.splittable ==> r.length <= g.prefs.focus)
      && (!t.splittable ==> r.length == remaining)
      && r.budget < budget && 0 <= r.budget
  {
    FindSlotMeaning(g, t, remaining, busy, used, budget);
    PauseShrinks(g.avail, busy, g.prefs.pause);
  }

  lemma FitsBefore(g: Grid, t: Task, busy: seq<Interval>, first: Interval, p: Interval)
    requires |g.avail| == g.size && first.lo < first.hi && PieceFits(g, t, busy + [first], p)
    ensures PieceFits(g, t, busy, p) && Separate(first, p)
  {
    MaskAfterPiece(g.avail, busy, first);
    var m := FreeMask(g.avail, busy + [first], 0);
    assert m[Max(p.lo, Min(p.hi - 1, first.lo))];
  }

  /** One round of a placement: the slot found first decides, and a found piece comes before the rest. */
  lemma PlaceRound(g: Grid, t: Task, remaining: nat, busy: seq<Interval>, intervals: seq<Interval>, budget: int)
      returns (r: Search)
    requires Searchable(g) && remaining > 0
    ensures r == FindSlot(g, t, remaining, busy, Usage(g.days, intervals), budget)
    ensures var whole := Place(g, t, remaining, busy, intervals, budget);
      if |intervals| >= MAX_BLOCKS then whole == Limited(budget)
      else if r.Exhausted? then whole == Limited(r.budget)
      else if r.Nothing? then whole == NoRoom(r.budget)
      else
        var piece := Interval(r.start, r.start + r.length);
        whole == Before(piece, Place(g, t, remaining - r.length, busy + [piece], intervals + [piece], r.budget))
  {
    hide FindSlot, Usage;
    r := FindSlot(g, t, remaining, busy, Usage(g.days, intervals), budget);
  }

  /** A placement with one more piece in front. */
  function Before(piece: Interval, p: Placement): Placement {
    match p
    case Placed(pieces, b) => Placed([piece] + pieces, b)
    case NoRoom(b) => NoRoom(b)
    case Limited(b) => Limited(b)
  }

  lemma LengthsFirst(piece: Interval, rest: seq<Interval>)
    ensures Lengths([piece] + rest) == piece.hi - piece.lo + Lengths(rest)
  {
    assert ([piece] + rest)[1..] == rest;
  }

  lemma SeparateFirst(piece: Interval, rest: seq<Interval>)
    requires AllSeparate(rest) && forall p :: p in rest ==> Separate(piece, p)
    ensures AllSeparate([piece] + rest)
  {
    hide Separate;
  }

  /** Pieces fit, are separate, and add up to the missing minutes. */
  lemma {:induction false} PlacedPiecesFit(g: Grid, t: Task, remaining: nat, busy: seq<Interval>,
                                           intervals: seq<Interval>, budget: int)
    requires Searchable(g) && Place(g, t, remaining, busy, intervals, budget).Placed?
    ensures var pieces := Place(g, t, remaining, busy, intervals, budget).pieces;
      && Lengths(pieces) == remaining
      && (forall p :: p in pieces ==> PieceFits(g, t, busy, p))
      && AllSeparate(pieces)
    decreases remaining
  {
    if remaining == 0 {
    } else {
      hide Place, FindSlot, Usage, PieceFits, FreeMask, Lengths, AllSeparate, Separate;
      var r := PlaceRound(g, t, remaining, busy, intervals, budget);
      FoundFits(g, t, remaining, busy, Usage(g.days, intervals), budget);
      var piece := Interval(r.start, r.start + r.length);
      PlacedPiecesFit(g, t, remaining - r.length, busy + [piece], intervals + [piece], r.budget);
      var rest := Place(g, t, remaining - r.length, busy + [piece], intervals + [piece], r.budget).pieces;
      forall p | p in rest ensures PieceFits(g, t, busy, p) && Separate(piece, p) {
        FitsBefore(g, t, busy, piece, p);
      }
      LengthsFirst(piece, rest);
      SeparateFirst(piece, rest);
    }
  }

  /** New pieces respect the focus length; an unsplittable task gets one piece. */
  lemma {:induction false} PlacedPiecesShape(g: Grid, t: Task, remaining: nat, busy: seq<Interval>,
                                             intervals: seq<Interval>, budget: int)
    requires Searchable(g) && Place(g, t, remaining, busy, intervals, budget).Placed?
    ensures var pieces := Place(g, t, remaining, busy, intervals, budget).pieces;
      && (t.splittable ==> forall p :: p in pieces ==> p.hi - p.lo <= g.prefs.focus)
      && (!t.splittable && remaining > 0 ==> |pieces| == 1)
      && (remaining == 0 ==> pieces == [])
    decreases remaining
  {
    if remaining == 0 {
    } else {
      hide Place, FindSlot, Usage, PieceFits, FreeMask;
      var r := PlaceRound(g, t, remaining, busy, intervals, budget);
      FoundFits(g, t, remaining, busy, Usage(g.days, intervals), budget);
      var piece := Interval(r.start, r.start + r.length);
      PlacedPiecesShape(g, t, remaining - r.length, busy + [piece], intervals + [piece], r.budget);
    }
  }

  /** A placement never takes the block count over the cap. */
  lemma {:induction false} PlacedPiecesCap(g: Grid, t: Task, remaining: nat, busy: seq<Interval>,
                                           intervals: seq<Interval>, budget: int)
    requires Searchable(g) && Place(g, t, remaining, busy, intervals, budget).Placed?
    requires |intervals| <= MAX_BLOCKS
    ensures |intervals| + |Place(g, t, remaining, busy, intervals, budget).pieces| <= MAX_BLOCKS
    decreases remaining
  {
    if remaining == 0 {
    } else {
      hide Place, FindSlot, Usage;
      var r := PlaceRound(g, t, remaining, busy, intervals, budget);
      var piece := Interval(r.start, r.start + r.length);
      PlacedPiecesCap(g, t, remaining - r.length, busy + [piece], intervals + [piece], r.budget);
    }
  }

  lemma SlotBudget(g: Grid, t: Task, remaining: nat, busy: seq<Interval>, used: seq<nat>, budget: int)
    requires Searchable(g) && |used| == |g.days| && remaining > 0
    ensures FindSlot(g, t, remaining, busy, used, budget).budget <= budget
    ensures 0 <= budget ==> 0 <= FindSlot(g, t, remaining, busy, used, budget).budget
  {
    hide FindSlot, FreeMask, HasRoom, ChosenPause, Best, CountLegal, PieceLength, Longest;
    FindSlotMeaning(g, t, remaining, busy, used, budget);
  }

  /** Candidate evaluations are paid from the budget, which never becomes newly negative. */
  lemma {:induction false} PlaceBudget(g: Grid, t: Task, remaining: nat, busy: seq<Interval>,
                                       intervals: seq<Interval>, budget: int)
    requires Searchable(g)
    ensures Place(g, t, remaining, busy, intervals, budget).budget <= budget
    ensures 0 <= budget ==> 0 <= Place(g, t, remaining, busy, intervals, budget).budget
    decreases remaining
  {
    if remaining == 0 {
    } else {
      hide Place, FindSlot, Usage;
      var r := PlaceRound(g, t, remaining, busy, intervals, budget);
      SlotBudget(g, t, remaining, busy, Usage(g.days, intervals), budget);
      if |intervals| < MAX_BLOCKS && r.Found? {
        var piece := Interval(r.start, r.start + r.length);
        PlaceBudget(g, t, remaining - r.length, busy + [piece], intervals + [piece], r.budget);
      }
    }
  }

  /** What the bounds of a task still offer: all free minutes when it may be split,
      the longest free run when it may not. */
  ghost function Capacity(g: Grid, t: Task, busy: seq<Interval>): nat
    requires |g.avail| == g.size
  {
    var mask := FreeMask(g.avail, busy, 0);
    if t.splittable then FreeCount(mask, EarliestIndex(g, t), LatestIndex(g, t))
    else Longest(mask, EarliestIndex(g, t), LatestIndex(g, t))
  }

  lemma CapacityAfterPiece(g: Grid, t: Task, busy: seq<Interval>, p: Interval)
    requires |g.avail| == g.size && t.splittable && PieceFits(g, t, busy, p)
    ensures Capacity(g, t, busy + [p]) == Capacity(g, t, busy) - (p.hi - p.lo)
  {
    MaskAfterPiece(g.avail, busy, p);
    FreeCountCleared(FreeMask(g.avail, busy, 0), FreeMask(g.avail, busy + [p], 0), p.lo, p.hi,
                     EarliestIndex(g, t), LatestIndex(g, t));
  }

  /** A piece that fits is no longer than the longest free run. */
  lemma WholePiece(g: Grid, t: Task, busy: seq<Interval>, p: Interval)
    requires |g.avail| == g.size && !t.splittable && PieceFits(g, t, busy, p)
    ensures p.hi - p.lo <= Capacity(g, t, busy)
  {
    NothingLonger(FreeMask(g.avail, busy, 0), EarliestIndex(g, t), LatestIndex(g, t), p.hi - p.lo, p.lo);
  }

  /** Barring the search limit, all minutes are placed if and only if the capacity suffices. */
  lemma {:induction false} PlaceExact(g: Grid, t: Task, remaining: nat, busy: seq<Interval>, intervals: seq<Interval>,
                                      budget: int)
    requires Searchable(g)
    ensures Place(g, t, remaining, busy, intervals, budget).Placed? ==> remaining <= Capacity(g, t, busy)
    ensures Place(g, t, remaining, busy, intervals, budget).NoRoom? ==> Capacity(g, t, busy) < remaining
    decreases remaining
  {
    if remaining == 0 {
    } else {
      hide Place, FindSlot, Usage, Best, CountLegal, ChosenPause, FreeMask, Longest, FreeCount, EarliestAt, LatestAt,
           PieceFits;
      var used := Usage(g.days, intervals);
      var r := PlaceRound(g, t, remaining, busy, intervals, budget);
      FindSlotMeaning(g, t, remaining, busy, used, budget);
      NoRunNoCount(FreeMask(g.avail, busy, 0), EarliestIndex(g, t), LatestIndex(g, t));
      if |intervals| < MAX_BLOCKS && r.Found? {
        FoundFits(g, t, remaining, busy, used, budget);
        var piece := Interval(r.start, r.start + r.length);
        PlaceExact(g, t, remaining - r.length, busy + [piece], intervals + [piece], r.budget);
        if t.splittable { CapacityAfterPiece(g, t, busy, piece); } else { WholePiece(g, t, busy, piece); }
      }
    }
  }

  /** More busy time never raises the capacity. */
  lemma CapacityShrinks(g: Grid, h: Grid, t: Task, busy: seq<Interval>, more: seq<Interval>)
    requires |g.avail| == g.size && h.avail == g.avail && h.size == g.size && h.start == g.start && h.floor == g.floor
    requires forall x :: x in busy ==> x in more
    ensures Capacity(h, t, more) <= Capacity(g, t, busy)
  {
    var a, b := FreeMask(g.avail, more, 0), FreeMask(g.avail, busy, 0);
    forall i | 0 <= i < |a| ensures Blocked(busy, 0, i) ==> Blocked(more, 0, i) {
      if Blocked(busy, 0, i) {
        var x :| x in busy && Near(x, 0, i);
        assert x in more;
      }
    }
    FreeCountMonotone(a, b, EarliestIndex(g, t), LatestIndex(g, t));
    LongestMonotone(a, b, EarliestIndex(g, t), LatestIndex(g, t));
  }
}
