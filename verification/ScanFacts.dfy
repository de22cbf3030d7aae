/** Loop facts for scanning gaps in order: skipped minutes hold no legal start. */
module ScanFacts {
  import opened Wrappers
  import opened PlanningModels
  import opened Masks
  import opened PlanningGrid
  import opened PlannerSpec
  import opened SearchFacts

  /** No legal start in `[done, ...)` lies before gap `k`; none at all once the gaps are used up. */
  ghost predicate ScannedTo(mask: seq<bool>, lo: nat, hi: nat, gaps: seq<Interval>, length: nat, k: nat, done: nat)
    requires hi <= |mask| && k <= |gaps|
  {
    forall s: nat :: done <= s && Legal(mask, lo, hi, length, s) ==> k < |gaps| && gaps[k].lo <= s
  }

  lemma ScanStarts(mask: seq<bool>, lo: nat, hi: nat, gaps: seq<Interval>, length: nat)
    requires hi <= |mask| && AreGaps(mask, lo, hi, gaps) && length > 0
    ensures ScannedTo(mask, lo, hi, gaps, length, 0, 0)
  {
    forall s: nat | Legal(mask, lo, hi, length, s) ensures 0 < |gaps| && gaps[0].lo <= s {
      var j := LegalInsideGap(mask, lo, hi, gaps, length, s);
    }
  }

  lemma ScanAdvances(mask: seq<bool>, lo: nat, hi: nat, gaps: seq<Interval>, length: nat, k: nat, done: nat)
    requires hi <= |mask| && AreGaps(mask, lo, hi, gaps) && length > 0 && k < |gaps|
    requires done >= gaps[k].lo && done > gaps[k].hi - length
    ensures ScannedTo(mask, lo, hi, gaps, length, k + 1, done)
  {
    forall s: nat | done <= s && Legal(mask, lo, hi, length, s) ensures k + 1 < |gaps| && gaps[k + 1].lo <= s {
      var j := LegalInsideGap(mask, lo, hi, gaps, length, s);
      if k + 1 < j { assert gaps[k + 1].hi < gaps[j].lo; }
    }
  }

  lemma {:induction false} BestBelowSkips(g: Grid, t: Task, used: seq<nat>, mask: seq<bool>, lo: nat, hi: nat,
                                          length: nat, a: nat, b: nat)
    requires Scorable(g, used) && hi <= |mask| == g.size && length > 0 && a <= b
    requires forall s :: a <= s < b ==> !Legal(mask, lo, hi, length, s)
    ensures BestBelow(g, t, used, mask, lo, hi, length, a) == BestBelow(g, t, used, mask, lo, hi, length, b)
    decreases b
  {
    if b <= a {
    } else {
      BestBelowSkips(g, t, used, mask, lo, hi, length, a, b - 1);
    }
  }

  /** State of a scan: what has been paid and found below `done`. */
  ghost predicate Scanned(g: Grid, t: Task, used: seq<nat>, mask: seq<bool>, lo: nat, hi: nat, length: nat, done: nat,
                          budget0: int, budget: int, best: Option<nat>)
    requires Scorable(g, used) && hi <= |mask| == g.size && length > 0
  {
    var paid := CountLegal(mask, lo, hi, length, done);
    && budget == budget0 - paid
    && (paid == 0 || paid <= budget0)
    && best == BestBelow(g, t, used, mask, lo, hi, length, done)
  }

  lemma ScannedSkip(g: Grid, t: Task, used: seq<nat>, mask: seq<bool>, lo: nat, hi: nat, length: nat, a: nat, b: nat,
                    budget0: int, budget: int, best: Option<nat>)
    requires Scorable(g, used) && hi <= |mask| == g.size && length > 0 && a <= b
    requires forall s :: a <= s < b ==> !Legal(mask, lo, hi, length, s)
    requires Scanned(g, t, used, mask, lo, hi, length, a, budget0, budget, best)
    ensures Scanned(g, t, used, mask, lo, hi, length, b, budget0, budget, best)
  {
    NoLegalBetween(mask, lo, hi, length, a, b);
    BestBelowSkips(g, t, used, mask, lo, hi, length, a, b);
  }

  /** Between gaps there is nothing to evaluate. */
  lemma SkipToGap(g: Grid, t: Task, used: seq<nat>, mask: seq<bool>, lo: nat, hi: nat, gaps: seq<Interval>,
                  length: nat, k: nat,
                  done: nat, budget0: int, budget: int, best: Option<nat>)
    requires Scorable(g, used) && hi <= |mask| == g.size && length > 0 && k <= |gaps|
    requires AreGaps(mask, lo, hi, gaps)
    requires ScannedTo(mask, lo, hi, gaps, length, k, done)
    requires Scanned(g, t, used, mask, lo, hi, length, done, budget0, budget, best)
    ensures k < |gaps| ==>
      Scanned(g, t, used, mask, lo, hi, length, Max(done, gaps[k].lo), budget0, budget, best)
    ensures k == |gaps| && done <= g.size ==> Scanned(g, t, used, mask, lo, hi, length, g.size, budget0, budget, best)
  {
    if k < |gaps| {
      ScannedSkip(g, t, used, mask, lo, hi, length, done, Max(done, gaps[k].lo), budget0, budget, best);
    } else if done <= g.size {
      ScannedSkip(g, t, used, mask, lo, hi, length, done, g.size, budget0, budget, best);
    }
  }

  /** Evaluating one legal start. */
  lemma ScannedStep(g: Grid, t: Task, used: seq<nat>, mask: seq<bool>, lo: nat, hi: nat, length: nat, s: nat,
                    budget0: int, budget: int, best: Option<nat>)
    requires Scorable(g, used) && hi <= |mask| == g.size && length > 0 && budget > 0
    requires Legal(mask, lo, hi, length, s)
    requires Scanned(g, t, used, mask, lo, hi, length, s, budget0, budget, best)
    requires best.Some? ==> Legal(mask, lo, hi, length, best.value)
    ensures Scanned(g, t, used, mask, lo, hi, length, s + 1, budget0, budget - 1,
      if best.Some? && !Cheaper((Cost(g, t, used, s, length), s), (Cost(g, t, used, best.value, length), best.value))
      then best else Some(s))
  {
  }

  /** Stopping before a legal start for lack of budget means the level exceeds the budget. */
  lemma ScanExhausted(g: Grid, t: Task, used: seq<nat>, mask: seq<bool>, lo: nat, hi: nat, length: nat, s: nat,
                      budget0: int, budget: int, best: Option<nat>)
    requires Scorable(g, used) && hi <= |mask| == g.size && length > 0 && budget <= 0
    requires Legal(mask, lo, hi, length, s)
    requires Scanned(g, t, used, mask, lo, hi, length, s, budget0, budget, best)
    ensures SearchLevel(g, t, used, mask, lo, hi, length, budget0) == Exhausted(budget)
  {
    CountLegalMonotone(mask, lo, hi, length, s + 1, g.size);
  }

  /** Scanning everything yields the level's answer. */
  lemma ScanComplete(g: Grid, t: Task, used: seq<nat>, mask: seq<bool>, lo: nat, hi: nat, length: nat,
                     budget0: int, budget: int, best: Option<nat>)
    requires Scorable(g, used) && hi <= |mask| == g.size && 1 <= length <= Longest(mask, lo, hi)
    requires Scanned(g, t, used, mask, lo, hi, length, g.size, budget0, budget, best)
    ensures best.Some? && SearchLevel(g, t, used, mask, lo, hi, length, budget0) == Found(best.value, length, budget)
  {
    SearchLevelMeaning(g, t, used, mask, lo, hi, length, budget0);
    var s := ShorterFits(mask, lo, hi, length);
    CountedWhenLegal(mask, lo, hi, length, g.size, s);
    BestBelowMeaning(g, t, used, mask, lo, hi, length, g.size, s);
  }
}
