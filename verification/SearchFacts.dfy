/** The slot search is a true argmin at the strongest pause level with room. */
module SearchFacts {
  import opened PlanningModels
  import opened Masks
  import opened PlanningGrid
  import opened PlannerSpec

  lemma {:induction false} BestBelowMeaning(g: Grid, t: Task, used: seq<nat>, mask: seq<bool>, lo: nat, hi: nat,
                                            length: nat, upto: nat, other: nat)
    requires Scorable(g, used) && hi <= |mask| == g.size && length > 0
    requires Legal(mask, lo, hi, length, other) && other < upto
    ensures BestBelow(g, t, used, mask, lo, hi, length, upto).Some?
    ensures var s := BestBelow(g, t, used, mask, lo, hi, length, upto).value;
      other == s || Cheaper((Cost(g, t, used, s, length), s), (Cost(g, t, used, other, length), other))
  {
    if upto - 1 <= other {
    } else {
      BestBelowMeaning(g, t, used, mask, lo, hi, length, upto - 1, other);
    }
  }

  /** Searching all starts yields the unique best one. */
  lemma BestBelowIsBest(g: Grid, t: Task, used: seq<nat>, mask: seq<bool>, lo: nat, hi: nat, length: nat)
    requires Scorable(g, used) && hi <= |mask| == g.size && length > 0
    requires BestBelow(g, t, used, mask, lo, hi, length, g.size).Some?
    ensures Best(g, t, used, mask, lo, hi, length, BestBelow(g, t, used, mask, lo, hi, length, g.size).value)
  {
    forall other: nat | Legal(mask, lo, hi, length, other)
      ensures var s := BestBelow(g, t, used, mask, lo, hi, length, g.size).value;
        other == s || Cheaper((Cost(g, t, used, s, length), s), (Cost(g, t, used, other, length), other))
    {
      BestBelowMeaning(g, t, used, mask, lo, hi, length, g.size, other);
    }
  }

  /** No other start is best. */
  lemma OnlyBest(g: Grid, t: Task, used: seq<nat>, mask: seq<bool>, lo: nat, hi: nat, length: nat, best: nat)
    requires Scorable(g, used) && hi <= |mask| == g.size && length > 0 && Best(g, t, used, mask, lo, hi, length, best)
    ensures forall s: nat :: Best(g, t, used, mask, lo, hi, length, s) <==> s == best
  {
    forall s: nat | Best(g, t, used, mask, lo, hi, length, s) ensures s == best {
      hide Cost;
      assert Legal(mask, lo, hi, length, s) && Legal(mask, lo, hi, length, best);
    }
  }

  lemma {:induction false} CountedWhenLegal(mask: seq<bool>, lo: nat, hi: nat, length: nat, upto: nat, s: nat)
    requires hi <= |mask| && s < upto && Legal(mask, lo, hi, length, s)
    ensures CountLegal(mask, lo, hi, length, upto) >= 1
  {
    if upto - 1 <= s {
    } else {
      CountedWhenLegal(mask, lo, hi, length, upto - 1, s);
    }
  }

  /** A level with room either finds its best start within budget, or exhausts the budget. */
  lemma SearchLevelMeaning(g: Grid, t: Task, used: seq<nat>, mask: seq<bool>, lo: nat, hi: nat, length: nat,
                           budget: int)
    requires Scorable(g, used) && hi <= |mask| == g.size && 1 <= length <= Longest(mask, lo, hi)
    ensures var r := SearchLevel(g, t, used, mask, lo, hi, length, budget);
      && !r.Nothing?
      && (r.Exhausted? <==> budget < CountLegal(mask, lo, hi, length, g.size))
      && (r.Found? ==> Best(g, t, used, mask, lo, hi, length, r.start)
                       && 0 <= r.budget == budget - CountLegal(mask, lo, hi, length, g.size) < budget)
      && (r.Exhausted? ==> r.budget <= 0 && r.budget <= budget && (0 <= budget ==> r.budget == 0))
  {
    var s := ShorterFits(mask, lo, hi, length);
    BestBelowMeaning(g, t, used, mask, lo, hi, length, g.size, s);
    BestBelowIsBest(g, t, used, mask, lo, hi, length);
    CountedWhenLegal(mask, lo, hi, length, g.size, s);
  }

  /** A longer pause only removes free minutes. */
  lemma PauseShrinks(avail: seq<bool>, busy: seq<Interval>, pause: nat)
    ensures Within(FreeMask(avail, busy, pause), FreeMask(avail, busy, 0))
  {
    var a, b := FreeMask(avail, busy, pause), FreeMask(avail, busy, 0);
    forall i | 0 <= i < |a| && a[i] ensures b[i] {
      forall x | x in busy ensures !Near(x, 0, i) { assert !Near(x, pause, i); }
    }
  }

  /** Nothing is reported exactly when even without a pause there is no room:
      no free minute for a splittable task, no long enough run for another. */
  ghost predicate HasRoom(g: Grid, t: Task, remaining: nat, busy: seq<Interval>)
    requires |g.avail| == g.size
  {
    var longest := Longest(FreeMask(g.avail, busy, 0), EarliestIndex(g, t), LatestIndex(g, t));
    if t.splittable then longest > 0 else longest >= remaining
  }

  /** The level the search settles on. */
  ghost function ChosenPause(g: Grid, t: Task, remaining: nat, busy: seq<Interval>): nat
    requires |g.avail| == g.size
  {
    var lo, hi := EarliestIndex(g, t), LatestIndex(g, t);
    if PieceLength(t.splittable, Target(g, t, remaining), Longest(FreeMask(g.avail, busy, g.prefs.pause), lo, hi)) > 0
    then g.prefs.pause else 0
  }

  /** The found slot is the best legal start at the strongest pause level with room. */
  lemma FindSlotMeaning(g: Grid, t: Task, remaining: nat, busy: seq<Interval>, used: seq<nat>, budget: int)
    requires Scorable(g, used) && |g.avail| == g.size && remaining > 0 && ValidPreferences(g.prefs)
    ensures var r := FindSlot(g, t, remaining, busy, used, budget);
      var lo, hi := EarliestIndex(g, t), LatestIndex(g, t);
      var pause := ChosenPause(g, t, remaining, busy);
      var mask := FreeMask(g.avail, busy, pause);
      && (r.Nothing? <==> !HasRoom(g, t, remaining, busy))
      && (r.Nothing? ==> r.budget == budget)
      && (r.Found? ==> r.length == PieceLength(t.splittable, Target(g, t, remaining), Longest(mask, lo, hi)) > 0
                       && (forall s: nat :: Best(g, t, used, mask, lo, hi, r.length, s) <==> s == r.start)
                       && 0 <= r.budget == budget - CountLegal(mask, lo, hi, r.length, g.size) < budget)
      && (r.Exhausted? ==> r.budget <= 0 && r.budget <= budget && (0 <= budget ==> r.budget == 0))
  {
    var lo, hi := EarliestIndex(g, t), LatestIndex(g, t);
    var target := Target(g, t, remaining);
    var paused, tight := FreeMask(g.avail, busy, g.prefs.pause), FreeMask(g.avail, busy, 0);
    PauseShrinks(g.avail, busy, g.prefs.pause);
    LongestMonotone(paused, tight, lo, hi);
    var first := PieceLength(t.splittable, target, Longest(paused, lo, hi));
    var second := PieceLength(t.splittable, target, Longest(tight, lo, hi));
    if first > 0 {
      SearchLevelMeaning(g, t, used, paused, lo, hi, first, budget);
    } else if second > 0 {
      SearchLevelMeaning(g, t, used, tight, lo, hi, second, budget);
    }
    var r := FindSlot(g, t, remaining, busy, used, budget);
    if r.Found? {
      OnlyBest(g, t, used, FreeMask(g.avail, busy, ChosenPause(g, t, remaining, busy)), lo, hi, r.length, r.start);
    }
  }

  /** A legal piece keeps the pause on both sides of every busy interval and is available throughout. */
  lemma PieceKeepsPause(avail: seq<bool>, busy: seq<Interval>, pause: nat, lo: nat, hi: nat, length: nat, s: int,
                        x: Interval)
    requires hi <= |avail| && length > 0 && Legal(FreeMask(avail, busy, pause), lo, hi, length, s)
    requires x in busy && x.lo < x.hi
    ensures s + length + pause <= x.lo || x.hi + pause <= s
  {
    var m := FreeMask(avail, busy, pause);
    forall i | s <= i < s + length ensures !Near(x, pause, i) {
      assert m[i] && !Blocked(busy, pause, i);
    }
    assert !Near(x, pause, Max(s, Min(s + length - 1, x.lo - pause)));
  }
}
