/** Boolean minute masks: free runs, their gaps, the longest run, counting, legal starts. */
module Masks {
  import opened PlanningModels

  predicate AllFree(mask: seq<bool>, lo: int, hi: int)
    requires 0 <= lo && hi <= |mask|
  {
    forall i :: lo <= i < hi ==> mask[i]
  }

  /** Free minutes in `[lo, hi)`. */
  function FreeCount(mask: seq<bool>, lo: nat, hi: nat): nat
    requires hi <= |mask|
    decreases hi
  {
    if hi <= lo then 0 else FreeCount(mask, lo, hi - 1) + if mask[hi - 1] then 1 else 0
  }

  /** Length of the free run of `[lo, hi)` that ends at `hi`. */
  function RunEnding(mask: seq<bool>, lo: nat, hi: nat): nat
    requires hi <= |mask|
    decreases hi
  {
    if hi <= lo || !mask[hi - 1] then 0 else 1 + RunEnding(mask, lo, hi - 1)
  }

  /** Length of the longest free run inside `[lo, hi)`. */
  function Longest(mask: seq<bool>, lo: nat, hi: nat): nat
    requires hi <= |mask|
    decreases hi
  {
    if hi <= lo then 0 else
      var before, here := Longest(mask, lo, hi - 1), RunEnding(mask, lo, hi);
      if here > before then here else before
  }

  /** `s` is a start at which a piece of `length` minutes fits inside `[lo, hi)`. */
  predicate Legal(mask: seq<bool>, lo: nat, hi: nat, length: nat, s: int)
    requires hi <= |mask|
  {
    lo <= s && s + length <= hi && AllFree(mask, s, s + length)
  }

  function CountLegal(mask: seq<bool>, lo: nat, hi: nat, length: nat, upto: nat): nat
    requires hi <= |mask|
  {
    if upto == 0 then 0
    else CountLegal(mask, lo, hi, length, upto - 1) + if Legal(mask, lo, hi, length, upto - 1) then 1 else 0
  }

  /** The maximal free runs of `[lo, hi)`, in order. */
  ghost predicate AreGaps(mask: seq<bool>, lo: nat, hi: nat, gaps: seq<Interval>)
    requires hi <= |mask|
  {
    && (forall k :: 0 <= k < |gaps| ==> lo <= gaps[k].lo < gaps[k].hi <= hi && AllFree(mask, gaps[k].lo, gaps[k].hi))
    && (forall k, l :: 0 <= k < l < |gaps| ==> gaps[k].hi < gaps[l].lo)
    && (forall i :: lo <= i < hi && mask[i] ==> InGaps(gaps, i))
  }

  ghost predicate InGaps(gaps: seq<Interval>, i: int) {
    exists k :: 0 <= k < |gaps| && gaps[k].lo <= i < gaps[k].hi
  }

  // ----- What the recursive measures mean -----

  lemma {:induction false} RunEndingMeaning(mask: seq<bool>, lo: nat, hi: nat)
    requires lo <= hi <= |mask|
    ensures lo <= hi - RunEnding(mask, lo, hi)
    ensures AllFree(mask, hi - RunEnding(mask, lo, hi), hi)
    ensures forall s :: lo <= s <= hi && AllFree(mask, s, hi) ==> hi - s <= RunEnding(mask, lo, hi)
    decreases hi
  {
    if hi <= lo || !mask[hi - 1] {
    } else {
      RunEndingMeaning(mask, lo, hi - 1);
      forall s | lo <= s <= hi && AllFree(mask, s, hi) ensures hi - s <= RunEnding(mask, lo, hi) {
        if s < hi { assert AllFree(mask, s, hi - 1); }
      }
    }
  }

  /** `Longest` is the greatest length that has a legal start. */
  lemma {:induction false} LongestFits(mask: seq<bool>, lo: nat, hi: nat) returns (s: nat)
    requires hi <= |mask| && Longest(mask, lo, hi) > 0
    ensures Legal(mask, lo, hi, Longest(mask, lo, hi), s)
    decreases hi
  {
    RunEndingMeaning(mask, lo, hi);
    if RunEnding(mask, lo, hi) > Longest(mask, lo, hi - 1) {
      s := hi - RunEnding(mask, lo, hi);
    } else {
      s := LongestFits(mask, lo, hi - 1);
    }
  }

  lemma {:induction false} NothingLonger(mask: seq<bool>, lo: nat, hi: nat, length: nat, s: int)
    requires hi <= |mask| && Legal(mask, lo, hi, length, s)
    ensures length <= Longest(mask, lo, hi)
    decreases hi
  {
    if length == 0 {
    } else {
      RunEndingMeaning(mask, lo, hi);
      if s + length == hi {
        assert AllFree(mask, s, hi);
      } else {
        NothingLonger(mask, lo, hi - 1, length, s);
      }
    }
  }

  /** A length between 1 and the longest run always has a legal start. */
  lemma ShorterFits(mask: seq<bool>, lo: nat, hi: nat, length: nat) returns (s: nat)
    requires hi <= |mask| && 1 <= length <= Longest(mask, lo, hi)
    ensures Legal(mask, lo, hi, length, s)
  {
    s := LongestFits(mask, lo, hi);
  }

  // ----- Gaps -----

  /** The minute after a gap is taken, unless the range ends there. */
  lemma GapEnds(mask: seq<bool>, lo: nat, hi: nat, gaps: seq<Interval>, k: nat)
    requires hi <= |mask| && AreGaps(mask, lo, hi, gaps) && k < |gaps| && gaps[k].hi < hi
    ensures !mask[gaps[k].hi]
  {
    forall l | 0 <= l < |gaps| ensures !(gaps[l].lo <= gaps[k].hi < gaps[l].hi) {
      if l < k { assert gaps[l].hi < gaps[k].lo; }
      if k < l { assert gaps[k].hi < gaps[l].lo; }
    }
    assert !InGaps(gaps, gaps[k].hi);
  }

  lemma LegalInsideGap(mask: seq<bool>, lo: nat, hi: nat, gaps: seq<Interval>, length: nat, s: int) returns (k: nat)
    requires hi <= |mask| && AreGaps(mask, lo, hi, gaps) && length > 0 && Legal(mask, lo, hi, length, s)
    ensures k < |gaps| && gaps[k].lo <= s && s + length <= gaps[k].hi
  {
    assert mask[s] && InGaps(gaps, s);
    k :| 0 <= k < |gaps| && gaps[k].lo <= s < gaps[k].hi;
    if gaps[k].hi < hi { GapEnds(mask, lo, hi, gaps, k); }
  }

  lemma InsideGapLegal(mask: seq<bool>, lo: nat, hi: nat, gaps: seq<Interval>, length: nat, k: nat, s: int)
    requires hi <= |mask| && AreGaps(mask, lo, hi, gaps) && k < |gaps|
    requires gaps[k].lo <= s && s + length <= gaps[k].hi
    ensures Legal(mask, lo, hi, length, s)
  {
  }

  /** The longest gap is the longest free run. */
  lemma LongestGap(mask: seq<bool>, lo: nat, hi: nat, gaps: seq<Interval>, longest: nat)
    requires hi <= |mask| && AreGaps(mask, lo, hi, gaps)
    requires forall k :: 0 <= k < |gaps| ==> gaps[k].hi - gaps[k].lo <= longest
    requires longest == 0 || exists k :: 0 <= k < |gaps| && gaps[k].hi - gaps[k].lo == longest
    ensures longest == Longest(mask, lo, hi)
  {
    if longest > 0 {
      var k :| 0 <= k < |gaps| && gaps[k].hi - gaps[k].lo == longest;
      InsideGapLegal(mask, lo, hi, gaps, longest, k, gaps[k].lo);
      NothingLonger(mask, lo, hi, longest, gaps[k].lo);
    }
    if Longest(mask, lo, hi) > 0 {
      var s := LongestFits(mask, lo, hi);
      var k := LegalInsideGap(mask, lo, hi, gaps, Longest(mask, lo, hi), s);
    }
  }

  // ----- Counting legal starts -----

  lemma LegalFits(mask: seq<bool>, lo: nat, hi: nat, length: nat, s: int)
    requires hi <= |mask| && Legal(mask, lo, hi, length, s)
    ensures 0 <= s && s + length <= |mask|
  {
  }

  lemma {:induction false} NoLegalBetween(mask: seq<bool>, lo: nat, hi: nat, length: nat, a: nat, b: nat)
    requires hi <= |mask| && a <= b
    requires forall s :: a <= s < b ==> !Legal(mask, lo, hi, length, s)
    ensures CountLegal(mask, lo, hi, length, a) == CountLegal(mask, lo, hi, length, b)
    decreases b
  {
    if b <= a {
    } else {
      NoLegalBetween(mask, lo, hi, length, a, b - 1);
    }
  }

  lemma {:induction false} CountLegalMonotone(mask: seq<bool>, lo: nat, hi: nat, length: nat, a: nat, b: nat)
    requires hi <= |mask| && a <= b
    ensures CountLegal(mask, lo, hi, length, a) <= CountLegal(mask, lo, hi, length, b)
    decreases b
  {
    if b <= a {
    } else {
      CountLegalMonotone(mask, lo, hi, length, a, b - 1);
    }
  }

  // ----- Comparing masks -----

  ghost predicate Within(smaller: seq<bool>, larger: seq<bool>) {
    |smaller| == |larger| && forall i :: 0 <= i < |smaller| && smaller[i] ==> larger[i]
  }

  lemma {:induction false} FreeCountMonotone(a: seq<bool>, b: seq<bool>, lo: nat, hi: nat)
    requires Within(a, b) && hi <= |a|
    ensures FreeCount(a, lo, hi) <= FreeCount(b, lo, hi)
    decreases hi
  {
    if hi <= lo {
    } else {
      FreeCountMonotone(a, b, lo, hi - 1);
    }
  }

  lemma LongestMonotone(a: seq<bool>, b: seq<bool>, lo: nat, hi: nat)
    requires Within(a, b) && hi <= |a|
    ensures Longest(a, lo, hi) <= Longest(b, lo, hi)
  {
    if Longest(a, lo, hi) > 0 {
      var s := LongestFits(a, lo, hi);
      NothingLonger(b, lo, hi, Longest(a, lo, hi), s);
    }
  }

  /** Clearing `[s, e)` from a mask in which it was free costs exactly its minutes inside the range. */
  lemma {:induction false} FreeCountCleared(a: seq<bool>, b: seq<bool>, s: int, e: int, lo: nat, hi: nat)
    requires |a| == |b| && hi <= |a| && lo <= s <= e
    requires forall i :: lo <= i < hi ==> b[i] == (a[i] && !(s <= i < e))
    requires forall i :: s <= i < e && i < hi ==> a[i]
    ensures FreeCount(b, lo, hi) == FreeCount(a, lo, hi) - Max(0, Min(e, hi) - Min(s, hi))
    decreases hi
  {
    if hi <= lo {
    } else {
      FreeCountCleared(a, b, s, e, lo, hi - 1);
    }
  }

  lemma {:induction false} NoRunNoCount(mask: seq<bool>, lo: nat, hi: nat)
    requires hi <= |mask|
    ensures Longest(mask, lo, hi) == 0 <==> FreeCount(mask, lo, hi) == 0
    decreases hi
  {
    if hi <= lo {
    } else {
      NoRunNoCount(mask, lo, hi - 1);
    }
  }
}
