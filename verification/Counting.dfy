/** How many elements a set described by a condition has, against the recursive counts. */
module Counting {
  import opened PlanningModels
  import opened Masks

  function Sum(xs: seq<nat>): nat {
    if xs == [] then 0 else Sum(xs[..|xs| - 1]) + xs[|xs| - 1]
  }

  predicate Inside(lo: int, hi: int, i: int) { lo <= i < hi }

  ghost function Range(lo: int, hi: int): set<int> { set i | lo <= i < hi && Inside(lo, hi, i) }

  lemma {:induction false} RangeSize(lo: int, hi: int)
    ensures |Range(lo, hi)| == Max(0, hi - lo)
    decreases hi - lo
  {
    if hi <= lo {
      assert Range(lo, hi) == {};
    } else {
      RangeSize(lo, hi - 1);
      assert Range(lo, hi) == Range(lo, hi - 1) + {hi - 1};
    }
  }

  ghost function FreeMinutes(mask: seq<bool>, lo: nat, hi: nat): set<int>
    requires hi <= |mask|
  {
    set i | lo <= i < hi && mask[i]
  }

  lemma {:induction false} FreeCountSize(mask: seq<bool>, lo: nat, hi: nat)
    requires hi <= |mask|
    ensures FreeCount(mask, lo, hi) == |FreeMinutes(mask, lo, hi)|
    decreases hi
  {
    if hi <= lo {
      assert FreeMinutes(mask, lo, hi) == {};
    } else {
      FreeCountSize(mask, lo, hi - 1);
      assert FreeMinutes(mask, lo, hi) == FreeMinutes(mask, lo, hi - 1) + if mask[hi - 1] then {hi - 1} else {};
    }
  }

  ghost function LegalStarts(mask: seq<bool>, lo: nat, hi: nat, length: nat, upto: nat): set<int>
    requires hi <= |mask|
  {
    set s | 0 <= s < upto && Legal(mask, lo, hi, length, s)
  }

  lemma {:induction false} CountLegalSize(mask: seq<bool>, lo: nat, hi: nat, length: nat, upto: nat)
    requires hi <= |mask|
    ensures CountLegal(mask, lo, hi, length, upto) == |LegalStarts(mask, lo, hi, length, upto)|
  {
    hide Legal;
    if upto == 0 {
      assert LegalStarts(mask, lo, hi, length, upto) == {};
    } else {
      CountLegalSize(mask, lo, hi, length, upto - 1);
      assert LegalStarts(mask, lo, hi, length, upto) == LegalStarts(mask, lo, hi, length, upto - 1)
        + if Legal(mask, lo, hi, length, upto - 1) then {upto - 1} else {};
    }
  }
}
