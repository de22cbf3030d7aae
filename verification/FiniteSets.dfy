/** Cardinalities and least elements of finite sets. */
module FiniteSets {
  lemma Member<T>(s: set<T>) returns (x: T)
    requires s != {}
    ensures x in s
  {
    x :| x in s;
  }

  lemma {:induction false} SubsetCard<T>(a: set<T>, b: set<T>)
    requires a <= b
    ensures |a| <= |b|
    decreases |a|
  {
    if a == {} {
    } else {
      var x := Member(a);
      SubsetCard(a - {x}, b - {x});
    }
  }

  lemma {:induction false} Lowest(s: set<int>) returns (low: int)
    requires s != {}
    ensures low in s && forall k :: k in s ==> low <= k
    decreases |s|
  {
    low := Member(s);
    if s - {low} != {} {
      var y := Lowest(s - {low});
      forall k | k in s ensures (if low <= y then low else y) <= k {
        if k != low { assert k in s - {low}; }
      }
      if y < low { low := y; }
    } else {
      assert forall k :: k in s && k != low ==> k in s - {low};
    }
  }
}
