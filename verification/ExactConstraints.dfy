/** The grid's rounded minute constraints are equivalent to the exact ones on the clock. */
module ExactConstraints {
  import opened Wrappers
  import opened PlanningModels
  import opened Sorting
  import opened Masks
  import opened PlanningGrid
  import opened GridFacts
  import opened PlannerSpec
  import opened LockPhase

  predicate DeclaredMinute(windows: seq<Window>, m: int) {
    exists a :: a in windows && a.start <= m < a.end
  }

  /** The hard constraints of one block in wall-clock terms: horizon, declared availability,
      fixed events, and the task's exact earliest start and deadline. */
  ghost predicate Respects(w: PlanningWindow, start: int, end: int, t: Task, b: Block) {
    && start <= b.start < b.end <= end
    && (forall m :: b.start <= m < b.end ==> DeclaredMinute(w.availability, m))
    && (forall e :: e in w.events ==> e.end <= b.start || b.end <= e.start)
    && (t.earliest.Some? ==> t.earliest.value <= b.start * MINUTE)
    && (t.deadline.Some? ==> b.end * MINUTE <= t.deadline.value)
  }

  /** Rounding up loses no start and admits none too early; rounding down likewise for ends. */
  lemma CeilExact(t: int, start: int, lo: int)
    ensures CeilMinutes(t - start * MINUTE) <= lo <==> t <= (start + lo) * MINUTE
  {
  }

  lemma FloorExact(t: int, start: int, hi: int)
    ensures hi <= FloorMinutes(t - start * MINUTE) <==> (start + hi) * MINUTE <= t
  {
  }

  lemma BoundsExact(g: Grid, t: Task, lo: int, hi: int)
    requires 0 <= lo < hi <= g.size
    ensures EarliestIndex(g, t) <= lo
            <==> g.floor <= lo && (t.earliest.Some? ==> t.earliest.value <= (g.start + lo) * MINUTE)
    ensures hi <= LatestIndex(g, t) <==> (t.deadline.Some? ==> (g.start + hi) * MINUTE <= t.deadline.value)
  {
    if t.earliest.Some? { CeilExact(t.earliest.value, g.start, lo); }
    if t.deadline.Some? { FloorExact(t.deadline.value, g.start, hi); }
  }

  lemma FloorIndexExact(start: int, size: nat, now: int, lo: int)
    requires 0 <= lo < size
    ensures FloorIndex(start, size, now) <= lo <==> now <= (start + lo) * MINUTE
  {
    CeilExact(now, start, lo);
  }

  ghost predicate ClippedFrom(clipped: seq<Interval>, events: seq<Event>, start: int, size: nat) {
    && (forall e :: e in events ==>
        Clip(e, start, size) in clipped && Clip(e, start, size).lo < Clip(e, start, size).hi)
    && (forall x :: x in clipped ==> exists e :: e in events && x == Clip(e, start, size))
  }

  lemma ClipEventsFrom(events: seq<Event>, start: int, size: nat)
    requires ClipEvents(Sort(EventOrder(), events), start, size).Success?
    ensures ClippedFrom(ClipEvents(Sort(EventOrder(), events), start, size).value, events, start, size)
  {
    var sorted := Sort(EventOrder(), events);
    var clipped := ClipEvents(sorted, start, size).value;
    ClippedOK(sorted, start, size);
    SameMembers(sorted, events);
    forall e | e in events
      ensures Clip(e, start, size) in clipped && Clip(e, start, size).lo < Clip(e, start, size).hi
    {
      assert e in sorted;
      var k :| 0 <= k < |sorted| && sorted[k] == e;
      assert clipped[k] == Clip(e, start, size);
    }
    forall x | x in clipped ensures exists e :: e in events && x == Clip(e, start, size) {
      var k :| 0 <= k < |clipped| && clipped[k] == x;
      assert sorted[k] in events && x == Clip(sorted[k], start, size);
    }
  }

  /** Minutes of `[lo, hi)` miss every clipped event exactly when the block misses every event. */
  lemma EventsMissed(clipped: seq<Interval>, events: seq<Event>, start: int, size: nat, lo: int, hi: int)
    requires ClippedFrom(clipped, events, start, size) && 0 <= lo < hi <= size
    ensures (forall i :: lo <= i < hi ==> !Covered(clipped, i))
            <==> (forall e :: e in events ==> e.end <= start + lo || start + hi <= e.start)
  {
    if forall i :: lo <= i < hi ==> !Covered(clipped, i) {
      forall e | e in events ensures e.end <= start + lo || start + hi <= e.start {
        var x := Clip(e, start, size);
        var i := Max(lo, Min(hi - 1, x.lo));
        assert !Covered(clipped, i) && !Covered(clipped, lo);
        assert !InInterval(x, i) && !InInterval(x, lo);
      }
    }
    if forall e :: e in events ==> e.end <= start + lo || start + hi <= e.start {
      forall i, x | lo <= i < hi && x in clipped ensures !InInterval(x, i) {
        var e :| e in events && x == Clip(e, start, size);
      }
    }
  }

  lemma AvailExact(w: PlanningWindow, clipped: seq<Interval>, start: int, size: nat, floor: nat, lo: int, hi: int)
    requires ClippedFrom(clipped, w.events, start, size) && 0 <= lo < hi <= size
    ensures AllFree(AvailableMask(w.availability, clipped, start, size, floor), lo, hi) <==>
      && floor <= lo
      && (forall m :: start + lo <= m < start + hi ==> DeclaredMinute(w.availability, m))
      && (forall e :: e in w.events ==> e.end <= start + lo || start + hi <= e.start)
  {
    var mask := AvailableMask(w.availability, clipped, start, size, floor);
    EventsMissed(clipped, w.events, start, size, lo, hi);
    forall i | lo <= i < hi ensures Declared(w.availability, start, i) <==> DeclaredMinute(w.availability, start + i) {
      if a :| a in w.availability && a.start - start <= i < a.end - start { assert a.start <= start + i < a.end; }
      if a :| a in w.availability && a.start <= start + i < a.end { assert a.start - start <= i < a.end - start; }
    }
    if AllFree(mask, lo, hi) {
      assert mask[lo];
      forall i | lo <= i < hi ensures !Covered(clipped, i) { assert mask[i]; }
      forall m | start + lo <= m < start + hi ensures DeclaredMinute(w.availability, m) {
        assert mask[m - start];
      }
    }
    if floor <= lo && (forall m :: start + lo <= m < start + hi ==> DeclaredMinute(w.availability, m))
       && (forall i :: lo <= i < hi ==> !Covered(clipped, i)) {
      forall i | lo <= i < hi ensures mask[i] {
        assert DeclaredMinute(w.availability, start + i);
      }
    }
  }

  /** On a built grid, meeting the minute constraints is the same as meeting the exact ones
      and not starting before the clock. */
  lemma HardExact(h: Horizon, w: PlanningWindow, previous: seq<Block>, tasks: seq<Task>, prefs: Preferences, zone: Zone,
                  now: int, events: seq<Interval>, b: Block)
    requires ClipEvents(Sort(EventOrder(), w.events), h.start, h.size) == Success(events)
    ensures var g := MakeGrid(h, w, previous, tasks, prefs, zone, now, events);
      Hard(g, b) <==> b.task in g.pending
                      && Respects(w, h.start, h.start + h.size, g.pending[b.task], b)
                      && now <= b.start * MINUTE
  {
    var g := MakeGrid(h, w, previous, tasks, prefs, zone, now, events);
    var lo, hi := b.start - h.start, b.end - h.start;
    ClipEventsFrom(w.events, h.start, h.size);
    if b.task in g.pending && 0 <= lo < hi <= h.size {
      BoundsExact(g, g.pending[b.task], lo, hi);
      FloorIndexExact(h.start, h.size, now, lo);
      AvailExact(w, events, h.start, h.size, g.floor, lo, hi);
    }
  }
}
