/** When planning starts, with which horizon and tasks in which order, and which refusal comes first:
    said in local midnights, minutes and deadlines. */
module RequestTheorems {
  import opened Wrappers
  import opened PlanningModels
  import opened Sorting
  import opened PlanningGrid
  import opened GridFacts
  import opened InputOrder

  // ----- Horizon -----

  /** From the local midnight of the first date to that of the day after the last: whole minutes, at
      least one and at most eight days of them, and the first midnight lies on its own date. */
  predicate IsHorizon(startDate: int, days: int, zone: Zone, h: Horizon) {
    && zone.midnight(startDate) == h.start * 60 && zone.midnight(startDate + days) == (h.start + h.size) * 60
    && 1 <= h.size <= 11_520
    && zone.localDate(zone.midnight(startDate) * SECOND) == startDate
  }

  lemma HorizonExact(startDate: int, days: int, zone: Zone, now: int, h: Horizon)
    ensures HorizonOf(startDate, days, zone, now) == Success(h) <==>
      zone.localDate(now) <= startDate && IsHorizon(startDate, days, zone, h)
  {
  }

  /** A past date is refused first, then days that do not exist or are too short or too long, then
      midnights between two minutes. */
  lemma HorizonRefused(startDate: int, days: int, zone: Zone, now: int)
    requires HorizonOf(startDate, days, zone, now).Failure?
    ensures var seconds := zone.midnight(startDate + days) - zone.midnight(startDate);
      HorizonOf(startDate, days, zone, now).error ==
        if startDate < zone.localDate(now) then PastPlanningDate
        else if seconds < 60 || 691_260 <= seconds || zone.localDate(zone.midnight(startDate) * SECOND) != startDate
        then InvalidLocalDay
        else UnsupportedTimeBoundary
  {
  }

  // ----- Snapshot, windows and events -----

  /** The snapshot holds exactly the selected tasks, each once. */
  ghost predicate HoldsSelected(tasks: seq<Task>, ids: seq<TaskId>) {
    && (forall i, j :: 0 <= i < j < |tasks| ==> tasks[i].id != tasks[j].id)
    && (forall t :: t in tasks ==> t.id in ids)
    && (forall id :: id in ids ==> exists t :: t in tasks && t.id == id)
  }

  lemma SnapshotExact(tasks: seq<Task>, ids: seq<TaskId>)
    ensures SnapshotMatches(tasks, ids) <==> HoldsSelected(tasks, ids)
  {
    var a, b := (set t | t in tasks :: t.id), (set id | id in ids);
    forall t | t in tasks ensures t.id in a { }
    if a == b {
      forall t | t in tasks ensures t.id in ids { assert t.id in b; }
      forall id | id in ids ensures exists t :: t in tasks && t.id == id { assert id in a; }
    }
    if HoldsSelected(tasks, ids) {
      forall id ensures id in a <==> id in b { }
    }
  }

  predicate AtMinute(e: Event, minute: int) { e.start <= minute < e.end }

  predicate InHorizonMinute(h: Horizon, minute: int) { h.start <= minute < h.start + h.size }

  ghost predicate Visible(h: Horizon, e: Event) { exists m :: InHorizonMinute(h, m) && AtMinute(e, m) }

  ghost predicate Collide(h: Horizon, a: Event, b: Event) {
    exists m :: InHorizonMinute(h, m) && AtMinute(a, m) && AtMinute(b, m)
  }

  /** Every event has a minute in the horizon, and no two have one in common. */
  ghost predicate EventsClear(h: Horizon, events: seq<Event>) {
    && (forall e :: e in events ==> Visible(h, e))
    && (forall i, j :: 0 <= i < j < |events| ==> !Collide(h, events[i], events[j]))
  }

  lemma MeetsExact(h: Horizon, e: Event)
    ensures Meets(e, h.start, h.size) <==> Visible(h, e)
  {
    if Meets(e, h.start, h.size) {
      var m := Max(h.start, e.start);
      assert InHorizonMinute(h, m) && AtMinute(e, m);
    }
  }

  lemma ClashExact(h: Horizon, a: Event, b: Event)
    requires Meets(a, h.start, h.size) && Meets(b, h.start, h.size)
    ensures Clash(a, b, h.start, h.size) <==> Collide(h, a, b)
  {
    if Clash(a, b, h.start, h.size) {
      var m := Max(h.start, Max(a.start, b.start));
      assert InHorizonMinute(h, m) && AtMinute(a, m) && AtMinute(b, m);
    }
  }

  lemma EventsFitExact(h: Horizon, events: seq<Event>)
    ensures EventsFit(events, h.start, h.size) <==> EventsClear(h, events)
  {
    hide Meets, Visible, Clash, Collide;
    forall e ensures Meets(e, h.start, h.size) <==> Visible(h, e) { MeetsExact(h, e); }
    if forall k :: 0 <= k < |events| ==> Meets(events[k], h.start, h.size) {
      forall i, j | 0 <= i < j < |events|
        ensures Clash(events[i], events[j], h.start, h.size) <==> Collide(h, events[i], events[j])
      {
        ClashExact(h, events[i], events[j]);
      }
    }
  }

  /** What a request must satisfy in its horizon. */
  ghost predicate RequestFits(w: PlanningWindow, tasks: seq<Task>, h: Horizon) {
    && HoldsSelected(tasks, w.taskIds)
    && (forall a :: a in w.availability ==> h.start <= a.start && a.end <= h.start + h.size)
    && EventsClear(h, w.events)
  }

  /** A planner is built if and only if the first date is not past, the local days form a horizon, the
      snapshot holds exactly the selected tasks, every window lies inside, every event has a minute
      inside, and no two events share one. */
  lemma RequestExact(w: PlanningWindow, previous: seq<Block>, tasks: seq<Task>, prefs: Preferences, zone: Zone,
                     now: int)
    ensures BuildGrid(w, previous, tasks, prefs, zone, now).Success? <==>
      zone.localDate(now) <= w.startDate
      && exists h :: IsHorizon(w.startDate, w.days, zone, h) && RequestFits(w, tasks, h)
    ensures BuildGrid(w, previous, tasks, prefs, zone, now).Success? ==>
      var g := BuildGrid(w, previous, tasks, prefs, zone, now).value;
      IsHorizon(w.startDate, w.days, zone, Horizon(g.start, g.size))
  {
    hide BuildGrid, HorizonOf, MakeGrid, EventsFit, SnapshotMatches, EventsClear, HoldsSelected, IsHorizon;
    RequestAcceptedExactly(w, previous, tasks, prefs, zone, now);
    SnapshotExact(tasks, w.taskIds);
    var horizon := HorizonOf(w.startDate, w.days, zone, now);
    if horizon.Success? {
      HorizonExact(w.startDate, w.days, zone, now, horizon.value);
      EventsFitExact(horizon.value, w.events);
    }
    if h :| zone.localDate(now) <= w.startDate && IsHorizon(w.startDate, w.days, zone, h) && RequestFits(w, tasks, h) {
      HorizonExact(w.startDate, w.days, zone, now, h);
    }
    if BuildGrid(w, previous, tasks, prefs, zone, now).Success? {
      BuiltStart(w, previous, tasks, prefs, zone, now);
    }
  }

  lemma BuiltStart(w: PlanningWindow, previous: seq<Block>, tasks: seq<Task>, prefs: Preferences, zone: Zone, now: int)
    requires BuildGrid(w, previous, tasks, prefs, zone, now).Success?
    ensures var g := BuildGrid(w, previous, tasks, prefs, zone, now).value;
      HorizonOf(w.startDate, w.days, zone, now) == Success(Horizon(g.start, g.size))
  {
    var h, events := BuiltGridShape(w, previous, tasks, prefs, zone, now);
  }

  /** Refusals in order: the horizon's own, the snapshot, a window outside, and then an event outside or
      two events in conflict, each only when there is one. */
  lemma RequestRefused(w: PlanningWindow, previous: seq<Block>, tasks: seq<Task>, prefs: Preferences, zone: Zone,
                       now: int, h: Horizon)
    requires BuildGrid(w, previous, tasks, prefs, zone, now).Failure?
    requires zone.localDate(now) <= w.startDate && IsHorizon(w.startDate, w.days, zone, h)
    ensures var code := BuildGrid(w, previous, tasks, prefs, zone, now).error;
      if !HoldsSelected(tasks, w.taskIds) then code == TaskSnapshotMismatch
      else if exists a :: a in w.availability && (a.start < h.start || h.start + h.size < a.end)
      then code == AvailabilityOutsideHorizon
      else
        || (code == EventOutsideHorizon && exists e :: e in w.events && !Visible(h, e))
        || (code == FixedEventConflict
            && exists i, j :: 0 <= i < j < |w.events| && Collide(h, w.events[i], w.events[j]))
  {
    hide HorizonOf, MakeGrid, SnapshotMatches, HoldsSelected, IsHorizon, Visible, Collide, ClipEvents;
    HorizonExact(w.startDate, w.days, zone, now, h);
    SnapshotExact(tasks, w.taskIds);
    if SnapshotMatches(tasks, w.taskIds) && forall a :: a in w.availability ==> WindowInside(a, h.start, h.size) {
      EventsRefused(h, w.events);
    }
  }

  /** The check of sorted events names a cause that is there. */
  lemma {:induction false} ClipRefused(h: Horizon, events: seq<Event>)
    requires Sorted(EventOrder(), events) && ClipEvents(events, h.start, h.size).Failure?
    ensures var code := ClipEvents(events, h.start, h.size).error;
      || (code == EventOutsideHorizon && exists e :: e in events && !Visible(h, e))
      || (code == FixedEventConflict && exists i, j :: 0 <= i < j < |events| && Collide(h, events[i], events[j]))
  {
    var init, last := events[..|events| - 1], events[|events| - 1];
    MeetsExact(h, last);
    hide Visible, Collide;
    if ClipEvents(init, h.start, h.size).Failure? {
      ClipRefused(h, init);
      if i, j :| 0 <= i < j < |init| && Collide(h, init[i], init[j]) { assert Collide(h, events[i], events[j]); }
    } else if Meets(last, h.start, h.size) {
      ClippedOK(init, h.start, h.size);
      var n := |init|;
      assert ClipEvents(init, h.start, h.size).value[n - 1] == Clip(init[n - 1], h.start, h.size);
      assert EventOrder()(init[n - 1], last);
      NeighboursCollide(h, init[n - 1], last);
    } else {
      assert last in events;
    }
  }

  /** A later event in the sort order that starts, inside the horizon, before an earlier one ends. */
  lemma NeighboursCollide(h: Horizon, a: Event, b: Event)
    requires Meets(a, h.start, h.size) && Meets(b, h.start, h.size)
    requires Clip(a, h.start, h.size).lo <= Clip(b, h.start, h.size).lo < Clip(a, h.start, h.size).hi
    ensures Collide(h, a, b)
  {
    var m := Max(h.start, b.start);
    assert InHorizonMinute(h, m) && AtMinute(a, m) && AtMinute(b, m);
  }

  lemma EventsRefused(h: Horizon, events: seq<Event>)
    requires ClipEvents(Sort(EventOrder(), events), h.start, h.size).Failure?
    ensures var code := ClipEvents(Sort(EventOrder(), events), h.start, h.size).error;
      || (code == EventOutsideHorizon && exists e :: e in events && !Visible(h, e))
      || (code == FixedEventConflict && exists i, j :: 0 <= i < j < |events| && Collide(h, events[i], events[j]))
  {
    hide *;
    var sorted := Sort(EventOrder(), events);
    EventOrderTotal();
    SortSorts(EventOrder(), events);
    ClipRefused(h, sorted);
    SameMembers(sorted, events);
    if i, j :| 0 <= i < j < |sorted| && Collide(h, sorted[i], sorted[j]) { CollideReordered(h, sorted, events, i, j); }
  }

  lemma CollideReordered(h: Horizon, a: seq<Event>, b: seq<Event>, i: nat, j: nat)
    requires multiset(a) == multiset(b) && i < j < |a| && Collide(h, a[i], a[j])
    ensures exists k, l :: 0 <= k < l < |b| && Collide(h, b[k], b[l])
  {
    SameMembers(a, b);
    assert Collide(h, a[j], a[i]);
    if a[i] == a[j] {
      TwiceCounted(a, i, j);
      TwoPlaces(b, a[i]);
    } else {
      assert a[i] in b && a[j] in b;
      var k :| 0 <= k < |b| && b[k] == a[i];
      var l :| 0 <= l < |b| && b[l] == a[j];
      if k < l { assert Collide(h, b[k], b[l]); } else { assert Collide(h, b[l], b[k]); }
    }
  }
}
