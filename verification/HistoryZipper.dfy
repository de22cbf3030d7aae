/** The revision table with its cursor refines a bounded undo zipper. */
module HistoryZipper {
  import opened Wrappers
  import opened ScheduleModels
  import opened ScheduleSteps
  import opened ScheduleCommits
  import opened ScheduleInvariants

  /** States behind the cursor (oldest first), the current one, and those ahead (nearest first). */
  datatype Zipper = Zipper(past: seq<SavedState>, present: SavedState, future: seq<SavedState>)

  function LastOf(s: seq<SavedState>, n: nat): seq<SavedState> {
    if |s| <= n then s else s[|s| - n..]
  }

  /** A new state drops the future and keeps at most `HISTORY_LIMIT` states in all. */
  function Push(z: Zipper, state: SavedState): Zipper {
    Zipper(LastOf(z.past + [z.present], HISTORY_LIMIT - 1), state, [])
  }

  function Back(z: Zipper): Zipper
    requires z.past != []
  {
    Zipper(z.past[..|z.past| - 1], z.past[|z.past| - 1], [z.present] + z.future)
  }

  function Forth(z: Zipper): Zipper
    requires z.future != []
  {
    Zipper(z.past + [z.present], z.future[0], z.future[1..])
  }

  /** States of the revisions numbered in `[lo, hi)`, ascending, skipping gaps. */
  function Span(revisions: map<int, SavedState>, lo: int, hi: int): seq<SavedState>
    decreases hi - lo
  {
    if hi <= lo then [] else Span(revisions, lo, hi - 1) + if hi - 1 in revisions then [revisions[hi - 1]] else []
  }

  function ZipperOf(s: Schedule): Zipper
    requires s.current in s.revisions
  {
    Zipper(Span(s.revisions, 1, s.current), CurrentState(s), Span(s.revisions, s.current + 1, s.version + 1))
  }

  // ----- Spans -----

  lemma {:induction false} SpanSplit(revisions: map<int, SavedState>, lo: int, mid: int, hi: int)
    requires lo <= mid <= hi
    ensures Span(revisions, lo, hi) == Span(revisions, lo, mid) + Span(revisions, mid, hi)
    decreases hi - mid
  {
    if hi <= mid {
    } else {
      SpanSplit(revisions, lo, mid, hi - 1);
    }
  }

  lemma SpanFirst(revisions: map<int, SavedState>, lo: int, hi: int)
    requires lo < hi
    ensures Span(revisions, lo, hi) == (if lo in revisions then [revisions[lo]] else []) + Span(revisions, lo + 1, hi)
  {
    SpanSplit(revisions, lo, lo + 1, hi);
    assert Span(revisions, lo, lo) == [];
  }

  lemma {:induction false} SpanEmpty(revisions: map<int, SavedState>, lo: int, hi: int)
    requires forall r :: lo <= r < hi ==> r !in revisions
    ensures Span(revisions, lo, hi) == []
    decreases hi - lo
  {
    if hi <= lo {
    } else {
      SpanEmpty(revisions, lo, hi - 1);
    }
  }

  lemma {:induction false} SpanSame(a: map<int, SavedState>, b: map<int, SavedState>, lo: int, hi: int)
    requires forall r :: lo <= r < hi ==> (r in a <==> r in b) && (r in a ==> a[r] == b[r])
    ensures Span(a, lo, hi) == Span(b, lo, hi)
    decreases hi - lo
  {
    if hi <= lo {
    } else {
      SpanSame(a, b, lo, hi - 1);
    }
  }

  /** A span is as long as the set of its revision numbers is large. */
  lemma {:induction false} SpanLength(revisions: map<int, SavedState>, r: int, hi: int)
    requires r < hi && forall k :: k in revisions ==> k < hi
    ensures |Span(revisions, r + 1, hi)| == |Newer(revisions, r)|
    decreases hi - r
  {
    if r + 1 == hi {
      assert Newer(revisions, r) == {};
    } else {
      SpanLength(revisions, r + 1, hi);
      SpanFirst(revisions, r + 1, hi);
      var rest := Newer(revisions, r + 1);
      assert Newer(revisions, r) == if r + 1 in revisions then rest + {r + 1} else rest;
    }
  }

  // ----- Targets -----

  lemma {:induction false} SeekDownNearest(revisions: map<int, SavedState>, r: int)
    requires forall k :: k in revisions ==> 1 <= k
    ensures SeekDown(revisions, r).Some? ==>
      SeekDown(revisions, r).value <= r && forall k :: k in revisions && k <= r ==> k <= SeekDown(revisions, r).value
    ensures SeekDown(revisions, r).None? ==> forall k :: k in revisions ==> r < k
    decreases r
  {
    if r < 1 || r in revisions {
    } else {
      SeekDownNearest(revisions, r - 1);
    }
  }

  lemma {:induction false} SeekUpNearest(revisions: map<int, SavedState>, r: int, last: int)
    requires forall k :: k in revisions ==> k <= last
    ensures SeekUp(revisions, r, last).Some? ==>
      && r <= SeekUp(revisions, r, last).value
      && forall k :: k in revisions && r <= k ==> SeekUp(revisions, r, last).value <= k
    ensures SeekUp(revisions, r, last).None? ==> forall k :: k in revisions ==> k < r
    decreases last - r
  {
    if last < r || r in revisions {
    } else {
      SeekUpNearest(revisions, r + 1, last);
    }
  }

  /** Undo and redo look for the nearest existing revision, gaps or not, and find it if there is one. */
  lemma TargetIsNearest(s: Schedule, direction: Direction, r: int)
    requires Numbered(s)
    ensures Target(s, direction) == Some(r) <==> IsTarget(s, direction, r)
  {
    SeekDownNearest(s.revisions, s.current - 1);
    SeekUpNearest(s.revisions, s.current + 1, s.version);
  }

  /** A view offers undo and redo exactly when they have a revision to go to. */
  lemma ViewOffersTravel(db: Db, id: ScheduleId)
    requires Found(db, id) && Numbered(db.schedules[id])
    ensures ViewOf(db, id).canUndo <==> Target(db.schedules[id], Undo).Some?
    ensures ViewOf(db, id).canRedo <==> Target(db.schedules[id], Redo).Some?
  {
    var s := db.schedules[id];
    SeekDownNearest(s.revisions, s.current - 1);
    SeekUpNearest(s.revisions, s.current + 1, s.version);
  }

  // ----- Undo and redo -----

  function Moved(s: Schedule, r: int): Schedule { s.(version := s.version + 1, current := r) }

  /** Undo is one step back in the zipper, and is refused exactly when there is no past. */
  lemma UndoRefines(s: Schedule)
    requires Numbered(s)
    ensures Target(s, Undo).None? <==> ZipperOf(s).past == []
    ensures Target(s, Undo).Some? ==> ZipperOf(Moved(s, Target(s, Undo).value)) == Back(ZipperOf(s))
  {
    SeekDownNearest(s.revisions, s.current - 1);
    if Target(s, Undo).Some? {
      UndoSpans(s, Target(s, Undo).value);
    } else {
      SpanEmpty(s.revisions, 1, s.current);
    }
  }

  lemma UndoSpans(s: Schedule, r: int)
    requires Numbered(s) && r in s.revisions && r < s.current
    requires forall k :: k in s.revisions && k < s.current ==> k <= r
    ensures Span(s.revisions, 1, s.current) == Span(s.revisions, 1, r) + [s.revisions[r]]
    ensures Span(s.revisions, r + 1, s.version + 2)
            == [CurrentState(s)] + Span(s.revisions, s.current + 1, s.version + 1)
  {
    UndoPast(s, r);
    UndoFuture(s, r);
  }

  lemma UndoPast(s: Schedule, r: int)
    requires Numbered(s) && r in s.revisions && r < s.current
    requires forall k :: k in s.revisions && k < s.current ==> k <= r
    ensures Span(s.revisions, 1, s.current) == Span(s.revisions, 1, r) + [s.revisions[r]]
  {
    SpanSplit(s.revisions, 1, r, s.current);
    SpanFirst(s.revisions, r, s.current);
    SpanEmpty(s.revisions, r + 1, s.current);
  }

  lemma UndoFuture(s: Schedule, r: int)
    requires Numbered(s) && r in s.revisions && r < s.current
    requires forall k :: k in s.revisions && k < s.current ==> k <= r
    ensures Span(s.revisions, r + 1, s.version + 2)
            == [CurrentState(s)] + Span(s.revisions, s.current + 1, s.version + 1)
  {
    var m := s.revisions;
    assert s.version + 1 !in m;
    assert Span(m, s.current + 1, s.version + 2) == Span(m, s.current + 1, s.version + 1);
    SpanEmpty(m, r + 1, s.current);
    hide Span;
    SpanSplit(m, r + 1, s.current, s.version + 2);
    SpanFirst(m, s.current, s.version + 2);
    assert Span(m, r + 1, s.version + 2) == Span(m, s.current, s.version + 2);
  }

  /** Redo is one step forth in the zipper, and is refused exactly when there is no future. */
  lemma RedoRefines(s: Schedule)
    requires Numbered(s)
    ensures Target(s, Redo).None? <==> ZipperOf(s).future == []
    ensures Target(s, Redo).Some? ==> ZipperOf(Moved(s, Target(s, Redo).value)) == Forth(ZipperOf(s))
  {
    SeekUpNearest(s.revisions, s.current + 1, s.version);
    if Target(s, Redo).Some? {
      RedoSpans(s, Target(s, Redo).value);
    } else {
      SpanEmpty(s.revisions, s.current + 1, s.version + 1);
    }
  }

  lemma RedoSpans(s: Schedule, r: int)
    requires Numbered(s) && r in s.revisions && r > s.current
    requires forall k :: k in s.revisions && k > s.current ==> r <= k
    ensures Span(s.revisions, 1, r) == Span(s.revisions, 1, s.current) + [CurrentState(s)]
    ensures Span(s.revisions, s.current + 1, s.version + 1)
            == [s.revisions[r]] + Span(s.revisions, r + 1, s.version + 2)
  {
    var m := s.revisions;
    SpanSplit(m, 1, s.current, r);
    SpanFirst(m, s.current, r);
    SpanEmpty(m, s.current + 1, r);
    SpanSplit(m, s.current + 1, r, s.version + 1);
    SpanFirst(m, r, s.version + 1);
    assert s.version + 1 !in m;
    SpanSplit(m, r + 1, s.version + 1, s.version + 2);
  }

  /** An undo followed by a redo restores revision, state and history, two versions later. */
  lemma UndoThenRedo(s: Schedule)
    requires Numbered(s) && Target(s, Undo).Some?
    ensures var back := Moved(s, Target(s, Undo).value);
      Target(back, Redo) == Some(s.current) && Moved(back, s.current) == s.(version := s.version + 2)
  {
    var r := Target(s, Undo).value;
    SeekDownNearest(s.revisions, s.current - 1);
    var back := Moved(s, r);
    SeekUpNearest(back.revisions, r + 1, back.version);
  }

  // ----- Replace -----

  lemma TrimmedWhen(revisions: map<int, SavedState>, hi: int, r: int)
    requires r in revisions && forall k :: k in revisions ==> k < hi
    ensures r in Trimmed(revisions) <==> |Span(revisions, r + 1, hi)| < HISTORY_LIMIT
  {
    SpanLength(revisions, r, hi);
  }

  /** The least number from which at most `HISTORY_LIMIT` revisions remain. */
  lemma {:induction false} Cut(revisions: map<int, SavedState>, lo: int, hi: int) returns (cut: int)
    requires lo <= hi
    ensures lo <= cut <= hi && |Span(revisions, cut, hi)| <= HISTORY_LIMIT
    ensures lo < cut ==> cut - 1 in revisions && |Span(revisions, cut, hi)| == HISTORY_LIMIT
    decreases hi - lo
  {
    if |Span(revisions, lo, hi)| <= HISTORY_LIMIT {
      cut := lo;
    } else {
      SpanFirst(revisions, lo, hi);
      if |Span(revisions, lo + 1, hi)| <= HISTORY_LIMIT {
        cut := lo + 1;
      } else {
        cut := Cut(revisions, lo + 1, hi);
      }
    }
  }

  /** Trimming keeps exactly the last 20 states. */
  lemma TrimIsLast(revisions: map<int, SavedState>, hi: int)
    requires 1 <= hi && forall k :: k in revisions ==> 1 <= k < hi
    ensures Span(Trimmed(revisions), 1, hi) == LastOf(Span(revisions, 1, hi), 20)
  {
    var cut := Cut(revisions, 1, hi);
    var kept := Trimmed(revisions);
    forall r | cut <= r < hi ensures r in kept <==> r in revisions {
      if r in revisions {
        TrimmedWhen(revisions, hi, r);
        SpanSplit(revisions, cut, r, hi);
        SpanFirst(revisions, r, hi);
      }
    }
    SpanSame(kept, revisions, cut, hi);
    forall r | 1 <= r < cut ensures r !in kept {
      if r in revisions {
        TrimmedWhen(revisions, hi, r);
        SpanSplit(revisions, r + 1, cut, hi);
      }
    }
    SpanEmpty(kept, 1, cut);
    SpanSplit(kept, 1, cut, hi);
    SpanSplit(revisions, 1, cut, hi);
    if cut > 1 { assert |Span(revisions, cut, hi)| == HISTORY_LIMIT; }
    else { assert Span(revisions, 1, cut) == []; }
  }

  lemma LastOfAppend(s: seq<SavedState>, x: SavedState, n: nat)
    requires n > 0
    ensures LastOf(s + [x], n) == LastOf(s, n - 1) + [x]
  {
  }

  lemma SameInit(a: seq<SavedState>, b: seq<SavedState>, x: SavedState)
    requires a + [x] == b + [x]
    ensures a == b
  {
    assert a == (a + [x])[..|a|] && b == (b + [x])[..|b|];
    assert |a + [x]| == |b + [x]|;
  }

  /** Replacing pushes onto the zipper: the future is dropped and the oldest state beyond the limit goes. */
  lemma ReplaceRefines(s: Schedule, state: SavedState)
    requires Numbered(s)
    ensures Replaced(s, state).current in Replaced(s, state).revisions
    ensures ZipperOf(Replaced(s, state)) == Push(ZipperOf(s), state)
    ensures s.version + 1 !in s.revisions
  {
    var next := s.version + 1;
    var all := UpTo(s.revisions, s.current)[next := state];
    CurrentAfterTrim(s, state);
    TrimIsLast(all, next + 1);
    SpanSame(all, s.revisions, 1, s.current + 1);
    SpanEmpty(all, s.current + 1, next);
    SpanSplit(all, 1, s.current + 1, next);
    var before := Span(s.revisions, 1, s.current) + [CurrentState(s)];
    assert Span(all, 1, next) == before;
    LastOfAppend(before, state, HISTORY_LIMIT);
    var kept := Trimmed(all);
    assert Span(kept, 1, next + 1) == Span(kept, 1, next) + [state];
    SameInit(Span(kept, 1, next), LastOf(before, HISTORY_LIMIT - 1), state);
  }

  /** A schedule never shows more than 20 states, and exactly one of them is current. */
  lemma ZipperBounded(s: Schedule)
    requires Numbered(s)
    ensures |ZipperOf(s).past| + 1 + |ZipperOf(s).future| == |s.revisions| <= 20
  {
    var m := s.revisions;
    SpanLength(m, 0, s.version + 1);
    SpanSplit(m, 1, s.current, s.version + 1);
    SpanFirst(m, s.current, s.version + 1);
    assert Newer(m, 0) == m.Keys;
  }

  // ----- Commands -----

  /** What a committed command does to its schedule's zipper. */
  ghost predicate ZipperStep(command: Command, was: Schedule, s: Schedule)
    requires Numbered(was) && Numbered(s)
  {
    match command
    case Create(_) => false
    case Replace(_, d, _) => ZipperOf(s) == Push(ZipperOf(was), CurrentState(s)) && CurrentState(s).draft == d
    case Travel(_, Undo, _) => ZipperOf(was).past != [] && ZipperOf(s) == Back(ZipperOf(was))
    case Travel(_, Redo, _) => ZipperOf(was).future != [] && ZipperOf(s) == Forth(ZipperOf(was))
  }

  /** A creation starts a history of one state. */
  lemma CreateRefines(db: Db, request: RequestId, d: Draft, now: int, id: ScheduleId, s: Schedule)
    requires Inv(db) && StatesValid(db) && ValidDraft(d) && Commits(db, request, Create(d), now, id, s)
    ensures ZipperOf(s) == Zipper([], CurrentState(s), []) && CurrentState(s).draft == d
  {
    hide Validate, Inv, StatesValid, ValidDraft, Overlaps, BlockTasks, AllocationConflict;
    DbReadyHere(db);
    ValidateFacts(db, db.zone, d, None, now);
  }

  /** Every later commit is a push, a step back or a step forth of the zipper. */
  lemma CommitRefines(db: Db, request: RequestId, command: Command, now: int, id: ScheduleId, s: Schedule)
    requires Inv(db) && StatesValid(db) && ValidCommand(command) && Commits(db, request, command, now, id, s)
    requires !command.Create?
    ensures id in db.schedules && Numbered(db.schedules[id]) && Numbered(s)
    ensures ZipperStep(command, db.schedules[id], s)
  {
    hide Validate, StatesValid, ValidDraft, BlockTasks, AllocationConflict, Push, Back, Forth, ZipperOf, Replaced,
         Target, HorizonsApart, AllocationsExact, ReceiptsExact, AllFit, NoneAhead, DbReady, Fresh;
    CommitOK(db, request, command, now, id, s);
    var was := db.schedules[id];
    assert ScheduleOK(db, was);
    match command
    case Replace(_, d, expected) =>
      var v := Validate(db, was.zone, d, Some(CurrentState(was)), now).value;
      ValidateFacts(db, was.zone, d, Some(CurrentState(was)), now);
      ReplaceRefines(was, v.state);
      CurrentAfterTrim(was, v.state);
      ReplacedCurrent(was, v.state);
    case Travel(_, Undo, _) => UndoRefines(was);
    case Travel(_, Redo, _) => RedoRefines(was);
  }

  lemma ReplacedCurrent(s: Schedule, state: SavedState)
    requires Bounded(s)
    ensures Replaced(s, state).current in Replaced(s, state).revisions && CurrentState(Replaced(s, state)) == state
  {
    CurrentAfterTrim(s, state);
  }
}
