/** The two ways to cut a time group into drives: whole rows between parked clips (splitClipsByGear in
    server/drives/grouper_summaries.go), and raw clips at the park gaps inside them (splitByGearState in
    server/drives/grouper.go).  When they cut alike. */
module SplitsAgree {
  import opened DriveTypes
  import opened Gears
  import opened Grouping
  import opened ParkGaps
  import opened GearCount
  import opened RouteStats
  import DriveSplit

  // ----- cutting at whole clips ----------------------------------------------

  ghost predicate RowParked(dist: Metric, c: Clip) { DriveSplit.ParkDominant(RowOf(dist, c.s)) }

  ghost function RowFlags(dist: Metric, g: seq<Clip>): (f: seq<bool>)
    ensures |f| == |g| && forall i :: 0 <= i < |g| ==> f[i] == RowParked(dist, g[i])
  {
    seq(|g|, i requires 0 <= i < |g| => RowParked(dist, g[i]))
  }

  function Mark(c: Clip, parked: bool): Option<Clip> { if parked then None else Some(c) }

  /** A boundary for every flagged clip, the others whole. */
  ghost function WholeEvents(g: seq<Clip>, flags: seq<bool>): (e: seq<Option<Clip>>)
    requires |flags| == |g|
    ensures |e| == |g| && forall i :: 0 <= i < |g| ==> e[i] == Mark(g[i], flags[i])
  {
    seq(|g|, i requires 0 <= i < |g| => Mark(g[i], flags[i]))
  }

  ghost function WholeSplit(g: seq<Clip>, flags: seq<bool>): seq<seq<Clip>>
    requires |flags| == |g|
  {
    OrWhole(g, GearCount.Drives(Run(IDLE, WholeEvents(g, flags))))
  }

  // ----- the split of rows is one ---------------------------------------------

  lemma {:induction false} EventsCons(g: seq<Clip>, flags: seq<bool>)
    requires g != [] && |flags| == |g|
    ensures WholeEvents(g, flags) == [Mark(g[0], flags[0])] + WholeEvents(g[1..], flags[1..])
  {
    hide Mark;
  }

  lemma {:induction false} RunCons(st: Walker, e: Option<Clip>, rest: seq<Option<Clip>>)
    ensures Run(st, [e] + rest) == Run(Step(st, e), rest)
  {
    RunConcat(st, [e], rest);
    assert ([e])[..0] == [];
    assert Run(st, [e]) == Step(st, e);
  }

  lemma {:induction false} ClosedRows(dist: Metric, st: Walker)
    ensures CachedGroups(dist, GearCount.Drives(st)) ==
            CachedGroups(dist, st.done) + DriveSplit.Pieces([], CachedGroup(dist, st.current))
  {
    hide Cached;
    if st.current != [] {
      assert CachedGroup(dist, st.current) != [];
    }
  }

  lemma {:induction false} PiecesOfRows(dist: Metric, st: Walker, g: seq<Clip>)
    ensures CachedGroups(dist, GearCount.Drives(Run(st, WholeEvents(g, RowFlags(dist, g))))) ==
            CachedGroups(dist, st.done) + DriveSplit.Pieces(CachedGroup(dist, g), CachedGroup(dist, st.current))
    decreases |g|
  {
    hide Cached, GearCount.Drives, RowParked;
    if g == [] {
      assert WholeEvents(g, RowFlags(dist, g)) == [];
      assert CachedGroup(dist, g) == [];
      ClosedRows(dist, st);
    } else {
      var e := Mark(g[0], RowParked(dist, g[0]));
      assert RowFlags(dist, g)[1..] == RowFlags(dist, g[1..]);
      EventsCons(g, RowFlags(dist, g));
      RunCons(st, e, WholeEvents(g[1..], RowFlags(dist, g[1..])));
      PiecesOfRows(dist, Step(st, e), g[1..]);
      RowsStep(dist, st, g);
    }
  }

  lemma {:induction false} GroupsSnoc(dist: Metric, done: seq<seq<Clip>>, last: seq<Clip>)
    ensures CachedGroups(dist, done + [last]) == CachedGroups(dist, done) + [CachedGroup(dist, last)]
  {
    hide CachedGroup;
  }

  lemma {:induction false} RowsStep(dist: Metric, st: Walker, g: seq<Clip>)
    requires g != []
    ensures var u := Step(st, Mark(g[0], RowParked(dist, g[0])));
            CachedGroups(dist, u.done) + DriveSplit.Pieces(CachedGroup(dist, g[1..]), CachedGroup(dist, u.current)) ==
            CachedGroups(dist, st.done) + DriveSplit.Pieces(CachedGroup(dist, g), CachedGroup(dist, st.current))
  {
    var t, cur, parked := CachedGroup(dist, g), CachedGroup(dist, st.current), RowParked(dist, g[0]);
    assert t[1..] == CachedGroup(dist, g[1..]);
    assert DriveSplit.ParkDominant(t[0].s) <==> parked;
    var rest := t[1..];
    var closed := if cur == [] then [] else [cur];
    assert DriveSplit.Pieces(t, cur) ==
           if parked then closed + DriveSplit.Pieces(rest, []) else DriveSplit.Pieces(rest, cur + [t[0]]);
    hide *;
    if parked {
      EmptyRows(dist);
      GroupsSnoc(dist, st.done, st.current);
      ClosedStep(dist, st, g[0], CachedGroups(dist, st.done), DriveSplit.Pieces(rest, []));
    } else {
      CachedSnoc(dist, st.current, g[0]);
      StepIs(st, g[0], parked);
    }
  }

  lemma {:induction false} EmptyRows(dist: Metric)
    ensures CachedGroup(dist, []) == []
  {
  }

  lemma {:induction false} StepIs(st: Walker, c: Clip, parked: bool)
    ensures Step(st, Mark(c, parked)) ==
            if !parked then Walker(st.done, st.current + [c])
            else if st.current == [] then st
            else Walker(st.done + [st.current], [])
  {
  }

  lemma {:induction false} ClosedStep(dist: Metric, st: Walker, c: Clip, done: seq<seq<Timed>>, rest: seq<seq<Timed>>)
    requires done == CachedGroups(dist, st.done)
    requires CachedGroups(dist, st.done + [st.current]) == done + [CachedGroup(dist, st.current)]
    ensures var u, cur := Step(st, Mark(c, true)), CachedGroup(dist, st.current);
            u.current == [] && CachedGroups(dist, u.done) + rest == done + ((if cur == [] then [] else [cur]) + rest)
  {
    StepIs(st, c, true);
    hide CachedGroups, Cached, Step, Mark;
    var cur := CachedGroup(dist, st.current);
    assert [] + rest == rest;
    assert done + [cur] + rest == done + ([cur] + rest);
  }

  /** Rows are cut as whole clips at the park-dominant ones. */
  lemma {:induction false} RowsCutWhole(dist: Metric, g: seq<Clip>)
    requires g != []
    ensures DriveSplit.GearSplit(CachedGroup(dist, g)) == CachedGroups(dist, WholeSplit(g, RowFlags(dist, g)))
  {
    PiecesOfRows(dist, IDLE, g);
    hide Cached, GearCount.Drives, RowParked, Run, DriveSplit.Pieces, CachedGroup;
    var drives := GearCount.Drives(Run(IDLE, WholeEvents(g, RowFlags(dist, g))));
    assert CachedGroup(dist, []) == [] && CachedGroups(dist, []) == [];
    var pieces := DriveSplit.Pieces(CachedGroup(dist, g), []);
    assert CachedGroups(dist, drives) == pieces;
    assert CachedGroups(dist, [g]) == [CachedGroup(dist, g)];
    assert pieces == [] <==> drives == [];
    if |g| == 1 {
      SingleSplit(g, RowFlags(dist, g));
    }
  }

  // ----- two splits at whole clips --------------------------------------------

  predicate Constant(flags: seq<bool>) {
    forall i, j :: 0 <= i < j < |flags| ==> flags[i] == flags[j]
  }

  /** No two clips of the same file, as after deduplication. */
  ghost predicate DistinctFiles(g: seq<Clip>) {
    forall i, j :: 0 <= i < j < |g| ==> g[i].s.file != g[j].s.file
  }

  ghost function Unparked(g: seq<Clip>, flags: seq<bool>): seq<Clip>
    requires |flags| == |g|
  {
    Pieces(WholeEvents(g, flags))
  }

  lemma {:induction false} PieceIs(events: seq<Option<Clip>>, c: Clip)
    ensures c in Pieces(events) <==> Some(c) in events
  {
    if events != [] {
      var front, last := events[..|events| - 1], events[|events| - 1];
      assert events == front + [last];
      PieceIs(front, c);
    }
  }

  lemma {:induction false} UnparkedIs(g: seq<Clip>, flags: seq<bool>, i: nat)
    requires |flags| == |g| && DistinctFiles(g) && i < |g|
    ensures g[i] in Unparked(g, flags) <==> !flags[i]
  {
    hide Pieces;
    PieceIs(WholeEvents(g, flags), g[i]);
    if Some(g[i]) in WholeEvents(g, flags) {
      var j :| 0 <= j < |g| && WholeEvents(g, flags)[j] == Some(g[i]);
      assert g[j] == g[i];
    }
  }

  lemma {:induction false} UnparkedSame(g: seq<Clip>, a: seq<bool>, b: seq<bool>)
    requires |a| == |b| == |g| && DistinctFiles(g)
    requires Unparked(g, a) == Unparked(g, b)
    ensures a == b
  {
    hide Unparked, DistinctFiles;
    forall i | 0 <= i < |g|
      ensures a[i] == b[i]
    {
      UnparkedIs(g, a, i);
      UnparkedIs(g, b, i);
    }
  }

  lemma {:induction false} AllParked(g: seq<Clip>, flags: seq<bool>)
    requires |flags| == |g| && forall i :: 0 <= i < |g| ==> flags[i]
    ensures Unparked(g, flags) == [] && Run(IDLE, WholeEvents(g, flags)) == IDLE
  {
    var events := WholeEvents(g, flags);
    if g != [] {
      var n := |g| - 1;
      assert events[..n] == WholeEvents(g[..n], flags[..n]);
      AllParked(g[..n], flags[..n]);
    } else {
      assert events == [];
    }
  }

  lemma {:induction false} NoneParked(g: seq<Clip>, flags: seq<bool>)
    requires |flags| == |g| && forall i :: 0 <= i < |g| ==> !flags[i]
    ensures Unparked(g, flags) == g && Run(IDLE, WholeEvents(g, flags)) == Walker([], g)
  {
    var events := WholeEvents(g, flags);
    if g != [] {
      var n := |g| - 1;
      assert events[..n] == WholeEvents(g[..n], flags[..n]);
      NoneParked(g[..n], flags[..n]);
      assert g == g[..n] + [g[n]];
    } else {
      assert events == [];
    }
  }

  lemma {:induction false} AllFlags(flags: seq<bool>)
    requires Constant(flags)
    ensures (forall i :: 0 <= i < |flags| ==> flags[i]) || (forall i :: 0 <= i < |flags| ==> !flags[i])
  {
    if flags != [] && flags[0] {
      assert forall i :: 0 < i < |flags| ==> flags[0] == flags[i];
    } else if flags != [] {
      assert forall i :: 0 < i < |flags| ==> flags[0] == flags[i];
    }
  }

  lemma {:induction false} ConstantSplit(g: seq<Clip>, flags: seq<bool>)
    requires |flags| == |g| && g != [] && Constant(flags)
    ensures WholeSplit(g, flags) == [g]
  {
    hide Run, Unparked;
    AllFlags(flags);
    if flags[0] {
      AllParked(g, flags);
    } else {
      NoneParked(g, flags);
    }
  }

  lemma {:induction false} SingleSplit(g: seq<Clip>, flags: seq<bool>)
    requires |flags| == |g| == 1
    ensures WholeSplit(g, flags) == [g]
  {
    hide WholeSplit;
    ConstantSplit(g, flags);
  }

  /** The clips that a list of events keeps, or the whole group. */
  ghost function Kept(g: seq<Clip>, events: seq<Option<Clip>>): seq<Clip> {
    if Pieces(events) == [] then g else Pieces(events)
  }

  lemma {:induction false} SplitFlattens(g: seq<Clip>, events: seq<Option<Clip>>)
    ensures Flatten(OrWhole(g, GearCount.Drives(Run(IDLE, events)))) == Kept(g, events)
    ensures Pieces(events) == [] ==> GearCount.Drives(Run(IDLE, events)) == []
  {
    hide Run, Step, Pieces;
    RunKeepsPieces(events);
    var st := Run(IDLE, events);
    FlattenConcat(st.done, [st.current]);
    FlattenOne(st.current);
    FlattenOne(g);
    assert Flatten(st.done) + [] == Flatten(st.done);
    if GearCount.Drives(st) != [] {
      var drives := GearCount.Drives(st);
      assert drives[0] != [];
      assert Flatten(drives) == drives[0] + Flatten(drives[1..]);
    }
  }

  /** Two sets of parked clips cut a group alike exactly when they are the same, or both cut nothing. */
  lemma {:induction false} WholeSplitsAgree(g: seq<Clip>, a: seq<bool>, b: seq<bool>)
    requires |a| == |b| == |g| && g != [] && DistinctFiles(g)
    ensures WholeSplit(g, a) == WholeSplit(g, b) <==> a == b || (Constant(a) && Constant(b))
  {
    hide DistinctFiles, Run, Pieces;
    if Constant(a) && Constant(b) {
      ConstantSplit(g, a);
      ConstantSplit(g, b);
    }
    if WholeSplit(g, a) == WholeSplit(g, b) && a != b {
      SplitFlattens(g, WholeEvents(g, a));
      SplitFlattens(g, WholeEvents(g, b));
      hide WholeSplit, OrWhole;
      SameKept(g, a, b);
    }
  }

  lemma {:induction false} ConstantLike(flags: seq<bool>, b: bool)
    requires forall i :: 0 <= i < |flags| ==> flags[i] == b
    ensures Constant(flags)
  {
  }

  lemma {:induction false} SameKept(g: seq<Clip>, a: seq<bool>, b: seq<bool>)
    requires |a| == |b| == |g| && DistinctFiles(g)
    requires Kept(g, WholeEvents(g, a)) == Kept(g, WholeEvents(g, b))
    ensures a == b || (Constant(a) && Constant(b))
  {
    hide DistinctFiles, Run, WholeEvents, Pieces, Constant;
    var all, none := seq(|g|, _ => true), seq(|g|, _ => false);
    AllParked(g, all);
    NoneParked(g, none);
    ConstantLike(all, true);
    ConstantLike(none, false);
    var x, y := Unparked(g, a), Unparked(g, b);
    if x == y {
      UnparkedSame(g, a, b);
    } else if x == [] {
      UnparkedSame(g, a, all);
      UnparkedSame(g, b, none);
    } else if y == [] {
      UnparkedSame(g, b, all);
      UnparkedSame(g, a, none);
    }
  }

  // ----- groups without gear runs ---------------------------------------------

  ghost function LegacyFlags(g: seq<Clip>): (f: seq<bool>)
    ensures |f| == |g| && forall i :: 0 <= i < |g| ==> f[i] == LegacyParked(g[i])
  {
    seq(|g|, i requires 0 <= i < |g| => LegacyParked(g[i]))
  }

  lemma {:induction false} LegacyIsWhole(g: seq<Clip>, k: nat)
    requires k <= |g|
    ensures LegacyEvents(g, k) == WholeEvents(g[..k], LegacyFlags(g)[..k])
  {
    hide LegacyParked;
    if k > 0 {
      LegacyIsWhole(g, k - 1);
    }
  }

  /** When both cut a group alike: the rows as whole clips, the raw clips as they are. */
  ghost predicate CutAlike(dist: Metric, g: seq<Clip>) {
    GearStateSplit(g) == WholeSplit(g, RowFlags(dist, g))
  }

  /** Without gear runs: when both tests flag the same clips, or neither cuts; without any gear state the raw split
      never cuts. */
  lemma {:induction false} AlikeWithoutRuns(dist: Metric, g: seq<Clip>)
    requires g != [] && !AnyRuns(g) && DistinctFiles(g)
    ensures CutAlike(dist, g) <==>
            || (AnyGears(g) && LegacyFlags(g) == RowFlags(dist, g))
            || (Constant(RowFlags(dist, g)) && (AnyGears(g) ==> Constant(LegacyFlags(g))))
  {
    hide DistinctFiles, LegacyParked, RowParked, WholeSplit, Constant;
    var flags := RowFlags(dist, g);
    if |g| == 1 {
      SingleSplit(g, flags);
      assert Constant(flags) && Constant(LegacyFlags(g)) by { OneFlag(flags); OneFlag(LegacyFlags(g)); }
    } else if AnyGears(g) {
      LegacyIsWhole(g, |g|);
      assert g[..|g|] == g && LegacyFlags(g)[..|g|] == LegacyFlags(g);
      LegacySplit(g);
      WholeSplitsAgree(g, LegacyFlags(g), flags);
    } else {
      var all := seq(|g|, _ => true);
      ConstantLike(all, true);
      ConstantSplit(g, all);
      WholeSplitsAgree(g, all, flags);
    }
  }

  lemma {:induction false} OneFlag(flags: seq<bool>)
    requires |flags| == 1
    ensures Constant(flags)
  {
  }

  lemma {:induction false} LegacySplit(g: seq<Clip>)
    requires |g| > 1 && !AnyRuns(g) && AnyGears(g)
    requires LegacyEvents(g, |g|) == WholeEvents(g, LegacyFlags(g))
    ensures GearStateSplit(g) == WholeSplit(g, LegacyFlags(g))
  {
    hide Run, WholeEvents, LegacyEvents;
  }

  // ----- groups with gear runs ------------------------------------------------

  lemma {:induction false} MergedGap(runs: seq<GearRun>, total: int, k: nat)
    requires k <= |runs| && total != 0
    ensures HasGap(Merged(runs, total, k)) <==> exists i :: 0 <= i < k && ParkGap(runs[i], total)
  {
    hide ParkGap;
    if k > 0 {
      MergedGap(runs, total, k - 1);
      MergeGap(Merged(runs, total, k - 1), RawSegOf(runs, total, k - 1));
    }
  }

  lemma {:induction false} MergeGap(m: seq<RawSeg>, seg: RawSeg)
    ensures HasGap(MergeOne(m, seg)) <==> HasGap(m) || seg.parked
  {
    var r := MergeOne(m, seg);
    if HasGap(m) {
      var k :| 0 <= k < |m| && m[k].parked;
      assert r[k].parked;
    }
    if HasGap(r) {
      var k :| 0 <= k < |r| && r[k].parked;
      if k < |m| {
        assert m[k].parked;
      }
    }
    if seg.parked {
      assert r[|r| - 1].parked;
    }
  }

  /** A segment of a clip: its file, no gear runs, or a boundary. */
  ghost predicate SegmentOf(c: Clip, e: Option<Clip>) {
    e.Some? ==> e.value.s.file == c.s.file && e.value.s.gearRuns == []
  }

  lemma {:induction false} SegmentsAre(c: Clip, m: seq<RawSeg>, total: int, k: nat)
    requires k <= |m| && total != 0
    ensures forall e :: e in SegmentsFrom(c, m, total, k) ==> SegmentOf(c, e)
    ensures (exists i :: 0 <= i < k && m[i].parked) ==> None in SegmentsFrom(c, m, total, k)
  {
    hide WindowOf, Cut;
    if k > 0 {
      SegmentsAre(c, m, total, k - 1);
    }
  }

  lemma {:induction false} PointsOnly(segs: seq<Option<Clip>>)
    ensures forall e :: e in WithPoints(segs) ==> e in segs
    ensures None in segs ==> None in WithPoints(segs)
  {
    if segs != [] {
      var front, last := segs[..|segs| - 1], segs[|segs| - 1];
      assert segs == front + [last];
      PointsOnly(front);
    }
  }

  /** What the raw split makes of a clip: with a gap, boundaries and segments; without, the clip if it has points. */
  lemma {:induction false} EventsOfClip(dist: Metric, c: Clip)
    ensures c.s.gearRuns == [] ==> ClipEvents(c) == [Some(c)]
    ensures c.s.gearRuns != [] && !RowParked(dist, c) ==> ClipEvents(c) == if c.s.points == [] then [] else [Some(c)]
    ensures c.s.gearRuns != [] && RowParked(dist, c) ==>
              None in ClipEvents(c) && forall e :: e in ClipEvents(c) ==> SegmentOf(c, e)
  {
    var runs, total := c.s.gearRuns, Frames(c.s.gearRuns);
    if runs != [] {
      hide ParkGap;
      if total == 0 {
        OnlyItself(c);
      } else {
        var m := Merged(runs, total, |runs|);
        MergedGap(runs, total, |runs|);
        if HasGap(m) {
          SegmentsAre(c, m, total, |m|);
          PointsOnly(SegmentsFrom(c, m, total, |m|));
          hide WithPoints, SegmentsFrom, Merged, SegmentOf;
        } else {
          OnlyItself(c);
        }
      }
    }
  }

  lemma {:induction false} OnlyItself(c: Clip)
    ensures WithPoints([Some(c)]) == if c.s.points == [] then [] else [Some(c)]
  {
    assert ([Some(c)])[..0] == [];
  }

  /** A clip that both treat alike: parked, and none of it driven; or not, and kept whole. */
  ghost predicate ClipAlike(dist: Metric, c: Clip) {
    if RowParked(dist, c) then forall e :: e in ClipEvents(c) ==> e.None? else ClipEvents(c) == [Some(c)]
  }

  lemma {:induction false} RunOfBoundaries(st: Walker, events: seq<Option<Clip>>)
    requires events != [] && forall e :: e in events ==> e.None?
    ensures Run(st, events) == Step(st, None)
  {
    var front, last := events[..|events| - 1], events[|events| - 1];
    assert last in events;
    if front == [] {
      assert Run(st, front) == st;
    } else {
      assert forall e :: e in front ==> e in events;
      RunOfBoundaries(st, front);
    }
  }

  lemma {:induction false} ClipRunsAlike(dist: Metric, st: Walker, c: Clip)
    requires ClipAlike(dist, c)
    ensures Run(st, ClipEvents(c)) == Step(st, Mark(c, RowParked(dist, c)))
  {
    EventsOfClip(dist, c);
    hide ClipEvents, RowParked, SegmentOf, Step;
    if RowParked(dist, c) {
      RunOfBoundaries(st, ClipEvents(c));
    } else {
      RunCons(st, Some(c), []);
      assert [Some(c)] + [] == [Some(c)];
    }
  }

  lemma {:induction false} RunsAlike(dist: Metric, g: seq<Clip>, k: nat)
    requires k <= |g| && forall i :: 0 <= i < |g| ==> ClipAlike(dist, g[i])
    ensures Run(IDLE, Events(g, k)) == Run(IDLE, WholeEvents(g[..k], RowFlags(dist, g[..k])))
  {
    hide ClipEvents, RowParked, Step, ClipAlike;
    if k > 0 {
      RunsAlike(dist, g, k - 1);
      RunConcat(IDLE, Events(g, k - 1), ClipEvents(g[k - 1]));
      ClipRunsAlike(dist, Run(IDLE, Events(g, k - 1)), g[k - 1]);
      var whole := WholeEvents(g[..k], RowFlags(dist, g[..k]));
      assert whole[..k - 1] == WholeEvents(g[..k - 1], RowFlags(dist, g[..k - 1]));
      assert whole[k - 1] == Mark(g[k - 1], RowParked(dist, g[k - 1]));
    } else {
      assert WholeEvents(g[..0], RowFlags(dist, g[..0])) == [];
    }
  }

  lemma {:induction false} EventIn(g: seq<Clip>, k: nat, e: Option<Clip>)
    requires k <= |g|
    ensures e in Events(g, k) <==> exists i :: 0 <= i < k && e in ClipEvents(g[i])
  {
    hide ClipEvents;
    if k > 0 {
      EventIn(g, k - 1, e);
    }
  }

  lemma {:induction false} PieceFrom(dist: Metric, g: seq<Clip>, c: Clip)
    ensures c in Pieces(Events(g, |g|)) <==> exists i :: 0 <= i < |g| && Some(c) in ClipEvents(g[i])
  {
    hide ClipEvents, Events, Pieces;
    PieceIs(Events(g, |g|), c);
    EventIn(g, |g|, Some(c));
  }

  lemma {:induction false} SameClip(g: seq<Clip>, i: nat, j: nat)
    requires DistinctFiles(g) && i < |g| && j < |g| && g[i].s.file == g[j].s.file
    ensures i == j
  {
  }

  /** A clip of the group is a piece only as itself. */
  lemma {:induction false} PieceIsItself(dist: Metric, g: seq<Clip>, i: nat)
    requires DistinctFiles(g) && i < |g| && g[i] in Pieces(Events(g, |g|))
    ensures Some(g[i]) in ClipEvents(g[i])
  {
    hide *;
    PieceFrom(dist, g, g[i]);
    var j :| 0 <= j < |g| && Some(g[i]) in ClipEvents(g[j]);
    PieceHasFile(dist, g[j], g[i]);
    SameClip(g, i, j);
  }

  lemma {:induction false} PieceHasFile(dist: Metric, c: Clip, x: Clip)
    requires Some(x) in ClipEvents(c)
    ensures x.s.file == c.s.file
    ensures c.s.gearRuns != [] && RowParked(dist, c) ==> x.s.gearRuns == []
  {
    EventsOfClip(dist, c);
    hide ClipEvents, RowParked;
    assert c.s.gearRuns != [] && RowParked(dist, c) ==> SegmentOf(c, Some(x));
  }

  lemma {:induction false} KeptMember(g: seq<Clip>, flags: seq<bool>, i: nat)
    requires |flags| == |g| && DistinctFiles(g) && i < |g|
    ensures !flags[i] ==> g[i] in Kept(g, WholeEvents(g, flags))
    ensures flags[i] && g[i] in Kept(g, WholeEvents(g, flags)) ==>
              Pieces(WholeEvents(g, flags)) == [] && forall k :: 0 <= k < |g| ==> flags[k]
  {
    forall k | 0 <= k < |g|
      ensures g[k] in Unparked(g, flags) <==> !flags[k]
    {
      UnparkedIs(g, flags, k);
    }
    hide Pieces, WholeEvents;
  }

  lemma {:induction false} KeptFrom(g: seq<Clip>, flags: seq<bool>, x: Clip)
    requires |flags| == |g|
    ensures x in Kept(g, WholeEvents(g, flags)) ==> x in g
  {
    hide Pieces;
    if Pieces(WholeEvents(g, flags)) != [] {
      PieceIs(WholeEvents(g, flags), x);
    }
  }

  /** If the same clips are kept, every clip is treated alike. */
  lemma {:induction false} KeptAlike(dist: Metric, g: seq<Clip>, i: nat)
    requires DistinctFiles(g) && AnyRuns(g) && i < |g|
    requires Pieces(Events(g, |g|)) == Kept(g, WholeEvents(g, RowFlags(dist, g)))
    ensures ClipAlike(dist, g[i])
  {
    var flags, c := RowFlags(dist, g), g[i];
    hide Pieces, Events, WholeEvents, Kept, DistinctFiles, RowParked, ClipEvents, AnyRuns;
    EventsOfClip(dist, c);
    KeptMember(g, flags, i);
    if c.s.gearRuns == [] {
      KeptWithoutRuns(dist, g, i);
    } else if flags[i] {
      forall x
        ensures Some(x) !in ClipEvents(c)
      {
        PieceFrom(dist, g, x);
        KeptFrom(g, flags, x);
        NoSegmentKept(dist, g, i, x);
      }
      forall e | e in ClipEvents(c)
        ensures e.None?
      {
        NoneOrSome(e);
      }
    } else {
      PieceIsItself(dist, g, i);
    }
  }

  /** A clip without gear runs is then not parked: else all would be, and the one with runs lost. */
  lemma {:induction false} KeptWithoutRuns(dist: Metric, g: seq<Clip>, i: nat)
    requires DistinctFiles(g) && AnyRuns(g) && i < |g| && g[i].s.gearRuns == []
    requires Pieces(Events(g, |g|)) == Kept(g, WholeEvents(g, RowFlags(dist, g)))
    ensures !RowParked(dist, g[i])
  {
    var flags := RowFlags(dist, g);
    var k :| 0 <= k < |g| && g[k].s.gearRuns != [];
    hide Pieces, Events, WholeEvents, DistinctFiles, RowParked, ClipEvents, AnyRuns;
    EventsOfClip(dist, g[i]);
    PieceFrom(dist, g, g[i]);
    KeptMember(g, flags, i);
    AllParkedLosesRuns(dist, g, k);
  }

  lemma {:induction false} NoneOrSome<T>(e: Option<T>)
    ensures e.None? || exists x :: e == Some(x)
  {
    if e.Some? {
      assert e == Some(e.value);
    }
  }

  /** The segments of a clip with a gap are no clips of the group. */
  lemma {:induction false} NoSegmentKept(dist: Metric, g: seq<Clip>, i: nat, x: Clip)
    requires DistinctFiles(g) && i < |g| && g[i].s.gearRuns != [] && RowParked(dist, g[i])
    ensures x in g ==> Some(x) !in ClipEvents(g[i])
  {
    hide RowParked, ClipEvents;
    if Some(x) in ClipEvents(g[i]) {
      PieceHasFile(dist, g[i], x);
    }
  }

  /** A clip with a gap is not kept whole by the raw split. */
  lemma {:induction false} AllParkedLosesRuns(dist: Metric, g: seq<Clip>, k: nat)
    requires DistinctFiles(g) && k < |g| && g[k].s.gearRuns != []
    ensures RowParked(dist, g[k]) ==> g[k] !in Pieces(Events(g, |g|))
  {
    hide Pieces, Events, RowParked, ClipEvents, DistinctFiles;
    if g[k] in Pieces(Events(g, |g|)) {
      PieceIsItself(dist, g, k);
      PieceHasFile(dist, g[k], g[k]);
    }
  }

  lemma {:induction false} NothingDriven(g: seq<Clip>)
    requires AnyRuns(g) && Pieces(Events(g, |g|)) == []
    ensures g != [] && GearStateSplit(g) == [g]
  {
    hide Pieces, Events, Run, GearCount.Drives, GearStateSplit;
    SplitFlattens(g, Events(g, |g|));
    RawSplit(g);
  }

  lemma {:induction false} AlikeWithoutPieces(dist: Metric, g: seq<Clip>)
    requires AnyRuns(g) && DistinctFiles(g) && Pieces(Events(g, |g|)) == []
    ensures CutAlike(dist, g) <==> Constant(RowFlags(dist, g))
  {
    hide Pieces, Events, DistinctFiles, RowParked, Constant, GearStateSplit, AnyRuns, WholeSplit;
    NothingDriven(g);
    var all := seq(|g|, _ => true);
    ConstantLike(all, true);
    ConstantSplit(g, all);
    WholeSplitsAgree(g, all, RowFlags(dist, g));
  }

  lemma {:induction false} AlikeKeepsTheSame(dist: Metric, g: seq<Clip>)
    requires AnyRuns(g) && Pieces(Events(g, |g|)) != [] && CutAlike(dist, g)
    ensures Pieces(Events(g, |g|)) == Kept(g, WholeEvents(g, RowFlags(dist, g)))
  {
    SplitFlattens(g, Events(g, |g|));
    SplitFlattens(g, WholeEvents(g, RowFlags(dist, g)));
    RawSplit(g);
    hide Pieces, Events, WholeEvents, Run, RowParked, GearCount.Drives, GearStateSplit, OrWhole;
  }

  lemma {:induction false} AlikeByClips(dist: Metric, g: seq<Clip>)
    requires AnyRuns(g) && forall i :: 0 <= i < |g| ==> ClipAlike(dist, g[i])
    ensures CutAlike(dist, g)
  {
    RunsAlike(dist, g, |g|);
    assert g[..|g|] == g;
    RawSplit(g);
    hide Events, WholeEvents, Run, RowParked, GearCount.Drives, GearStateSplit, OrWhole;
  }

  /** With gear runs: when every clip is treated alike; where the raw split finds nothing to drive and keeps the
      whole group, when the rows are not cut either. */
  lemma {:induction false} AlikeWithRuns(dist: Metric, g: seq<Clip>)
    requires AnyRuns(g) && DistinctFiles(g)
    ensures CutAlike(dist, g) <==>
            if Pieces(Events(g, |g|)) == [] then Constant(RowFlags(dist, g))
            else forall i :: 0 <= i < |g| ==> ClipAlike(dist, g[i])
  {
    hide Pieces, Events, WholeEvents, DistinctFiles, RowParked, ClipAlike, Constant, AnyRuns, CutAlike, Kept;
    if Pieces(Events(g, |g|)) == [] {
      AlikeWithoutPieces(dist, g);
    } else {
      if CutAlike(dist, g) {
        AlikeKeepsTheSame(dist, g);
        forall i | 0 <= i < |g|
          ensures ClipAlike(dist, g[i])
        {
          KeptAlike(dist, g, i);
        }
      }
      if forall i :: 0 <= i < |g| ==> ClipAlike(dist, g[i]) {
        AlikeByClips(dist, g);
      }
    }
  }

  lemma {:induction false} RawSplit(g: seq<Clip>)
    requires AnyRuns(g)
    ensures g != [] && GearStateSplit(g) == OrWhole(g, GearCount.Drives(Run(IDLE, Events(g, |g|))))
  {
    hide Run, Events;
  }
}
