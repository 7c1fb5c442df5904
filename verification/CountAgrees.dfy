/** The cheap drive counter against the real split (server/drives/grouper.go lines 304-355 and 1758-1799).
    Park gaps cut a group into stretches.  The counter counts a stretch that holds a run other than Park, the
    splitter one that receives a point; both are tallied from gear runs and numbers of points alone. */
module CountAgrees {
  import opened DriveTypes
  import opened Gears
  import opened Grouping
  import opened ParkGaps
  import opened GearCount

  // ----- counting runs is counting merged ranges ----------------------------

  /** For each merged range, whether it holds a run other than Park. */
  ghost function DrivenOne(m: seq<RawSeg>, d: seq<bool>, seg: RawSeg, moving: bool): seq<bool>
    requires |d| == |m|
  {
    if m != [] && !m[|m| - 1].parked && !seg.parked then d[|m| - 1 := d[|m| - 1] || moving] else d + [moving]
  }

  ghost function DrivenIn(runs: seq<GearRun>, total: int, k: nat): (d: seq<bool>)
    requires k <= |runs| && total != 0
    ensures |d| == |Merged(runs, total, k)|
  {
    if k == 0 then [] else
      DrivenOne(Merged(runs, total, k - 1), DrivenIn(runs, total, k - 1), RawSegOf(runs, total, k - 1),
                runs[k - 1].gear != PARK)
  }

  ghost function CountSeg(c: Counter, parked: bool, moving: bool): Counter {
    if parked then c.(inDrive := false) else if moving then Drive(c) else c
  }

  ghost function CountSegs(c: Counter, m: seq<RawSeg>, d: seq<bool>): Counter
    requires |d| == |m|
  {
    if m == [] then c else CountSeg(CountSegs(c, m[..|m| - 1], d[..|m| - 1]), m[|m| - 1].parked, d[|m| - 1])
  }

  lemma CountMergeOne(c: Counter, m: seq<RawSeg>, d: seq<bool>, seg: RawSeg, moving: bool)
    requires |d| == |m|
    ensures CountSegs(c, MergeOne(m, seg), DrivenOne(m, d, seg, moving)) ==
            CountSeg(CountSegs(c, m, d), seg.parked, moving)
  {
    var r, e := MergeOne(m, seg), DrivenOne(m, d, seg, moving);
    if m != [] && !m[|m| - 1].parked && !seg.parked {
      assert r[..|r| - 1] == m[..|m| - 1] && e[..|r| - 1] == d[..|m| - 1];
    } else {
      assert r[..|r| - 1] == m && e[..|r| - 1] == d;
    }
  }

  lemma CountRunIsSeg(c: Counter, run: GearRun, total: int)
    requires total != 0
    ensures CountRun(c, run, total) == CountSeg(c, ParkGap(run, total), run.gear != PARK)
  {
  }

  lemma {:induction false} CountIsMerged(c: Counter, runs: seq<GearRun>, total: int, k: nat)
    requires total != 0 && k <= |runs|
    ensures CountRuns(c, runs, total, k) == CountSegs(c, Merged(runs, total, k), DrivenIn(runs, total, k))
  {
    if k > 0 {
      hide ParkGap, CountSeg, CountRun, CountSegs, MergeOne, DrivenOne;
      CountIsMerged(c, runs, total, k - 1);
      CountRunIsSeg(CountRuns(c, runs, total, k - 1), runs[k - 1], total);
      CountMergeOne(c, Merged(runs, total, k - 1), DrivenIn(runs, total, k - 1), RawSegOf(runs, total, k - 1),
                    runs[k - 1].gear != PARK);
    }
    if k == 0 {
      assert CountSegs(c, [], []) == c;
    }
  }

  // ----- the tally of stretches ---------------------------------------------

  /** The stretch under way, and the closed ones that only the counter or only the splitter noticed. */
  datatype Tally = Tally(moving: bool, pieces: bool, blank: nat, unseen: nat)

  const START := Tally(false, false, 0, 0)

  /** Stretches with a run other than Park but without a point, the one under way included. */
  function Blank(t: Tally): nat { t.blank + if t.moving && !t.pieces then 1 else 0 }

  /** Stretches with a point but with no run other than Park. */
  function Unseen(t: Tally): nat { t.unseen + if t.pieces && !t.moving then 1 else 0 }

  function Extend(t: Tally, moving: bool, receives: bool): Tally {
    t.(moving := t.moving || moving, pieces := t.pieces || receives)
  }

  function Close(t: Tally): Tally { Tally(false, false, Blank(t), Unseen(t)) }

  /** Whether a range of the clip contributes a point. */
  ghost predicate Receives(clip: Clip, m: seq<RawSeg>, total: int, k: nat)
    requires total != 0 && k < |m|
  {
    if HasGap(m) then NonEmpty(WindowOf(m[k], total, |clip.s.points|)) else clip.s.points != []
  }

  ghost function TallyRanges(t: Tally, clip: Clip, m: seq<RawSeg>, d: seq<bool>, total: int, k: nat): Tally
    requires total != 0 && k <= |m| == |d|
  {
    if k == 0 then t
    else if m[k - 1].parked then Close(TallyRanges(t, clip, m, d, total, k - 1))
    else Extend(TallyRanges(t, clip, m, d, total, k - 1), d[k - 1], Receives(clip, m, total, k - 1))
  }

  /** A clip without frames counts as driving. */
  ghost function TallyClip(t: Tally, clip: Clip): Tally {
    var runs, total := clip.s.gearRuns, Frames(clip.s.gearRuns);
    if total == 0 then Extend(t, true, runs == [] || clip.s.points != []) else
      var m := Merged(runs, total, |runs|);
      TallyRanges(t, clip, m, DrivenIn(runs, total, |runs|), total, |m|)
  }

  ghost function TallyClips(group: seq<Clip>, k: nat): Tally
    requires k <= |group|
  {
    if k == 0 then START else TallyClip(TallyClips(group, k - 1), group[k - 1])
  }

  ghost function TallyOf(group: seq<Clip>): Tally { TallyClips(group, |group|) }

  // ----- the counter beside the walk ----------------------------------------

  function Started(st: Walker): nat {
    |st.done| + if st.current == [] then 0 else 1
  }

  /** Counter, walk and tally agree. */
  predicate Sync(c: Counter, st: Walker, t: Tally) {
    && c.inDrive == t.moving && (st.current != []) == t.pieces
    && c.count + Unseen(t) == Started(st) + Blank(t)
  }

  lemma GapKeeps(c: Counter, st: Walker, t: Tally)
    requires Sync(c, st, t)
    ensures Sync(CountSeg(c, true, false), Step(st, None), Close(t))
    ensures Sync(CountSeg(c, true, true), Step(st, None), Close(t))
  {
  }

  lemma RangeKeeps(c: Counter, st: Walker, t: Tally, moving: bool, piece: Option<Clip>)
    requires Sync(c, st, t)
    ensures Sync(CountSeg(c, false, moving), if piece.Some? then Step(st, piece) else st,
                 Extend(t, moving, piece.Some?))
  {
  }

  /** What one more range does to the walk. */
  lemma OneMoreRange(clip: Clip, m: seq<RawSeg>, total: int, k: nat, st: Walker)
    requires 0 < k <= |m| && total != 0
    ensures var seg, before := m[k - 1], Run(st, WithPoints(SegmentsFrom(clip, m, total, k - 1)));
            Run(st, WithPoints(SegmentsFrom(clip, m, total, k)))
            == if seg.parked then Step(before, None)
               else if !NonEmpty(WindowOf(seg, total, |clip.s.points|)) then before
               else Step(before, Some(Segment(clip, seg, total)))
  {
    var seg, front := m[k - 1], SegmentsFrom(clip, m, total, k - 1);
    if seg.parked {
      hide Step, Segment, WindowOf;
      AddEvent(st, front, None);
    } else if NonEmpty(WindowOf(seg, total, |clip.s.points|)) {
      SegmentsStayParallel(clip, seg, total);
      hide Step, Segment, WindowOf;
      AddEvent(st, front, Some(Segment(clip, seg, total)));
    }
  }

  lemma AddEvent(st: Walker, front: seq<Option<Clip>>, e: Option<Clip>)
    requires e.Some? ==> e.value.s.points != []
    ensures Run(st, WithPoints(front + [e])) == Step(Run(st, WithPoints(front)), e)
  {
    hide Step;
    var all := front + [e];
    assert all[..|all| - 1] == front && all[|all| - 1] == e;
    var events := WithPoints(front) + [e];
    assert WithPoints(all) == events;
    assert events[..|events| - 1] == WithPoints(front);
  }

  lemma {:induction false} RangesKeep(clip: Clip, m: seq<RawSeg>, d: seq<bool>, total: int, k: nat, c: Counter,
        st: Walker, t: Tally)
    requires total != 0 && k <= |m| == |d| && HasGap(m) && Sync(c, st, t)
    ensures Sync(CountSegs(c, m[..k], d[..k]), Run(st, WithPoints(SegmentsFrom(clip, m, total, k))),
                 TallyRanges(t, clip, m, d, total, k))
  {
    if k > 0 {
      RangesKeep(clip, m, d, total, k - 1, c, st, t);
      assert m[..k][..k - 1] == m[..k - 1] && d[..k][..k - 1] == d[..k - 1];
      OneMoreRange(clip, m, total, k, st);
      var c0, st0 := CountSegs(c, m[..k - 1], d[..k - 1]), Run(st, WithPoints(SegmentsFrom(clip, m, total, k - 1)));
      var t0, seg := TallyRanges(t, clip, m, d, total, k - 1), m[k - 1];
      hide Step, Segment, WindowOf, NonEmpty, Drive, Sync, Run, WithPoints;
      hide SegmentsFrom, CountSeg, Close, Extend, HasGap;
      if seg.parked {
        GapKeeps(c0, st0, t0);
      } else if NonEmpty(WindowOf(seg, total, |clip.s.points|)) {
        RangeKeeps(c0, st0, t0, d[k - 1], Some(Segment(clip, seg, total)));
      } else {
        RangeKeeps(c0, st0, t0, d[k - 1], None);
      }
    }
  }

  lemma ParkedEnds(m: seq<RawSeg>, seg: RawSeg)
    ensures seg.parked ==> HasGap(MergeOne(m, seg))
  {
    if seg.parked {
      assert MergeOne(m, seg)[|m|] == seg;
    }
  }

  /** Without a park gap a clip is one driving range. */
  lemma {:induction false} OneRange(runs: seq<GearRun>, total: int, k: nat)
    requires 0 < k <= |runs| && total != 0 && !HasGap(Merged(runs, total, k))
    ensures |Merged(runs, total, k)| == 1
  {
    hide ParkGap;
    var m, before := Merged(runs, total, k), Merged(runs, total, k - 1);
    var seg := RawSegOf(runs, total, k - 1);
    ParkedEnds(before, seg);
    if k > 1 {
      if i :| 0 <= i < |before| && before[i].parked {
        assert m[i].parked;
      }
      OneRange(runs, total, k - 1);
    }
  }

  lemma OneEvent(c: Counter, st: Walker, t: Tally, clip: Clip, moving: bool)
    requires Sync(c, st, t)
    ensures Sync(CountSeg(c, false, moving), Run(st, [Some(clip)]), Extend(t, moving, true))
    ensures Sync(CountSeg(c, false, moving), Run(st, WithPoints([Some(clip)])), Extend(t, moving, clip.s.points != []))
  {
    var one := [Some(clip)];
    assert one[..0] == [];
    assert Run(st, one) == Step(st, Some(clip));
    assert WithPoints(one) == if clip.s.points == [] then [] else one;
    RangeKeeps(c, st, t, moving, Some(clip));
    RangeKeeps(c, st, t, moving, None);
  }

  lemma ClipKeeps(c: Counter, st: Walker, t: Tally, clip: Clip)
    requires Sync(c, st, t)
    ensures Sync(CountClip(c, clip), Run(st, ClipEvents(clip)), TallyClip(t, clip))
  {
    var runs, total := clip.s.gearRuns, Frames(clip.s.gearRuns);
    if total == 0 {
      hide Run, Sync, Merged, SegmentsFrom, WithPoints, Extend;
      OneEvent(c, st, t, clip, true);
    } else {
      var m, d := Merged(runs, total, |runs|), DrivenIn(runs, total, |runs|);
      CountIsMerged(c, runs, total, |runs|);
      if HasGap(m) {
        hide Run, Sync, CountRuns, CountSegs, Merged, SegmentsFrom, WithPoints, DrivenIn, TallyRanges, HasGap;
        assert runs != [] by { FramesOfNone(runs); }
        RangesKeep(clip, m, d, total, |m|, c, st, t);
        assert m[..|m|] == m && d[..|m|] == d;
      } else {
        hide Run, Sync, CountRuns, Merged, SegmentsFrom, WithPoints, DrivenIn, Extend, CountSeg;
        assert runs != [] by { FramesOfNone(runs); }
        OneRange(runs, total, |runs|);
        OneTally(c, t, clip, m, d, total);
        OneEvent(c, st, t, clip, d[0]);
      }
    }
  }

  lemma FramesOfNone(runs: seq<GearRun>)
    ensures runs == [] ==> Frames(runs) == 0
  {
  }

  lemma OneTally(c: Counter, t: Tally, clip: Clip, m: seq<RawSeg>, d: seq<bool>, total: int)
    requires total != 0 && |m| == |d| == 1 && !HasGap(m)
    ensures CountSegs(c, m, d) == CountSeg(c, false, d[0])
    ensures TallyRanges(t, clip, m, d, total, 1) == Extend(t, d[0], clip.s.points != [])
  {
    hide WindowOf;
    assert !m[0].parked;
    assert m[..0] == [] && d[..0] == [];
    assert CountSegs(c, m[..0], d[..0]) == c;
    assert TallyRanges(t, clip, m, d, total, 0) == t;
  }

  lemma {:induction false} GroupKeeps(group: seq<Clip>, k: nat)
    requires k <= |group|
    ensures Sync(CountClips(group, k), Run(IDLE, Events(group, k)), TallyClips(group, k))
  {
    hide CountClip, ClipEvents, TallyClip, Step;
    if k > 0 {
      hide Sync;
      GroupKeeps(group, k - 1);
      RunConcat(IDLE, Events(group, k - 1), ClipEvents(group[k - 1]));
      ClipKeeps(CountClips(group, k - 1), Run(IDLE, Events(group, k - 1)), TallyClips(group, k - 1), group[k - 1]);
    }
  }

  /** For all gear runs: the counter before its fallback, and when it gives the number of drives of the split. */
  lemma CountingAgreesWithSplitting(group: seq<Clip>)
    requires AnyRuns(group)
    ensures var count, t := CountClips(group, |group|).count, TallyOf(group);
            |GearStateSplit(group)| == GearSplits(group) <==>
            Blank(t) == Unseen(t) || (count <= 1 && count + Unseen(t) <= Blank(t) + 1)
  {
    hide CountClips, Events, Run, TallyClips;
    GroupKeeps(group, |group|);
  }

  // ----- runs of the usual form ---------------------------------------------

  ghost predicate AllMoving(m: seq<RawSeg>, d: seq<bool>)
    requires |d| == |m|
  {
    forall i :: 0 <= i < |m| && !m[i].parked ==> d[i]
  }

  lemma NeighboursDiffer(runs: seq<GearRun>, k: nat)
    requires Canonical(runs) && 0 < k < |runs|
    ensures runs[k].gear != runs[k - 1].gear
  {
  }

  /** Only a short stop that opens the clip makes a range without a moving run, and only until the next run. */
  lemma {:induction false} MostMove(runs: seq<GearRun>, total: int, k: nat)
    requires Canonical(runs) && total != 0 && 0 < k <= |runs|
    ensures var m, d := Merged(runs, total, k), DrivenIn(runs, total, k);
            && m != [] && m[|m| - 1].parked == ParkGap(runs[k - 1], total)
            && (AllMoving(m, d) || (k == 1 && runs[0].gear == PARK && |m| == 1 && !m[0].parked))
  {
    assert runs[k - 1].gear != PARK ==> !ParkGap(runs[k - 1], total);
    hide ParkGap, Canonical;
    if k > 1 {
      MostMove(runs, total, k - 1);
      NeighboursDiffer(runs, k - 1);
      assert runs[k - 2].gear != PARK ==> !ParkGap(runs[k - 2], total) by { MovingIsNoGap(runs[k - 2], total); }
      assert runs[k - 1].gear == PARK ==> !Merged(runs, total, k - 1)[|Merged(runs, total, k - 1)| - 1].parked;
    } else {
      assert Merged(runs, total, 0) == [] && DrivenIn(runs, total, 0) == [];
    }
  }

  lemma MovingIsNoGap(run: GearRun, total: int)
    requires total != 0
    ensures run.gear != PARK ==> !ParkGap(run, total)
  {
  }

  /** A clip that is one run of Park is a park gap. */
  lemma LoneParkIsGap(runs: seq<GearRun>)
    requires Canonical(runs) && |runs| == 1 && runs[0].gear == PARK
    ensures Frames(runs) > 0 && ParkGap(runs[0], Frames(runs))
  {
    var f := runs[0].frames;
    assert Frames(runs[..0]) == 0;
    assert Frames(runs) == f;
    var x := f as real;
    assert x * (60.0 / x) == 60.0;
  }

  lemma CanonicalMoves(runs: seq<GearRun>)
    requires Canonical(runs) && runs != []
    ensures var total := Frames(runs);
            total > 0 && AllMoving(Merged(runs, total, |runs|), DrivenIn(runs, total, |runs|))
  {
    FramesPositive(runs);
    if |runs| == 1 && runs[0].gear == PARK {
      LoneParkIsGap(runs);
    }
    hide ParkGap, Canonical, Merged, DrivenIn, Frames;
    MostMove(runs, Frames(runs), |runs|);
  }

  /** A stretch with a point has moved. */
  predicate Seen(t: Tally) { t.unseen == 0 && (t.pieces ==> t.moving) }

  lemma {:induction false} RangesSeen(t: Tally, clip: Clip, m: seq<RawSeg>, d: seq<bool>, total: int, k: nat)
    requires total != 0 && k <= |m| == |d| && AllMoving(m, d) && Seen(t)
    ensures Seen(TallyRanges(t, clip, m, d, total, k))
  {
    hide Receives;
    if k > 0 {
      RangesSeen(t, clip, m, d, total, k - 1);
    }
  }

  lemma {:induction false} GroupSeen(group: seq<Clip>, k: nat)
    requires k <= |group| && forall j :: 0 <= j < |group| ==> Canonical(group[j].s.gearRuns)
    ensures Seen(TallyClips(group, k))
  {
    if k > 0 {
      hide Canonical, Merged, DrivenIn, AllMoving, Frames, TallyRanges;
      GroupSeen(group, k - 1);
      var clip := group[k - 1];
      var runs, total := clip.s.gearRuns, Frames(clip.s.gearRuns);
      if total != 0 {
        assert runs != [] by { FramesOfNone(runs); }
        CanonicalMoves(runs);
        var m := Merged(runs, total, |runs|);
        RangesSeen(TallyClips(group, k - 1), clip, m, DrivenIn(runs, total, |runs|), total, |m|);
      }
    }
  }

  /** For runs as computeGearRuns writes them, counting is never below splitting, and equals it exactly when every
      stretch that moves receives a point, or when it counts a single drive. */
  lemma CanonicalCounting(group: seq<Clip>)
    requires AnyRuns(group) && forall k :: 0 <= k < |group| ==> Canonical(group[k].s.gearRuns)
    ensures |GearStateSplit(group)| <= GearSplits(group)
    ensures |GearStateSplit(group)| == GearSplits(group) <==> Blank(TallyOf(group)) == 0 || GearSplits(group) == 1
  {
    hide CountClips, Events, Run, TallyClips, Canonical;
    GroupKeeps(group, |group|);
    GroupSeen(group, |group|);
  }

  /** A stop in a clip with a single point: its first drive is counted but receives no point. */
  lemma CountCanExceed(p: Point)
    ensures var runs := [GearRun(1, 1), GearRun(PARK, 1), GearRun(1, 1)];
            var group := [At(Route("", "", [p], [], [], [], [], 0, 0, runs, "", "", 0.0), 0)];
            Canonical(runs) && |GearStateSplit(group)| == 1 && GearSplits(group) == 2
  {
    var runs := [GearRun(1, 1), GearRun(PARK, 1), GearRun(1, 1)];
    var clip := At(Route("", "", [p], [], [], [], [], 0, 0, runs, "", "", 0.0), 0);
    StopRuns(runs);
    StopIsCanonical(runs);
    var group, m := [clip], Merged(runs, 3, 3);
    assert HasGap(m) by { assert m[1].parked; }
    hide Merged, ParkGap, WithPoints, Frames, Run, Segment, SegmentsFrom, NonEmpty, WindowOf, HasGap, CountClips;
    StopWindows(clip, m);
    assert group[0].s.gearRuns != [];
    assert Segments(clip) == SegmentsFrom(clip, m, 3, 3);
    OneClip(group);
    CountStop(runs, clip, group);
  }

  lemma StopIsCanonical(runs: seq<GearRun>)
    requires runs == [GearRun(1, 1), GearRun(PARK, 1), GearRun(1, 1)]
    ensures Canonical(runs)
  {
  }

  lemma OneClip(group: seq<Clip>)
    requires |group| == 1
    ensures Events(group, 1) == ClipEvents(group[0])
  {
    hide ClipEvents;
    assert Events(group, 0) == [];
    assert Events(group, 1) == [] + ClipEvents(group[0]);
  }

  lemma StopRuns(runs: seq<GearRun>)
    requires runs == [GearRun(1, 1), GearRun(PARK, 1), GearRun(1, 1)]
    ensures Frames(runs[..0]) == 0 && Frames(runs[..1]) == 1 && Frames(runs[..2]) == 2 && Frames(runs) == 3
    ensures !ParkGap(runs[0], 3) && ParkGap(runs[1], 3) && !ParkGap(runs[2], 3)
    ensures Merged(runs, 3, 3) == [RawSeg(0, 1, false), RawSeg(1, 2, true), RawSeg(2, 3, false)]
  {
    assert runs[..1][..0] == runs[..0] && runs[..2][..1] == runs[..1] && runs[..2] == runs[..|runs| - 1];
    assert Merged(runs, 3, 1) == [RawSeg(0, 1, false)];
    assert Merged(runs, 3, 2) == [RawSeg(0, 1, false), RawSeg(1, 2, true)];
  }

  lemma StopWindows(clip: Clip, m: seq<RawSeg>)
    requires |clip.s.points| == 1 && m == [RawSeg(0, 1, false), RawSeg(1, 2, true), RawSeg(2, 3, false)]
    ensures NonEmpty(WindowOf(m[2], 3, 1))
    ensures Run(IDLE, WithPoints(SegmentsFrom(clip, m, 3, 3))) == Walker([], [Segment(clip, m[2], 3)])
  {
    assert Scaled(0, 3, 1) == 0 && Scaled(1, 3, 1) == 0 && Scaled(2, 3, 1) == 1 && Scaled(3, 3, 1) == 1;
    hide Segment;
    assert SegmentsFrom(clip, m, 3, 0) == [];
    OneMoreRange(clip, m, 3, 1, IDLE);
    OneMoreRange(clip, m, 3, 2, IDLE);
    OneMoreRange(clip, m, 3, 3, IDLE);
  }

  lemma CountStop(runs: seq<GearRun>, clip: Clip, group: seq<Clip>)
    requires runs == [GearRun(1, 1), GearRun(PARK, 1), GearRun(1, 1)] && clip.s.gearRuns == runs && group == [clip]
    ensures CountClips(group, 1) == Counter(true, 2)
  {
    StopRuns(runs);
    hide ParkGap, Frames, Merged;
    var c := Counter(false, 0);
    assert CountRuns(c, runs, 3, 1) == Counter(true, 1);
    assert CountRuns(c, runs, 3, 2) == Counter(false, 1);
    assert CountRuns(c, runs, 3, 3) == Counter(true, 2);
    assert CountClips(group, 0) == c;
  }
}
