/** Splitting clips at park gaps and counting the drives that result (server/drives/grouper.go
    lines 304-494 and 1727-1799).  Times are nanoseconds. */
module ParkGaps {
  import opened DriveTypes
  import opened Gears
  import opened Grouping

  type Clip = Stamped<Route>

  const MINUTE_NS := 60000000000.0

  // ----- frame ranges -------------------------------------------------------

  datatype RawSeg = RawSeg(start: int, end: int, parked: bool)

  ghost function RawSegOf(runs: seq<GearRun>, total: int, k: nat): RawSeg
    requires k < |runs| && total != 0
  {
    var frame := Frames(runs[..k]);
    RawSeg(frame, frame + runs[k].frames, ParkGap(runs[k], total))
  }

  /** Appending a range: two driving ranges in a row become one. */
  function MergeOne(m: seq<RawSeg>, seg: RawSeg): seq<RawSeg> {
    if m != [] && !m[|m| - 1].parked && !seg.parked
    then m[|m| - 1 := m[|m| - 1].(end := seg.end)]
    else m + [seg]
  }

  ghost function Merged(runs: seq<GearRun>, total: int, k: nat): seq<RawSeg>
    requires k <= |runs| && total != 0
  {
    if k == 0 then [] else MergeOne(Merged(runs, total, k - 1), RawSegOf(runs, total, k - 1))
  }

  // ----- from frames to points ----------------------------------------------

  /** The window of point indices of a driving range, after clamping; empty when hi <= lo. */
  datatype Window = Window(lo: int, hi: int)

  function Fraction(frame: int, total: int): real
    requires total != 0
  {
    frame as real / total as real
  }

  function Scaled(frame: int, total: int, n: nat): int
    requires total != 0
  {
    Round(Times(Fraction(frame, total), n as real))
  }

  function Times(x: real, y: real): real { x * y }

  function WindowOf(seg: RawSeg, total: int, n: nat): (w: Window)
    requires total != 0
    ensures 0 <= w.lo && w.hi <= n
  {
    var startIdx, endIdx := Scaled(seg.start, total, n), Scaled(seg.end, total, n);
    var s1 := if startIdx >= n then n - 1 else startIdx;
    Window(if s1 < 0 then 0 else s1, if endIdx > n then n else endIdx)
  }

  predicate NonEmpty(w: Window) { w.lo < w.hi }

  /** A parallel slice is cut along when it reaches the end of the window, and dropped otherwise. */
  function Cut<T>(s: seq<T>, w: Window): (r: seq<T>)
    requires 0 <= w.lo < w.hi
    ensures |s| >= w.hi ==> |r| == w.hi - w.lo
  {
    if |s| >= w.hi then s[w.lo..w.hi] else []
  }

  /** Conversion of a float to a duration. */
  function Truncated(x: real): int { if x >= 0.0 then x.Floor else -(-x).Floor }

  function Segment(clip: Clip, seg: RawSeg, total: int): Clip
    requires total != 0 && NonEmpty(WindowOf(seg, total, |clip.s.points|))
  {
    var r, w := clip.s, WindowOf(seg, total, |clip.s.points|);
    At(Route(r.file, r.date, Cut(r.points, w), Cut(r.gears, w), Cut(r.ap, w), Cut(r.speeds, w), Cut(r.accel, w),
             0, 0, [], "", "", 0.0),
       clip.ts + Truncated(Fraction(seg.start, total) * MINUTE_NS))
  }

  /** None marks a park boundary, Some a driving segment. */
  ghost function SegmentsFrom(clip: Clip, m: seq<RawSeg>, total: int, k: nat): seq<Option<Clip>>
    requires k <= |m| && total != 0
  {
    if k == 0 then [] else
      var before, seg := SegmentsFrom(clip, m, total, k - 1), m[k - 1];
      var w := WindowOf(seg, total, |clip.s.points|);
      if seg.parked then before + [None]
      else if w.hi <= w.lo then before
      else before + [Some(Segment(clip, seg, total))]
  }

  ghost predicate HasGap(m: seq<RawSeg>) {
    exists k :: 0 <= k < |m| && m[k].parked
  }

  ghost function Segments(clip: Clip): seq<Option<Clip>> {
    var runs, total := clip.s.gearRuns, Frames(clip.s.gearRuns);
    if total == 0 then [Some(clip)] else
    var m := Merged(runs, total, |runs|);
    if !HasGap(m) then [Some(clip)] else SegmentsFrom(clip, m, total, |m|)
  }

  method SplitClipAtParkGaps(clip: Clip) returns (result: seq<Option<Clip>>)
    ensures result == Segments(clip)
  {
    hide ParkGap, WindowOf, Segment;
    var runs := clip.s.gearRuns;
    var total := SumFrames(runs);
    if total == 0 {
      return [Some(clip)];
    }
    var merged := MergeRuns(runs, total);
    var hasParkGap := false;
    for k := 0 to |merged|
      invariant hasParkGap <==> exists j :: 0 <= j < k && merged[j].parked
    {
      if merged[k].parked {
        hasParkGap := true;
      }
    }
    if !hasParkGap {
      return [Some(clip)];
    }
    result := [];
    for k := 0 to |merged|
      invariant result == SegmentsFrom(clip, merged, total, k)
    {
      var seg := merged[k];
      if seg.parked {
        result := result + [None];
        continue;
      }
      var w := WindowOf(seg, total, |clip.s.points|);
      if w.hi <= w.lo {
        continue;
      }
      result := result + [Some(Segment(clip, seg, total))];
    }
  }

  method MergeRuns(runs: seq<GearRun>, total: int) returns (merged: seq<RawSeg>)
    requires total != 0
    ensures merged == Merged(runs, total, |runs|)
  {
    hide ParkGap;
    var rawSegs, frame := [], 0;
    for k := 0 to |runs|
      invariant |rawSegs| == k && frame == Frames(runs[..k])
      invariant forall j :: 0 <= j < k ==> rawSegs[j] == RawSegOf(runs, total, j)
    {
      assert runs[..k + 1][..k] == runs[..k];
      rawSegs := rawSegs + [RawSeg(frame, frame + runs[k].frames, ParkGap(runs[k], total))];
      frame := frame + runs[k].frames;
    }
    merged := [];
    for k := 0 to |runs|
      invariant merged == Merged(runs, total, k)
    {
      var seg := rawSegs[k];
      if |merged| > 0 && !merged[|merged| - 1].parked && !seg.parked {
        merged := merged[|merged| - 1 := merged[|merged| - 1].(end := seg.end)];
      } else {
        merged := merged + [seg];
      }
    }
  }

  // ----- windows are safe ---------------------------------------------------

  /** The form computeGearRuns gives its runs. */
  ghost predicate Canonical(runs: seq<GearRun>) {
    && (forall k :: 0 <= k < |runs| ==> runs[k].frames >= 1)
    && (forall k :: 0 < k < |runs| ==> runs[k].gear != runs[k - 1].gear)
  }

  /** Ranges in order, without overlap, inside [0, limit]. */
  ghost predicate InOrder(m: seq<RawSeg>, limit: int) {
    && (forall k :: 0 <= k < |m| ==> 0 <= m[k].start <= m[k].end <= limit)
    && (forall j, k :: 0 <= j < k < |m| ==> m[j].end <= m[k].start)
  }

  lemma {:induction false} MergedInOrder(runs: seq<GearRun>, total: int, k: nat)
    requires k <= |runs| && total != 0 && forall j :: 0 <= j < |runs| ==> runs[j].frames >= 0
    ensures InOrder(Merged(runs, total, k), Frames(runs[..k]))
  {
    hide ParkGap;
    if k > 0 {
      MergedInOrder(runs, total, k - 1);
      FramesNonNegative(runs[..k - 1]);
      assert runs[..k][..k - 1] == runs[..k - 1];
      MergeKeepsOrder(Merged(runs, total, k - 1), Frames(runs[..k - 1]), RawSegOf(runs, total, k - 1));
    }
  }

  lemma {:induction false} FramesNonNegative(runs: seq<GearRun>)
    requires forall j :: 0 <= j < |runs| ==> runs[j].frames >= 0
    ensures Frames(runs) >= 0
  {
    if runs != [] {
      FramesNonNegative(runs[..|runs| - 1]);
    }
  }

  lemma MergeKeepsOrder(m: seq<RawSeg>, limit: int, seg: RawSeg)
    requires InOrder(m, limit) && 0 <= limit == seg.start <= seg.end
    ensures InOrder(MergeOne(m, seg), seg.end)
  {
    var r := MergeOne(m, seg);
    assert forall k :: 0 <= k < |m| - 1 ==> r[k] == m[k];
  }

  lemma RoundInt(n: int)
    ensures Round(n as real) == n
  {
  }

  lemma Monotone(x: real, y: real, t: real)
    requires t > 0.0 && Times(x, t) <= Times(y, t)
    ensures x <= y
  {
    assert x > y ==> x * t > y * t;
  }

  /** Whatever the gear runs, negative counts included, a segment is cut inside the points. */
  lemma WindowsAreInBounds(seg: RawSeg, total: int, n: nat)
    requires total != 0
    ensures var w := WindowOf(seg, total, n); NonEmpty(w) ==> 0 <= w.lo < w.hi <= n
  {
    hide Scaled;
  }

  lemma ScaledMonotone(a: int, b: int, total: int, n: nat)
    requires a <= b && total > 0
    ensures Scaled(a, total, n) <= Scaled(b, total, n)
  {
    hide Round, Times, Fraction;
    var x, y := Fraction(a, total), Fraction(b, total);
    FractionMonotone(a, b, total);
    TimesMonotone(x, y, n as real);
    RoundMonotone(Times(x, n as real), Times(y, n as real));
  }

  lemma FractionMonotone(a: int, b: int, total: int)
    requires a <= b && total > 0
    ensures Fraction(a, total) <= Fraction(b, total)
  {
    var t := total as real;
    assert Fraction(a, total) * t == a as real && Fraction(b, total) * t == b as real;
    Monotone(Fraction(a, total), Fraction(b, total), t);
  }

  lemma TimesMonotone(x: real, y: real, n: real)
    requires x <= y && n >= 0.0
    ensures Times(x, n) <= Times(y, n)
  {
    assert (y - x) * n >= 0.0;
  }

  lemma RoundMonotone(x: real, y: real)
    requires x <= y
    ensures Round(x) <= Round(y)
  {
  }

  /** Whatever the counts: a driving range that ends no later than another starts is cut before it; only the clamp
      can give the last point to both. */
  lemma OrderedRangesAreSafe(a: RawSeg, b: RawSeg, total: int, n: nat)
    requires total > 0 && a.end <= b.start
    ensures var v, w := WindowOf(a, total, n), WindowOf(b, total, n);
            NonEmpty(v) && NonEmpty(w) ==> 0 <= v.lo < v.hi <= n && v.lo <= w.lo && (v.hi <= w.lo || w.lo == n - 1)
  {
    hide Scaled;
    ScaledMonotone(a.end, b.start, total, n);
  }

  lemma TotalIsPositive(runs: seq<GearRun>)
    requires (forall i :: 0 <= i < |runs| ==> runs[i].frames >= 0) && Frames(runs) != 0
    ensures Frames(runs) > 0
  {
    FramesNonNegative(runs);
  }

  /** Without negative counts all ranges are in that order, so all segments of a clip are. */
  lemma {:induction false} WindowsAreSafe(runs: seq<GearRun>, total: int, n: nat, j: nat, k: nat)
    requires (forall i :: 0 <= i < |runs| ==> runs[i].frames >= 0) && total == Frames(runs) != 0
    requires j < k < |Merged(runs, total, |runs|)|
    ensures var m := Merged(runs, total, |runs|);
            var a, b := WindowOf(m[j], total, n), WindowOf(m[k], total, n);
            NonEmpty(a) && NonEmpty(b) ==> 0 <= a.lo < a.hi <= n && a.lo <= b.lo && (a.hi <= b.lo || b.lo == n - 1)
  {
    hide ParkGap, Scaled, Merged;
    assert runs[..|runs|] == runs;
    TotalIsPositive(runs);
    MergedInOrder(runs, total, |runs|);
    var m := Merged(runs, total, |runs|);
    OrderedRangesAreSafe(m[j], m[k], total, n);
  }

  /** Runs of 20, 10, -25, 10 and 5 frames, the tens in Park: a document may hold them. */
  const TURNING_BACK :=
    [GearRun(1, 20), GearRun(PARK, 10), GearRun(1, -25), GearRun(PARK, 10), GearRun(1, 5)]

  lemma TurningBackRanges()
    ensures Frames(TURNING_BACK) == 20
    ensures Merged(TURNING_BACK, 20, 5) ==
            [RawSeg(0, 20, false), RawSeg(20, 30, true), RawSeg(30, 5, false), RawSeg(5, 15, true),
             RawSeg(15, 20, false)]
  {
    var r := TURNING_BACK;
    assert Frames(r[..0]) == 0;
    assert r[..1][..0] == r[..0] && r[..2][..1] == r[..1] && r[..3][..2] == r[..2] && r[..4][..3] == r[..3];
    assert r[..5] == r && r[..5][..4] == r[..4];
    assert Frames(r[..1]) == 20;
    assert Frames(r[..2]) == 30;
    assert Frames(r[..3]) == 5;
    assert Frames(r[..4]) == 15;
    assert 20 as real * (60.0 / 20 as real) == 60.0;
    assert Merged(r, 20, 1) == [RawSeg(0, 20, false)];
    assert Merged(r, 20, 2) == [RawSeg(0, 20, false), RawSeg(20, 30, true)];
    assert Merged(r, 20, 3) == [RawSeg(0, 20, false), RawSeg(20, 30, true), RawSeg(30, 5, false)];
  }

  lemma ScaledWhole(frame: int)
    ensures Scaled(frame, 20, 20) == frame
  {
    hide Round;
    assert Fraction(frame, 20) * 20.0 == frame as real;
    RoundInt(frame);
  }

  /** With a negative count a point can be in two segments. */
  lemma NegativeCountsOverlap()
    ensures Frames(TURNING_BACK) == 20
    ensures var m := Merged(TURNING_BACK, 20, |TURNING_BACK|);
            && |m| == 5 && !m[0].parked && !m[4].parked
            && WindowOf(m[0], 20, 20) == Window(0, 20) && WindowOf(m[4], 20, 20) == Window(15, 20)
  {
    TurningBackRanges();
    hide Merged, Frames, Scaled;
    ScaledWhole(0);
    ScaledWhole(15);
    ScaledWhole(20);
  }

  lemma {:induction false} FramesPositive(runs: seq<GearRun>)
    requires (forall k :: 0 <= k < |runs| ==> runs[k].frames >= 1)
    ensures Frames(runs) >= |runs|
  {
    if runs != [] {
      FramesPositive(runs[..|runs| - 1]);
    }
  }

  /** A parallel slice of a clip stays parallel in each of its segments. */
  lemma SegmentsStayParallel(clip: Clip, seg: RawSeg, total: int)
    requires total != 0
    requires NonEmpty(WindowOf(seg, total, |clip.s.points|))
    ensures var r, n := clip.s, |clip.s.points|;
            var s := Segment(clip, seg, total).s;
            && s.points != []
            && (|r.gears| == n ==> |s.gears| == |s.points|)
            && (|r.ap| == n ==> |s.ap| == |s.points|)
            && (|r.speeds| == n ==> |s.speeds| == |s.points|)
            && (|r.accel| == n ==> |s.accel| == |s.points|)
  {
    hide WindowOf;
  }
}
