/** What the segments of a clip hold, index by index, over its gear runs and slices alone (server/drives/grouper.go
    lines 350-494). */
module SegmentData {
  import opened Bytes
  import opened DriveTypes
  import opened Gears
  import opened Grouping
  import opened ParkGaps

  // ----- runs ---------------------------------------------------------------

  /** The frames before run `k`. */
  ghost function Upto(runs: seq<GearRun>, k: nat): int
    requires k <= |runs|
  {
    if k == 0 then 0 else Upto(runs, k - 1) + runs[k - 1].frames
  }

  /** Run `i` is in Park for at least a thirtieth of the clip. */
  ghost predicate Gap(runs: seq<GearRun>, i: nat)
    requires i < |runs|
  {
    var total := Upto(runs, |runs|);
    runs[i].gear == 0 && if total > 0 then 30 * runs[i].frames >= total else 30 * runs[i].frames <= total
  }

  /** The runs from `from` up to `to`. */
  datatype Span = Span(from: nat, to: nat)

  ghost predicate Inside(runs: seq<GearRun>, s: Span) { s.from < s.to <= |runs| }

  /** A longest stretch of runs without a gap. */
  ghost predicate Stretch(runs: seq<GearRun>, s: Span)
    requires Inside(runs, s)
  {
    && (forall i :: s.from <= i < s.to ==> !Gap(runs, i))
    && (s.from == 0 || Gap(runs, s.from - 1)) && (s.to == |runs| || Gap(runs, s.to))
  }

  /** The integer nearest to num / den, halves away from zero. */
  function Nearest(num: int, den: int): int
    requires den != 0
  {
    var n, d := if den < 0 then -num else num, if den < 0 then -den else den;
    if n >= 0 then (2 * n + d) / (2 * d) else -((-2 * n + d) / (2 * d))
  }

  /** num / den toward zero. */
  function Toward0(num: int, den: int): int
    requires den != 0
  {
    var n, d := if den < 0 then -num else num, if den < 0 then -den else den;
    if n >= 0 then n / d else -(-n / d)
  }

  /** The first point of a stretch and the one after its last. */
  ghost function Lo(clip: Clip, s: Span): (lo: int)
    requires Inside(clip.s.gearRuns, s) && Upto(clip.s.gearRuns, |clip.s.gearRuns|) != 0
  {
    var runs, n := clip.s.gearRuns, |clip.s.points|;
    var i := Nearest(Upto(runs, s.from) * n, Upto(runs, |runs|));
    if i < 0 || n == 0 then 0 else if i >= n then n - 1 else i
  }

  ghost function Hi(clip: Clip, s: Span): int
    requires Inside(clip.s.gearRuns, s) && Upto(clip.s.gearRuns, |clip.s.gearRuns|) != 0
  {
    var runs, n := clip.s.gearRuns, |clip.s.points|;
    var i := Nearest(Upto(runs, s.to) * n, Upto(runs, |runs|));
    if i > n then n else i
  }

  /** The entries `lo` up to `hi` of a slice that has them, and nothing otherwise. */
  ghost predicate Part<T>(whole: seq<T>, part: seq<T>, lo: int, hi: int)
    requires 0 <= lo < hi
  {
    if |whole| >= hi then |part| == hi - lo && forall k :: 0 <= k < hi - lo ==> part[k] == whole[lo + k] else part == []
  }

  /** `c` is what `clip` holds in the stretch `s`. */
  ghost predicate Holds(clip: Clip, s: Span, c: Clip)
    requires Inside(clip.s.gearRuns, s) && Upto(clip.s.gearRuns, |clip.s.gearRuns|) != 0
  {
    var lo, hi, runs := Lo(clip, s), Hi(clip, s), clip.s.gearRuns;
    && 0 <= lo < hi <= |clip.s.points|
    && c.s.points == clip.s.points[lo..hi]
    && Part(clip.s.gears, c.s.gears, lo, hi) && Part(clip.s.ap, c.s.ap, lo, hi)
    && Part(clip.s.speeds, c.s.speeds, lo, hi) && Part(clip.s.accel, c.s.accel, lo, hi)
    && c.s.file == clip.s.file && c.s.date == clip.s.date
    && c.s.gearRuns == [] && c.s.rawFrames == 0 && c.s.rawPark == 0
    && c.ts == clip.ts + Toward0(Upto(runs, s.from) * 60000000000, Upto(runs, |runs|))
  }

  // ----- arithmetic ---------------------------------------------------------

  lemma {:induction false} UptoIsFrames(runs: seq<GearRun>, k: nat)
    requires k <= |runs|
    ensures Upto(runs, k) == Frames(runs[..k])
  {
    if k > 0 {
      UptoIsFrames(runs, k - 1);
      assert runs[..k][..k - 1] == runs[..k - 1];
    }
  }

  lemma RoundIsHalfUp(x: real, n: nat, d: int)
    requires d > 0 && x * d as real == n as real
    ensures Round(x) == (2 * n + d) / (2 * d) && Round(-x) == -((2 * n + d) / (2 * d))
  {
    FloorIs(x, n, d);
    assert (x + 0.5) * (2 * d) as real == (2 * n + d) as real;
    FloorIs(x + 0.5, 2 * n + d, 2 * d);
  }

  lemma NearestIsRound(x: real, num: int, den: int)
    requires den != 0 && x * den as real == num as real
    ensures Round(x) == Nearest(num, den)
  {
    var n, d := if den < 0 then -num else num, if den < 0 then -den else den;
    assert x * d as real == n as real;
    if n >= 0 {
      RoundIsHalfUp(x, n, d);
    } else {
      assert (-x) * d as real == (-n) as real;
      RoundIsHalfUp(-x, -n, d);
    }
    hide Round;
  }

  lemma FloorIs(x: real, n: nat, d: int)
    requires d > 0 && x * d as real == n as real
    ensures x >= 0.0 && x.Floor == n / d
  {
    var q, r := n / d, n % d;
    assert n == q * d + r;
    assert (q * d) as real == q as real * d as real;
    var e := x - q as real;
    assert e * d as real == r as real;
    assert e < 0.0 ==> e * d as real < 0.0;
    assert e >= 1.0 ==> e * d as real >= d as real;
  }

  lemma Toward0IsTruncated(x: real, num: int, den: int)
    requires den != 0 && x * den as real == num as real
    ensures Truncated(x) == Toward0(num, den)
  {
    var n, d := if den < 0 then -num else num, if den < 0 then -den else den;
    assert x * d as real == n as real;
    if n >= 0 {
      FloorIs(x, n, d);
    } else {
      assert (-x) * d as real == (-n) as real;
      FloorIs(-x, -n, d);
      NegativeQuotient(x, n, d);
    }
  }

  lemma NegativeQuotient(x: real, n: int, d: int)
    requires d > 0 && n < 0 && x * d as real == n as real
    ensures x < 0.0
  {
    assert x >= 0.0 ==> x * d as real >= 0.0;
  }

  /** Where the window of a frame range starts and ends. */
  lemma ScaledIs(frame: int, total: int, n: nat)
    requires total != 0
    ensures Scaled(frame, total, n) == Nearest(frame * n, total)
  {
    var f, t := Fraction(frame, total), total as real;
    assert f * t == frame as real;
    var x := Times(f, n as real);
    assert x * t == (f * t) * n as real;
    assert (frame * n) as real == frame as real * n as real;
    NearestIsRound(x, frame * n, total);
    hide Round, Nearest, Fraction;
  }

  lemma OffsetIs(frame: int, total: int)
    requires total != 0
    ensures Truncated(Fraction(frame, total) * MINUTE_NS) == Toward0(frame * 60000000000, total)
  {
    var f, t := Fraction(frame, total), total as real;
    assert f * t == frame as real;
    var x := f * MINUTE_NS;
    assert x * t == (f * t) * 60000000000.0;
    Toward0IsTruncated(x, frame * 60000000000, total);
    hide Truncated, Toward0, Fraction;
  }

  // ----- the spans behind the merged ranges ---------------------------------

  /** The spans follow each other without a hole; each is a gap or a stretch. */
  ghost predicate Tiling(runs: seq<GearRun>, s: seq<Span>, k: nat)
    requires k <= |runs|
  {
    && (k == 0 <==> s == [])
    && (forall j :: 0 <= j < |s| ==> Inside(runs, s[j]) && s[j].to <= k)
    && (s != [] ==> s[0].from == 0 && s[|s| - 1].to == k)
    && (forall j :: 0 < j < |s| ==> s[j].from == s[j - 1].to)
  }

  /** The range `seg` is that of the span. */
  ghost predicate RangeOf(runs: seq<GearRun>, s: Span, seg: RawSeg)
    requires Inside(runs, s)
  {
    && seg.start == Upto(runs, s.from) && seg.end == Upto(runs, s.to)
    && (seg.parked ==> s.to == s.from + 1 && Gap(runs, s.from))
    && (!seg.parked ==> forall i :: s.from <= i < s.to ==> !Gap(runs, i))
  }

  ghost predicate RangesOf(runs: seq<GearRun>, s: seq<Span>, m: seq<RawSeg>, k: nat)
    requires k <= |runs|
  {
    && Tiling(runs, s, k) && |m| == |s|
    && (forall j :: 0 <= j < |s| ==> RangeOf(runs, s[j], m[j]))
    && (forall j :: 0 < j < |s| ==> m[j - 1].parked || m[j].parked)
  }

  lemma GapIs(runs: seq<GearRun>, k: nat)
    requires k < |runs| && Upto(runs, |runs|) != 0
    ensures ParkGap(runs[k], Upto(runs, |runs|)) <==> Gap(runs, k)
  {
    var total, f := Upto(runs, |runs|), runs[k].frames;
    var q, t := 60.0 / total as real, total as real;
    assert q * t == 60.0;
    var y := f as real * q;
    assert y * t == f as real * 60.0;
    if total > 0 {
      assert y >= 2.0 ==> y * t >= 2.0 * t;
      assert y < 2.0 ==> y * t < 2.0 * t;
    } else {
      assert y >= 2.0 ==> y * t <= 2.0 * t;
      assert y < 2.0 ==> y * t > 2.0 * t;
    }
    hide Upto;
  }

  /** Merging the ranges of the runs leaves those of some tiling. */
  lemma {:induction false} RangesFound(runs: seq<GearRun>, k: nat) returns (s: seq<Span>)
    requires k <= |runs| && Upto(runs, |runs|) != 0
    ensures RangesOf(runs, s, Merged(runs, Upto(runs, |runs|), k), k)
  {
    var total := Upto(runs, |runs|);
    if k == 0 {
      s := [];
    } else {
      s := RangesFound(runs, k - 1);
      var m, seg := Merged(runs, total, k - 1), RawSegOf(runs, total, k - 1);
      UptoIsFrames(runs, k - 1);
      GapIs(runs, k - 1);
      assert RangeOf(runs, Span(k - 1, k), seg);
      hide ParkGap, Frames, RawSegOf, Gap, Merged, Upto;
      s := Extend(runs, s, m, k - 1, seg);
    }
  }

  lemma {:induction false} Extend(runs: seq<GearRun>, s: seq<Span>, m: seq<RawSeg>, k: nat, seg: RawSeg)
    returns (t: seq<Span>)
    requires k < |runs| && RangesOf(runs, s, m, k) && RangeOf(runs, Span(k, k + 1), seg)
    ensures RangesOf(runs, t, MergeOne(m, seg), k + 1)
  {
    hide Gap, Upto;
    var n := |s|;
    if m != [] && !m[n - 1].parked && !seg.parked {
      t := s[n - 1 := Span(s[n - 1].from, k + 1)];
    } else {
      t := s + [Span(k, k + 1)];
    }
    var r := MergeOne(m, seg);
    assert forall j :: 0 <= j < n - 1 ==> t[j] == s[j] && r[j] == m[j];
  }

  /** Every run lies in a span. */
  lemma {:induction false} SpanOf(runs: seq<GearRun>, s: seq<Span>, k: nat, i: nat) returns (j: nat)
    requires k <= |runs| && Tiling(runs, s, k) && i < k
    ensures j < |s| && s[j].from <= i < s[j].to
  {
    j := |s| - 1;
    while i < s[j].from
      invariant j < |s| && i < s[j].to
    {
      j := j - 1;
    }
  }

  /** The range of a stretch, and only such a range, is a driving one. */
  lemma {:induction false} DrivingSpan(runs: seq<GearRun>, s: seq<Span>, m: seq<RawSeg>, j: nat)
    requires RangesOf(runs, s, m, |runs|) && j < |s| && !m[j].parked
    ensures Stretch(runs, s[j])
  {
    hide Gap, Upto;
    var t := s[j];
    if j > 0 {
      assert m[j - 1].parked && s[j - 1].to == t.from;
      assert RangeOf(runs, s[j - 1], m[j - 1]);
    }
    if j + 1 < |s| {
      assert m[j + 1].parked && s[j + 1].from == t.to;
      assert RangeOf(runs, s[j + 1], m[j + 1]);
    }
  }

  lemma {:induction false} StretchIsSpan(runs: seq<GearRun>, s: seq<Span>, m: seq<RawSeg>, t: Span) returns (j: nat)
    requires RangesOf(runs, s, m, |runs|) && Inside(runs, t) && Stretch(runs, t)
    ensures j < |s| && s[j] == t && !m[j].parked
  {
    j := SpanOf(runs, s, |runs|, t.from);
    assert !m[j].parked by {
      hide Upto;
    }
    DrivingSpan(runs, s, m, j);
    hide Gap, Upto, RangesOf, RangeOf;
    OneStretch(runs, s[j], t);
  }

  lemma OneStretch(runs: seq<GearRun>, s: Span, t: Span)
    requires Inside(runs, s) && Inside(runs, t) && Stretch(runs, s) && Stretch(runs, t) && s.from <= t.from < s.to
    ensures s == t
  {
    hide Gap;
  }

  // ----- the segments -------------------------------------------------------

  /** Entry `e` of the result stands for the span `s`: a boundary for a gap, a segment for a stretch that has points. */
  ghost predicate Stands(clip: Clip, s: Span, e: Option<Clip>)
    requires Inside(clip.s.gearRuns, s) && Upto(clip.s.gearRuns, |clip.s.gearRuns|) != 0
  {
    match e
    case None => s.to == s.from + 1 && Gap(clip.s.gearRuns, s.from)
    case Some(c) => Stretch(clip.s.gearRuns, s) && Holds(clip, s, c)
  }

  /** The entries stand for spans in order. */
  ghost predicate StandFor(clip: Clip, at: seq<Span>, segs: seq<Option<Clip>>)
    requires Upto(clip.s.gearRuns, |clip.s.gearRuns|) != 0
  {
    && |at| == |segs|
    && (forall k :: 0 <= k < |at| ==> Inside(clip.s.gearRuns, at[k]) && Stands(clip, at[k], segs[k]))
    && (forall j, k :: 0 <= j < k < |at| ==> at[j].to <= at[k].from)
  }

  lemma CutIsPart<T>(s: seq<T>, w: Window)
    requires 0 <= w.lo < w.hi
    ensures Part(s, Cut(s, w), w.lo, w.hi)
  {
  }

  lemma WindowIs(clip: Clip, s: Span, seg: RawSeg)
    requires Inside(clip.s.gearRuns, s) && Upto(clip.s.gearRuns, |clip.s.gearRuns|) != 0
    requires RangeOf(clip.s.gearRuns, s, seg)
    ensures WindowOf(seg, Upto(clip.s.gearRuns, |clip.s.gearRuns|), |clip.s.points|) ==
            Window(Lo(clip, s), Hi(clip, s))
  {
    var total, n := Upto(clip.s.gearRuns, |clip.s.gearRuns|), |clip.s.points|;
    ScaledIs(seg.start, total, n);
    ScaledIs(seg.end, total, n);
    hide Upto, Scaled, Nearest, Gap;
  }

  lemma SegmentHolds(clip: Clip, s: Span, seg: RawSeg)
    requires Inside(clip.s.gearRuns, s) && Upto(clip.s.gearRuns, |clip.s.gearRuns|) != 0
    requires RangeOf(clip.s.gearRuns, s, seg) && Lo(clip, s) < Hi(clip, s)
    ensures var total := Upto(clip.s.gearRuns, |clip.s.gearRuns|);
            NonEmpty(WindowOf(seg, total, |clip.s.points|)) && Holds(clip, s, Segment(clip, seg, total))
  {
    var total, r := Upto(clip.s.gearRuns, |clip.s.gearRuns|), clip.s;
    WindowIs(clip, s, seg);
    OffsetIs(seg.start, total);
    var w := WindowOf(seg, total, |r.points|);
    CutIsPart(r.points, w);
    CutIsPart(r.gears, w);
    CutIsPart(r.ap, w);
    CutIsPart(r.speeds, w);
    CutIsPart(r.accel, w);
    hide Upto, WindowOf, Lo, Hi, Cut, Truncated, Toward0, Gap;
    assert w.hi <= |r.points|;
    assert Cut(r.points, w) == r.points[w.lo..w.hi];
  }

  lemma {:induction false} SegmentsFound(clip: Clip, s: seq<Span>, m: seq<RawSeg>, k: nat) returns (at: seq<Span>)
    requires Upto(clip.s.gearRuns, |clip.s.gearRuns|) != 0
    requires RangesOf(clip.s.gearRuns, s, m, |clip.s.gearRuns|) && k <= |m|
    ensures StandFor(clip, at, SegmentsFrom(clip, m, Upto(clip.s.gearRuns, |clip.s.gearRuns|), k))
    ensures forall j :: 0 <= j < |at| ==> k > 0 && at[j].to <= s[k - 1].to
    ensures forall j :: 0 <= j < k ==> m[j].parked || Lo(clip, s[j]) < Hi(clip, s[j]) ==> s[j] in at
  {
    hide Upto, Lo, Hi, Gap, WindowOf, Segment, RangeOf, RangesOf, Stretch, Holds;
    SpansMatch(clip.s.gearRuns, s, m);
    if k == 0 {
      at := [];
    } else {
      at := SegmentsFound(clip, s, m, k - 1);
      var t, total := s[k - 1], Upto(clip.s.gearRuns, |clip.s.gearRuns|);
      var before := SegmentsFrom(clip, m, total, k - 1);
      WindowIs(clip, t, m[k - 1]);
      if m[k - 1].parked {
        GapStands(clip, t, m[k - 1]);
        at := Append(clip, at, before, t, None);
      } else if Lo(clip, t) < Hi(clip, t) {
        SegmentHolds(clip, t, m[k - 1]);
        DrivingSpan(clip.s.gearRuns, s, m, k - 1);
        at := Append(clip, at, before, t, Some(Segment(clip, m[k - 1], total)));
      }
    }
  }

  lemma SpansMatch(runs: seq<GearRun>, s: seq<Span>, m: seq<RawSeg>)
    requires RangesOf(runs, s, m, |runs|)
    ensures |s| == |m| && forall j :: 0 <= j < |s| ==> Inside(runs, s[j]) && RangeOf(runs, s[j], m[j])
    ensures forall j :: 0 < j < |s| ==> s[j].from == s[j - 1].to
  {
    hide RangeOf;
  }

  lemma GapStands(clip: Clip, t: Span, seg: RawSeg)
    requires Inside(clip.s.gearRuns, t) && Upto(clip.s.gearRuns, |clip.s.gearRuns|) != 0
    requires RangeOf(clip.s.gearRuns, t, seg) && seg.parked
    ensures Stands(clip, t, None)
  {
    hide Gap, Upto;
  }

  lemma Append(clip: Clip, at: seq<Span>, segs: seq<Option<Clip>>, t: Span, e: Option<Clip>) returns (r: seq<Span>)
    requires Upto(clip.s.gearRuns, |clip.s.gearRuns|) != 0 && StandFor(clip, at, segs)
    requires Inside(clip.s.gearRuns, t) && Stands(clip, t, e)
    requires forall j :: 0 <= j < |at| ==> at[j].to <= t.from
    ensures r == at + [t] && StandFor(clip, r, segs + [e])
  {
    hide Upto, Stands;
    r := at + [t];
  }

  /** A clip without frames or without a gap is one segment, itself. */
  lemma {:induction false} WholeClipIs(clip: Clip)
    requires var runs := clip.s.gearRuns;
             Upto(runs, |runs|) == 0 || forall i :: 0 <= i < |runs| ==> !Gap(runs, i)
    ensures Segments(clip) == [Some(clip)]
  {
    var runs := clip.s.gearRuns;
    UptoIsFrames(runs, |runs|);
    assert runs[..|runs|] == runs;
    if Upto(runs, |runs|) != 0 {
      var s := RangesFound(runs, |runs|);
      hide Upto, Gap, Merged, Frames;
      NoneParked(runs, s, Merged(runs, Frames(runs), |runs|));
    }
  }

  lemma NoneParked(runs: seq<GearRun>, s: seq<Span>, m: seq<RawSeg>)
    requires RangesOf(runs, s, m, |runs|) && forall i :: 0 <= i < |runs| ==> !Gap(runs, i)
    ensures !HasGap(m)
  {
    hide Upto, Gap;
    forall j | 0 <= j < |m|
      ensures !m[j].parked
    {
      assert RangeOf(runs, s[j], m[j]);
    }
  }

  /** What a clip with a gap is cut into.  The entries of the result stand for spans of runs in order: a boundary for
      every gap, and for every longest stretch without one that has points a segment with exactly the points and
      slice entries between its bounds and its start time. */
  lemma {:induction false} SegmentsAre(clip: Clip) returns (at: seq<Span>)
    requires var runs := clip.s.gearRuns;
             Upto(runs, |runs|) != 0 && exists i :: 0 <= i < |runs| && Gap(runs, i)
    ensures StandFor(clip, at, Segments(clip))
    ensures var runs := clip.s.gearRuns;
            && (forall i :: 0 <= i < |runs| && Gap(runs, i) ==> Span(i, i + 1) in at)
            && (forall t :: Inside(runs, t) && Stretch(runs, t) && Lo(clip, t) < Hi(clip, t) ==> t in at)
  {
    var runs := clip.s.gearRuns;
    UptoIsFrames(runs, |runs|);
    assert runs[..|runs|] == runs;
    var s := RangesFound(runs, |runs|);
    var m := Merged(runs, Frames(runs), |runs|);
    at := SegmentsFound(clip, s, m, |m|);
    hide Upto, Gap, Merged, Frames, Lo, Hi, StandFor, SegmentsFrom;
    forall i | 0 <= i < |runs| && Gap(runs, i)
      ensures Span(i, i + 1) in at && HasGap(m)
    {
      var j := GapIsSpan(runs, s, m, i);
    }
    forall t | Inside(runs, t) && Stretch(runs, t) && Lo(clip, t) < Hi(clip, t)
      ensures t in at
    {
      var j := StretchIsSpan(runs, s, m, t);
    }
  }

  lemma {:induction false} GapIsSpan(runs: seq<GearRun>, s: seq<Span>, m: seq<RawSeg>, i: nat) returns (j: nat)
    requires RangesOf(runs, s, m, |runs|) && i < |runs| && Gap(runs, i)
    ensures j < |s| && s[j] == Span(i, i + 1) && m[j].parked
  {
    j := SpanOf(runs, s, |runs|, i);
    hide Upto, Gap;
    assert RangeOf(runs, s[j], m[j]);
  }

  lemma {:induction false} UptoGrows(runs: seq<GearRun>, i: nat, j: nat)
    requires i <= j <= |runs| && forall k :: 0 <= k < |runs| ==> runs[k].frames >= 0
    ensures 0 <= Upto(runs, i) <= Upto(runs, j)
  {
    if j > 0 {
      UptoGrows(runs, if i == j then j - 1 else i, j - 1);
    }
  }

  /** Without negative counts the segments of a clip share no index, but for its last one, which the clamp can give to
      a later segment too. */
  lemma {:induction false} SegmentsShareNothing(clip: Clip, s: Span, t: Span)
    requires var runs := clip.s.gearRuns;
             && Upto(runs, |runs|) != 0 && (forall k :: 0 <= k < |runs| ==> runs[k].frames >= 0)
             && Inside(runs, s) && Inside(runs, t) && s.to <= t.from
    requires Lo(clip, s) < Hi(clip, s) && Lo(clip, t) < Hi(clip, t)
    ensures Hi(clip, s) <= Lo(clip, t) || Lo(clip, t) == |clip.s.points| - 1
  {
    var runs, n := clip.s.gearRuns, |clip.s.points|;
    UptoGrows(runs, s.to, t.from);
    UptoGrows(runs, 0, |runs|);
    var total := Upto(runs, |runs|);
    ScaledIs(Upto(runs, s.to), total, n);
    ScaledIs(Upto(runs, t.from), total, n);
    ScaledMonotone(Upto(runs, s.to), Upto(runs, t.from), total, n);
    hide Upto, Nearest, Scaled;
  }
}
