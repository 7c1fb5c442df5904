/** One drive from its clips, twice: from raw points (the inner loop of GroupSummaries in
    server/drives/grouper.go) and from cached rows (GroupSummariesFromSummaries in
    server/drives/grouper_summaries.go).  Fields that only convert units are not repeated. */
module DriveSummary {
  import opened DriveTypes
  import opened PairWalk
  import opened FsdEvents
  import opened Aggregate

  function Share(part: real, total: real): real {
    if total > 0.0 then Round(part / total * 1000.0) as real / 10.0 else 0.0
  }

  datatype DriveStats = DriveStats(
    totals: Totals, avgSpeed: real, pointCount: nat, start: Option<Point>, end: Option<Point>)

  function Finish(t: Totals, pointCount: nat, start: Option<Point>, end: Option<Point>): DriveStats {
    DriveStats(t, Average(t.speedSum, t.speedCount), pointCount, start, end)
  }

  // ----- from cached rows ---------------------------------------------------

  /** The speed sum behind a cached average. */
  function SpeedTotal(a: RouteAggregates): real {
    a.avgSpeed * a.speedCount as real
  }

  /** A cached row read back as totals. */
  function RowTotals(a: RouteAggregates): Totals {
    Totals(a.distance, SpeedTotal(a), a.speedCount, a.maxSpeed, a.fsdMs, a.autosteerMs, a.taccMs,
           a.fsdDist, a.autosteerDist, a.taccDist, a.assistedDist, a.disengagements, a.pushes)
  }

  ghost function RowSum(rows: seq<RouteAggregates>, k: nat): Totals
    requires k <= |rows|
  {
    if k == 0 then ZERO else Plus(RowSum(rows, k - 1), RowTotals(rows[k - 1]))
  }

  ghost function PointSum(rows: seq<RouteAggregates>, k: nat): nat
    requires k <= |rows|
  {
    if k == 0 then 0 else PointSum(rows, k - 1) + rows[k - 1].validPoints
  }

  ghost function FirstStart(rows: seq<RouteAggregates>, k: nat): Option<Point>
    requires k <= |rows|
  {
    if k == 0 then None else if FirstStart(rows, k - 1).Some? then FirstStart(rows, k - 1) else rows[k - 1].start
  }

  ghost function LastEnd(rows: seq<RouteAggregates>, k: nat): Option<Point>
    requires k <= |rows|
  {
    if k == 0 then None else if rows[k - 1].end.Some? then rows[k - 1].end else LastEnd(rows, k - 1)
  }

  function Jump(dist: Metric, from: Option<Point>, to: Option<Point>): (d: real)
    ensures d >= 0.0
  {
    if from.Some? && to.Some? then dist(from.value, to.value) else 0.0
  }

  /** The distances from the end of one clip with valid points to the start of the next. */
  ghost function Jumps(dist: Metric, rows: seq<RouteAggregates>, k: nat): (d: real)
    requires k <= |rows|
    ensures d >= 0.0
  {
    if k == 0 then 0.0 else Jumps(dist, rows, k - 1) + Jump(dist, LastEnd(rows, k - 1), rows[k - 1].start)
  }

  function Farther(t: Totals, d: real): Totals {
    t.(distance := t.distance + d)
  }

  ghost function CachedDrive(dist: Metric, rows: seq<RouteAggregates>): DriveStats {
    var n := |rows|;
    Finish(Farther(RowSum(rows, n), Jumps(dist, rows, n)), PointSum(rows, n), FirstStart(rows, n), LastEnd(rows, n))
  }

  method SummarizeFromRows(dist: Metric, rows: seq<RouteAggregates>) returns (d: DriveStats)
    ensures d == CachedDrive(dist, rows)
  {
    hide RowTotals, Plus, Farther, Jump;
    var sum, points := ZERO, 0;
    var start: Option<Point>, end: Option<Point> := None, None;
    NoJumpYet();
    for k := 0 to |rows|
      invariant sum == Farther(RowSum(rows, k), Jumps(dist, rows, k))
      invariant points == PointSum(rows, k) && start == FirstStart(rows, k) && end == LastEnd(rows, k)
    {
      var c := rows[k];
      JumpAddsUp(RowSum(rows, k), Jumps(dist, rows, k), RowTotals(c), Jump(dist, end, c.start));
      sum := AddRow(sum, c);
      sum := AddJump(dist, sum, end, c.start);
      points := points + c.validPoints;
      if start.None? && c.start.Some? {
        start := c.start;
      }
      if c.end.Some? {
        end := c.end;
      }
    }
    d := Finish(sum, points, start, end);
  }

  lemma NoJumpYet()
    ensures Farther(ZERO, 0.0) == ZERO
  {
  }

  lemma JumpAddsUp(t: Totals, jumps: real, c: Totals, jump: real)
    ensures Farther(Plus(Farther(t, jumps), c), jump) == Farther(Plus(t, c), jumps + jump)
  {
  }

  method AddRow(sum: Totals, c: RouteAggregates) returns (r: Totals)
    ensures r == Plus(sum, RowTotals(c))
  {
    hide SpeedTotal;
    r := Totals(sum.distance + c.distance, sum.speedSum + SpeedTotal(c), sum.speedCount + c.speedCount,
                if c.maxSpeed > sum.maxSpeed then c.maxSpeed else sum.maxSpeed,
                sum.fsdMs + c.fsdMs, sum.autosteerMs + c.autosteerMs, sum.taccMs + c.taccMs,
                sum.fsdDist + c.fsdDist, sum.autosteerDist + c.autosteerDist, sum.taccDist + c.taccDist,
                sum.assistedDist + c.assistedDist, sum.disengagements + c.disengagements, sum.pushes + c.pushes);
  }

  method AddJump(dist: Metric, sum: Totals, from: Option<Point>, to: Option<Point>) returns (r: Totals)
    ensures r == Farther(sum, Jump(dist, from, to))
  {
    r := sum;
    if from.Some? && to.Some? {
      r := r.(distance := r.distance + dist(from.value, to.value));
    }
  }

  // ----- the mask of the raw pass -------------------------------------------

  const MAX_FROM_MEDIAN := 1000000.0
  const MAX_JUMP := 5000.0

  function InCluster(dist: Metric, p: Point, median: Option<Point>): bool {
    median.None? || dist(p, median.value) <= MAX_FROM_MEDIAN
  }

  ghost function BaseMask(dist: Metric, points: seq<Point>, median: Option<Point>): (v: seq<bool>)
    ensures |v| == |points|
  {
    seq(|points|, i requires 0 <= i < |points| => !NullIsland(points[i]) && InCluster(dist, points[i], median))
  }

  /** Point i is far from its valid neighbours. */
  predicate Isolated(dist: Metric, points: seq<Point>, v: seq<bool>, i: nat)
    requires |v| == |points| && i < |points|
  {
    var hasPrev, hasNext := i > 0 && v[i - 1], i < |points| - 1 && v[i + 1];
    var farPrev := hasPrev && dist(points[i - 1], points[i]) > MAX_JUMP;
    var farNext := hasNext && dist(points[i], points[i + 1]) > MAX_JUMP;
    (hasPrev && hasNext && farPrev && farNext) || (!hasPrev && farNext) || (!hasNext && farPrev)
  }

  /** The neighbour filter: one pass that clears points in place, so later points see earlier removals. */
  ghost function Filter(dist: Metric, points: seq<Point>, v: seq<bool>, i: nat): (f: seq<bool>)
    requires |v| == |points| && i <= |points|
    ensures |f| == |points|
    decreases |points| - i
  {
    if i == |points| then v
    else Filter(dist, points, if v[i] && Isolated(dist, points, v, i) then v[i := false] else v, i + 1)
  }

  ghost function Mask(dist: Metric, points: seq<Point>, median: Option<Point>): (v: seq<bool>)
    ensures |v| == |points|
  {
    var base := BaseMask(dist, points, median);
    if |points| > 2 then Filter(dist, points, base, 0) else base
  }

  method ValidityMask(dist: Metric, points: seq<Point>, median: Option<Point>) returns (mask: seq<bool>)
    ensures mask == Mask(dist, points, median)
  {
    var n := |points|;
    var valid := new bool[n];
    for i := 0 to n
      invariant forall k :: 0 <= k < i ==> valid[k] == BaseMask(dist, points, median)[k]
    {
      valid[i] := !NullIsland(points[i]) && InCluster(dist, points[i], median);
    }
    assert valid[..] == BaseMask(dist, points, median);
    if n > 2 {
      for i := 0 to n
        invariant Filter(dist, points, valid[..], i) == Mask(dist, points, median)
      {
        ghost var before := valid[..];
        if valid[i] {
          var hasPrev, hasNext := i > 0 && valid[i - 1], i < n - 1 && valid[i + 1];
          var farPrev := hasPrev && dist(points[i - 1], points[i]) > MAX_JUMP;
          var farNext := hasNext && dist(points[i], points[i + 1]) > MAX_JUMP;
          if (hasPrev && hasNext && farPrev && farNext) || (!hasPrev && farNext) || (!hasNext && farPrev) {
            valid[i] := false;
            assert valid[..] == before[i := false];
          }
        }
      }
    }
    return valid[..];
  }

  /** No median or neighbour outliers: what the raw pass would remove beyond null-island points. */
  ghost predicate NoOutliers(dist: Metric, points: seq<Point>, median: Option<Point>) {
    forall i: nat :: i < |points| && !NullIsland(points[i]) ==>
      && InCluster(dist, points[i], median)
      && (|points| > 2 ==> !Isolated(dist, points, NonNull(points), i))
  }

  lemma {:induction false} FilterFixpoint(dist: Metric, points: seq<Point>, v: seq<bool>, i: nat)
    requires |v| == |points| && i <= |points|
    ensures forall j :: 0 <= j < |points| && Filter(dist, points, v, i)[j] ==> v[j]
    ensures Filter(dist, points, v, i) == v <==>
            forall j: nat :: i <= j < |points| ==> !(v[j] && Isolated(dist, points, v, j))
    decreases |points| - i
  {
    hide Isolated;
    if i < |points| {
      if v[i] && Isolated(dist, points, v, i) {
        FilterFixpoint(dist, points, v[i := false], i + 1);
        assert !Filter(dist, points, v, i)[i];
      } else {
        FilterFixpoint(dist, points, v, i + 1);
      }
    }
  }

  /** The raw pass keeps exactly the non-null points precisely when there are no outliers. */
  lemma MaskIsNonNull(dist: Metric, points: seq<Point>, median: Option<Point>)
    ensures Mask(dist, points, median) == NonNull(points) <==> NoOutliers(dist, points, median)
  {
    hide Isolated, InCluster, NullIsland, Filter;
    var base := BaseMask(dist, points, median);
    FilterFixpoint(dist, points, base, 0);
    var nn := NonNull(points);
    if Mask(dist, points, median) == nn {
      assert forall j :: 0 <= j < |points| && nn[j] ==> base[j];
      assert base == nn;
    }
    if NoOutliers(dist, points, median) {
      assert base == nn;
    }
  }

  // ----- the raw pass -------------------------------------------------------

  ghost function MaskedWalk(dist: Metric, median: Option<Point>, r: Route): (w: Walk)
    ensures w.Valid()
  {
    Walk(Slices(r), Mask(dist, r.points, median), dist)
  }

  ghost function RawSum(dist: Metric, median: Option<Point>, rs: seq<Route>, k: nat): Totals
    requires k <= |rs|
  {
    if k == 0 then ZERO
    else Plus(RawSum(dist, median, rs, k - 1), ClipTotals(MaskedWalk(dist, median, rs[k - 1])))
  }

  ghost function RawPoints(dist: Metric, median: Option<Point>, rs: seq<Route>, k: nat): nat
    requires k <= |rs|
  {
    if k == 0 then 0 else
      var v := Mask(dist, rs[k - 1].points, median);
      RawPoints(dist, median, rs, k - 1) + CountValid(v, |v|)
  }

  ghost function RawStart(dist: Metric, median: Option<Point>, rs: seq<Route>, k: nat): Option<Point>
    requires k <= |rs|
  {
    if k == 0 then None
    else if RawStart(dist, median, rs, k - 1).Some? then RawStart(dist, median, rs, k - 1)
    else FirstValid(rs[k - 1].points, Mask(dist, rs[k - 1].points, median), 0)
  }

  ghost function RawEnd(dist: Metric, median: Option<Point>, rs: seq<Route>, k: nat): Option<Point>
    requires k <= |rs|
  {
    if k == 0 then None else
      var e := LastValid(rs[k - 1].points, Mask(dist, rs[k - 1].points, median), |rs[k - 1].points|);
      if e.Some? then e else RawEnd(dist, median, rs, k - 1)
  }

  ghost function RawDrive(dist: Metric, median: Option<Point>, rs: seq<Route>): DriveStats {
    var n := |rs|;
    Finish(RawSum(dist, median, rs, n), RawPoints(dist, median, rs, n),
           RawStart(dist, median, rs, n), RawEnd(dist, median, rs, n))
  }

  method SummarizeFromPoints(dist: Metric, median: Option<Point>, rs: seq<Route>) returns (d: DriveStats)
    ensures d == RawDrive(dist, median, rs)
  {
    hide Plus, ClipTotals, Mask, FirstValid, LastValid, CountValid;
    var sum, points := ZERO, 0;
    var start: Option<Point>, end: Option<Point> := None, None;
    for k := 0 to |rs|
      invariant sum == RawSum(dist, median, rs, k) && sum.maxSpeed >= 0.0
      invariant points == RawPoints(dist, median, rs, k)
      invariant start == RawStart(dist, median, rs, k) && end == RawEnd(dist, median, rs, k)
    {
      var clip := rs[k];
      var n := |clip.points|;
      var valid := ValidityMask(dist, clip.points, median);
      var w := Walk(Slices(clip), valid, dist);
      ShortClip(w);
      if n == 0 {
        PlusZeroRight(sum);
        continue;
      }
      if start.None? {
        start := FindFirst(clip.points, valid);
      }
      var e := FindLast(clip.points, valid);
      if e.Some? {
        end := e;
      }
      var c := CountTrue(valid);
      points := points + c;
      MaxStays(sum, ClipTotals(w));
      sum := WalkClip(w, sum);
    }
    d := Finish(sum, points, start, end);
  }

  lemma PlusZeroRight(t: Totals)
    requires t.maxSpeed >= 0.0
    ensures Plus(t, ZERO) == t
  {
  }

  /** The centre of the middle half of all valid points, when there are more than two. */
  ghost function MedianOf(pts: seq<Point>): Option<Point> {
    if |pts| <= 2 then None else
      var q1, q3 := |pts| / 4, |pts| * 3 / 4;
      var count := (q3 - q1 + 1) as real;
      Some(Point(SumOf(pts, q1, q3 + 1).lat / count, SumOf(pts, q1, q3 + 1).lng / count))
  }

  ghost function SumOf(pts: seq<Point>, lo: nat, hi: nat): Point
    requires lo <= hi <= |pts|
  {
    if lo == hi then Point(0.0, 0.0) else
      var s := SumOf(pts, lo, hi - 1);
      Point(s.lat + pts[hi - 1].lat, s.lng + pts[hi - 1].lng)
  }

  ghost function ValidPoints(points: seq<Point>): seq<Point> {
    if points == [] then [] else
      ValidPoints(points[..|points| - 1])
      + if NullIsland(points[|points| - 1]) then [] else [points[|points| - 1]]
  }

  ghost function AllValid(rs: seq<Route>, k: nat): seq<Point>
    requires k <= |rs|
  {
    if k == 0 then [] else AllValid(rs, k - 1) + ValidPoints(rs[k - 1].points)
  }

  method MedianPoint(rs: seq<Route>) returns (m: Option<Point>)
    ensures m == MedianOf(AllValid(rs, |rs|))
  {
    var pts := [];
    for k := 0 to |rs|
      invariant pts == AllValid(rs, k)
    {
      var points := rs[k].points;
      for i := 0 to |points|
        invariant pts == AllValid(rs, k) + ValidPoints(points[..i])
      {
        assert points[..i + 1][..i] == points[..i];
        if !NullIsland(points[i]) {
          pts := pts + [points[i]];
        }
      }
      assert points[..|points|] == points;
    }
    if |pts| <= 2 {
      return None;
    }
    var q1, q3 := |pts| / 4, |pts| * 3 / 4;
    var sumLat, sumLng, count := 0.0, 0.0, 0;
    for i := q1 to q3 + 1
      invariant Point(sumLat, sumLng) == SumOf(pts, q1, i) && count == i - q1
    {
      sumLat, sumLng, count := sumLat + pts[i].lat, sumLng + pts[i].lng, count + 1;
    }
    return Some(Point(sumLat / count as real, sumLng / count as real));
  }

  // ----- the cached path refines the raw one --------------------------------

  ghost function Rows(dist: Metric, rs: seq<Route>): (rows: seq<RouteAggregates>)
    ensures |rows| == |rs| && forall i :: 0 <= i < |rs| ==> rows[i] == AggregatesOf(dist, rs[i])
  {
    seq(|rs|, i requires 0 <= i < |rs| => AggregatesOf(dist, rs[i]))
  }

  lemma {:induction false} NoSamplesNoSpeed(w: Walk, k: nat)
    requires w.Valid() && k <= w.N() && PairSum(w, k).speedCount == 0
    ensures PairSum(w, k).speedSum == 0.0
  {
    hide SpeedSample, InMode, Kept, Dt, D;
    if k > 1 {
      NoSamplesNoSpeed(w, k - 1);
    }
  }

  /** The cached row of a clip carries the totals of its walk; the average loses nothing. */
  lemma RowKeepsTotals(dist: Metric, r: Route)
    ensures RowTotals(AggregatesOf(dist, r)) == ClipTotals(RawWalk(dist, r))
  {
    hide PairSum, RealDisengagements, Pushes, Average;
    var w := RawWalk(dist, r);
    if PairSum(w, w.N()).speedCount == 0 {
      NoSamplesNoSpeed(w, w.N());
    }
  }

  ghost predicate CleanDrive(dist: Metric, median: Option<Point>, rs: seq<Route>) {
    forall i :: 0 <= i < |rs| ==> NoOutliers(dist, rs[i].points, median)
  }

  lemma {:induction false} SumsAgree(dist: Metric, median: Option<Point>, rs: seq<Route>, k: nat)
    requires k <= |rs| && CleanDrive(dist, median, rs)
    ensures RowSum(Rows(dist, rs), k) == RawSum(dist, median, rs, k)
    ensures PointSum(Rows(dist, rs), k) == RawPoints(dist, median, rs, k)
    ensures FirstStart(Rows(dist, rs), k) == RawStart(dist, median, rs, k)
    ensures LastEnd(Rows(dist, rs), k) == RawEnd(dist, median, rs, k)
  {
    hide ClipTotals, Plus, RowTotals, FirstValid, LastValid, CountValid, Mask, NoOutliers;
    if k > 0 {
      SumsAgree(dist, median, rs, k - 1);
      MaskIsNonNull(dist, rs[k - 1].points, median);
      RowKeepsTotals(dist, rs[k - 1]);
    }
  }

  /** On a drive without outliers the two paths agree on every event count, mode time, mode distance,
      speed, point count and end point; the cached total distance is larger by exactly the jumps
      between clips, so the two agree entirely just when those jumps add up to nothing. */
  lemma CachedDriveRefinesRaw(dist: Metric, median: Option<Point>, rs: seq<Route>)
    requires CleanDrive(dist, median, rs)
    ensures var cached, raw := CachedDrive(dist, Rows(dist, rs)), RawDrive(dist, median, rs);
            var jumps := Jumps(dist, Rows(dist, rs), |rs|);
            && cached == raw.(totals := Farther(raw.totals, jumps))
            && (cached == raw <==> jumps == 0.0)
  {
    hide Jumps, CleanDrive;
    SumsAgree(dist, median, rs, |rs|);
  }
}
