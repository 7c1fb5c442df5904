/** The outlier filter of the raw pass and the drive it leaves, in terms of coordinates and distances alone
    (server/drives/grouper.go lines 597-705). */
module Outliers {
  import opened DriveTypes
  import opened PairWalk
  import opened FsdEvents
  import opened Aggregate
  import opened DriveSummary
  import opened ClipRow

  // ----- the median ---------------------------------------------------------

  ghost function Lats(pts: seq<Point>): (lats: seq<real>)
    ensures |lats| == |pts|
  {
    seq(|pts|, i requires 0 <= i < |pts| => pts[i].lat)
  }

  ghost function Lngs(pts: seq<Point>): (lngs: seq<real>)
    ensures |lngs| == |pts|
  {
    seq(|pts|, i requires 0 <= i < |pts| => pts[i].lng)
  }

  ghost function Total(xs: seq<real>): real {
    if xs == [] then 0.0 else xs[0] + Total(xs[1..])
  }

  lemma {:induction false} TotalSnoc(xs: seq<real>, x: real)
    ensures Total(xs + [x]) == Total(xs) + x
  {
    if xs == [] {
      assert [x][1..] == [];
    } else {
      assert (xs + [x])[1..] == xs[1..] + [x];
      TotalSnoc(xs[1..], x);
    }
  }

  lemma {:induction false} SumIs(pts: seq<Point>, lo: nat, hi: nat)
    requires lo <= hi <= |pts|
    ensures SumOf(pts, lo, hi) == Point(Total(Lats(pts)[lo..hi]), Total(Lngs(pts)[lo..hi]))
  {
    if lo < hi {
      SumIs(pts, lo, hi - 1);
      var lats, lngs := Lats(pts), Lngs(pts);
      assert lats[lo..hi] == lats[lo..hi - 1] + [pts[hi - 1].lat];
      assert lngs[lo..hi] == lngs[lo..hi - 1] + [pts[hi - 1].lng];
      TotalSnoc(lats[lo..hi - 1], pts[hi - 1].lat);
      TotalSnoc(lngs[lo..hi - 1], pts[hi - 1].lng);
    }
  }

  lemma {:induction false} TotalBounds(xs: seq<real>, a: real, b: real)
    requires forall i :: 0 <= i < |xs| ==> a <= xs[i] <= b
    ensures a * |xs| as real <= Total(xs) <= b * |xs| as real
  {
    if xs != [] {
      TotalBounds(xs[1..], a, b);
    }
  }

  /** The middle half of a sequence, from the first quartile to the third and both included. */
  ghost function Middle(xs: seq<real>): (m: seq<real>)
    requires |xs| > 2
    ensures |m| > 0
  {
    xs[|xs| / 4..|xs| * 3 / 4 + 1]
  }

  /** `m` is the mean of `xs`. */
  ghost predicate IsMean(xs: seq<real>, m: real) { xs != [] && m * |xs| as real == Total(xs) }

  lemma {:induction false} MeanInside(xs: seq<real>, m: real, a: real, b: real)
    requires IsMean(xs, m) && forall i :: 0 <= i < |xs| ==> a <= xs[i] <= b
    ensures a <= m <= b
  {
    TotalBounds(xs, a, b);
    var n := |xs| as real;
    assert m < a ==> m * n < a * n;
    assert m > b ==> m * n > b * n;
  }

  /** Up to two points have no median.  More have one: its latitude is the mean of the latitudes of the middle half
      and its longitude that of the longitudes. */
  lemma {:induction false} MedianIsMean(pts: seq<Point>)
    ensures MedianOf(pts).None? <==> |pts| <= 2
    ensures |pts| > 2 ==>
              IsMean(Middle(Lats(pts)), MedianOf(pts).value.lat) && IsMean(Middle(Lngs(pts)), MedianOf(pts).value.lng)
  {
    if |pts| > 2 {
      var q1, q3 := |pts| / 4, |pts| * 3 / 4;
      var lats, lngs := Middle(Lats(pts)), Middle(Lngs(pts));
      SumIs(pts, q1, q3 + 1);
      assert |lats| == q3 - q1 + 1 == |lngs|;
      QuotientIsMean(lats, Total(lats));
      QuotientIsMean(lngs, Total(lngs));
      hide SumOf, Lats, Lngs, Total, IsMean;
    }
  }

  lemma QuotientIsMean(xs: seq<real>, total: real)
    requires xs != [] && total == Total(xs)
    ensures IsMean(xs, total / |xs| as real)
  {
    hide Total;
  }

  /** So each coordinate lies within any bounds of those of the middle half. */
  lemma {:induction false} MedianIsInside(pts: seq<Point>, lo: Point, hi: Point)
    requires |pts| > 2
    requires forall i :: |pts| / 4 <= i <= |pts| * 3 / 4 ==>
               lo.lat <= pts[i].lat <= hi.lat && lo.lng <= pts[i].lng <= hi.lng
    ensures MedianOf(pts).Some?
    ensures var m := MedianOf(pts).value; lo.lat <= m.lat <= hi.lat && lo.lng <= m.lng <= hi.lng
  {
    MedianIsMean(pts);
    hide MedianOf, Total;
    MeanInside(Middle(Lats(pts)), MedianOf(pts).value.lat, lo.lat, hi.lat);
    MeanInside(Middle(Lngs(pts)), MedianOf(pts).value.lng, lo.lng, hi.lng);
  }

  /** Equal points have themselves as median. */
  lemma {:induction false} MedianOfEqual(pts: seq<Point>, p: Point)
    requires |pts| > 2 && forall i :: 0 <= i < |pts| ==> pts[i] == p
    ensures MedianOf(pts) == Some(p)
  {
    MedianIsInside(pts, p, p);
    hide MedianOf;
  }

  // ----- the points it is taken of ------------------------------------------

  lemma {:induction false} ValidPointsConcat(a: seq<Point>, b: seq<Point>)
    ensures ValidPoints(a + b) == ValidPoints(a) + ValidPoints(b)
  {
    if b == [] {
      assert a + b == a;
    } else {
      var n := |b| - 1;
      assert (a + b)[..|a + b| - 1] == a + b[..n];
      ValidPointsConcat(a, b[..n]);
    }
  }

  /** The points of all clips, one after the other, without those near the origin. */
  ghost function PointsOnMap(rs: seq<Route>): seq<Point> {
    if rs == [] then [] else OnMapOf(rs[0].points) + PointsOnMap(rs[1..])
  }

  ghost function OnMapOf(points: seq<Point>): seq<Point> {
    if points == [] then [] else (if OnMap(points[0]) then [points[0]] else []) + OnMapOf(points[1..])
  }

  lemma {:induction false} ValidPointsAre(points: seq<Point>)
    ensures ValidPoints(points) == OnMapOf(points)
  {
    if points != [] {
      var p, rest := points[0], points[1..];
      assert points == [p] + rest;
      ValidPointsConcat([p], rest);
      ValidPointsAre(rest);
      assert [p][..0] == [];
      assert ValidPoints([p]) == if OnMap(p) then [p] else [];
    }
  }

  lemma {:induction false} PointsOnMapSnoc(rs: seq<Route>, r: Route)
    ensures PointsOnMap(rs + [r]) == PointsOnMap(rs) + OnMapOf(r.points)
  {
    if rs == [] {
      assert [r][1..] == [];
      assert rs + [r] == [r];
    } else {
      assert (rs + [r])[1..] == rs[1..] + [r];
      PointsOnMapSnoc(rs[1..], r);
    }
  }

  /** The median is taken over the points on the map of all clips, in order. */
  lemma {:induction false} MedianIsOfPoints(rs: seq<Route>, k: nat)
    requires k <= |rs|
    ensures AllValid(rs, k) == PointsOnMap(rs[..k])
  {
    if k > 0 {
      MedianIsOfPoints(rs, k - 1);
      assert rs[..k] == rs[..k - 1] + [rs[k - 1]];
      PointsOnMapSnoc(rs[..k - 1], rs[k - 1]);
      ValidPointsAre(rs[k - 1].points);
    }
  }

  // ----- the mask -----------------------------------------------------------

  /** On the map and, when there is a median, at most 1000 km from it. */
  ghost predicate Plausible(dist: Metric, p: Point, median: Option<Point>) {
    OnMap(p) && (median.Some? ==> dist(p, median.value) <= 1000000.0)
  }

  /** No farther than 5 km from each other. */
  ghost predicate Near(dist: Metric, p: Point, q: Point) { dist(p, q) <= 5000.0 }

  /** Point `i` stays: it is near the point before it, which stayed, or near the point after it, which was plausible,
      or neither is there. */
  ghost predicate Stays(dist: Metric, points: seq<Point>, mask: seq<bool>, median: Option<Point>, i: nat)
    requires |mask| == |points| && i < |points|
  {
    var before := i > 0 && mask[i - 1];
    var after := i + 1 < |points| && Plausible(dist, points[i + 1], median);
    && Plausible(dist, points[i], median)
    && (|points| <= 2 || (before && Near(dist, points[i - 1], points[i]))
        || (after && Near(dist, points[i], points[i + 1])) || (!before && !after))
  }

  /** One turn of the filter: `v` is the mask before it reaches point `j`, `f` the one it leaves. */
  ghost predicate Turn(dist: Metric, points: seq<Point>, v: seq<bool>, f: seq<bool>, j: nat)
    requires |v| == |points| == |f| && j < |points|
  {
    var prev, next := j > 0 && f[j - 1], j + 1 < |points| && v[j + 1];
    f[j] <==> && v[j]
              && ((prev && Near(dist, points[j - 1], points[j])) || (next && Near(dist, points[j], points[j + 1]))
                  || (!prev && !next))
  }

  lemma {:induction false} FilterTurns(dist: Metric, points: seq<Point>, v: seq<bool>, i: nat)
    requires |v| == |points| && i <= |points|
    ensures var f := Filter(dist, points, v, i);
            (forall j :: 0 <= j < i ==> f[j] == v[j]) && forall j :: i <= j < |points| ==> Turn(dist, points, v, f, j)
    decreases |points| - i
  {
    if i < |points| {
      var v2 := if v[i] && Isolated(dist, points, v, i) then v[i := false] else v;
      FilterTurns(dist, points, v2, i + 1);
      var f := Filter(dist, points, v, i);
      assert Filter(dist, points, v2, i + 1) == f;
      hide Filter;
      forall j | i <= j < |points|
        ensures Turn(dist, points, v, f, j)
      {
        if j > i {
          assert Turn(dist, points, v2, f, j);
        }
      }
    }
  }

  lemma TurnIsStay(dist: Metric, points: seq<Point>, base: seq<bool>, mask: seq<bool>, median: Option<Point>, i: nat)
    requires |base| == |points| == |mask| && i < |points|
    requires forall j :: 0 <= j < |points| ==> (base[j] <==> Plausible(dist, points[j], median))
    requires if |points| > 2 then Turn(dist, points, base, mask, i) else mask == base
    ensures mask[i] <==> Stays(dist, points, mask, median, i)
  {
    hide Plausible, Near;
  }

  /** A point is in the mask exactly when it stays: removals are seen from behind only. */
  lemma {:induction false} MaskIs(dist: Metric, points: seq<Point>, median: Option<Point>)
    ensures var mask := Mask(dist, points, median);
            forall i :: 0 <= i < |points| ==> (mask[i] <==> Stays(dist, points, mask, median, i))
  {
    var base, mask := BaseMask(dist, points, median), Mask(dist, points, median);
    assert forall i :: 0 <= i < |points| ==> (base[i] <==> Plausible(dist, points[i], median));
    FilterTurns(dist, points, base, 0);
    hide BaseMask, Filter, Isolated, Plausible, Near, Turn, Stays;
    forall i | 0 <= i < |points|
      ensures mask[i] <==> Stays(dist, points, mask, median, i)
    {
      TurnIsStay(dist, points, base, mask, median, i);
    }
  }

  /** A plausible point within 5 km of a neighbour that the mask keeps is kept; one that is cleared has a neighbour
      farther away than that. */
  lemma {:induction false} NeighboursDecide(dist: Metric, points: seq<Point>, median: Option<Point>, i: nat)
    requires i < |points|
    ensures var mask := Mask(dist, points, median);
            && (mask[i] ==> Plausible(dist, points[i], median))
            && (Plausible(dist, points[i], median) && i > 0 && mask[i - 1] && Near(dist, points[i - 1], points[i]) ==>
                  mask[i])
            && (Plausible(dist, points[i], median) && i + 1 < |points| && mask[i + 1]
                && Near(dist, points[i], points[i + 1]) ==>
                  mask[i])
            && (Plausible(dist, points[i], median) && !mask[i] ==>
                  || (i > 0 && mask[i - 1] && !Near(dist, points[i - 1], points[i]))
                  || (i + 1 < |points| && Plausible(dist, points[i + 1], median)
                      && !Near(dist, points[i], points[i + 1])))
  {
    MaskIs(dist, points, median);
    hide Mask, Plausible;
    if i + 1 < |points| {
      assert Mask(dist, points, median)[i + 1] ==> Stays(dist, points, Mask(dist, points, median), median, i + 1);
    }
  }

  // ----- the drive that is left ---------------------------------------------

  /** The points of a clip that its mask keeps, in order. */
  ghost function KeptPoints(points: seq<Point>, mask: seq<bool>): seq<Point>
    requires |mask| == |points|
  {
    if points == [] then []
    else (if mask[0] then [points[0]] else []) + KeptPoints(points[1..], mask[1..])
  }

  ghost function First(pts: seq<Point>): Option<Point> { if pts == [] then None else Some(pts[0]) }

  ghost function Last(pts: seq<Point>): Option<Point> { if pts == [] then None else Some(pts[|pts| - 1]) }

  ghost function OrElse(p: Option<Point>, q: Option<Point>): Option<Point> { if p.Some? then p else q }

  lemma {:induction false} KeptSnoc(points: seq<Point>, mask: seq<bool>, p: Point, b: bool)
    requires |mask| == |points|
    ensures KeptPoints(points + [p], mask + [b]) == KeptPoints(points, mask) + if b then [p] else []
  {
    if points == [] {
      assert points + [p] == [p] && mask + [b] == [b];
      assert [p][1..] == [] && [b][1..] == [];
    } else {
      assert (points + [p])[1..] == points[1..] + [p] && (mask + [b])[1..] == mask[1..] + [b];
      KeptSnoc(points[1..], mask[1..], p, b);
    }
  }

  lemma {:induction false} KeptTo(points: seq<Point>, mask: seq<bool>, k: nat)
    requires |mask| == |points| && k <= |points|
    ensures var kept := KeptPoints(points[..k], mask[..k]);
            CountValid(mask, k) == |kept| && LastValid(points, mask, k) == Last(kept)
  {
    if k > 0 {
      KeptTo(points, mask, k - 1);
      assert points[..k] == points[..k - 1] + [points[k - 1]] && mask[..k] == mask[..k - 1] + [mask[k - 1]];
      KeptSnoc(points[..k - 1], mask[..k - 1], points[k - 1], mask[k - 1]);
    }
  }

  lemma {:induction false} KeptFrom(points: seq<Point>, mask: seq<bool>, i: nat)
    requires |mask| == |points| && i <= |points|
    ensures FirstValid(points, mask, i) == First(KeptPoints(points[i..], mask[i..]))
    decreases |points| - i
  {
    if i < |points| {
      KeptFrom(points, mask, i + 1);
      assert points[i..][1..] == points[i + 1..] && mask[i..][1..] == mask[i + 1..];
    }
  }

  /** `c` is what one clip adds to a drive, `jump` the distance from the clips before it. */
  ghost predicate Adds(a: Totals, c: Totals, jump: real, b: Totals) {
    && b.distance == a.distance + c.distance + jump
    && b.speedSum == a.speedSum + c.speedSum && b.speedCount == a.speedCount + c.speedCount
    && b.maxSpeed == (if a.maxSpeed < c.maxSpeed then c.maxSpeed else a.maxSpeed)
    && b.fsdMs == a.fsdMs + c.fsdMs && b.fsdDist == a.fsdDist + c.fsdDist
    && b.autosteerMs == a.autosteerMs + c.autosteerMs && b.autosteerDist == a.autosteerDist + c.autosteerDist
    && b.taccMs == a.taccMs + c.taccMs && b.taccDist == a.taccDist + c.taccDist
    && b.assistedDist == a.assistedDist + c.assistedDist
    && b.disengagements == a.disengagements + c.disengagements && b.pushes == a.pushes + c.pushes
  }

  ghost predicate Averages(d: DriveStats) {
    if d.totals.speedCount > 0 then d.avgSpeed * d.totals.speedCount as real == d.totals.speedSum else d.avgSpeed == 0.0
  }

  lemma {:induction false} SamePrefix(dist: Metric, median: Option<Point>, rs: seq<Route>, more: seq<Route>, k: nat)
    requires k <= |rs| && rs <= more
    ensures RawSum(dist, median, rs, k) == RawSum(dist, median, more, k)
    ensures RawPoints(dist, median, rs, k) == RawPoints(dist, median, more, k)
    ensures RawStart(dist, median, rs, k) == RawStart(dist, median, more, k)
    ensures RawEnd(dist, median, rs, k) == RawEnd(dist, median, more, k)
  {
    hide ClipTotals, Plus, Mask, FirstValid, LastValid, CountValid;
    if k > 0 {
      SamePrefix(dist, median, rs, more, k - 1);
    }
  }

  lemma PlusAdds(a: Totals, c: Totals, jumps: real, jump: real)
    ensures Adds(Farther(a, jumps), c, jump, Farther(Plus(a, c), jumps + jump))
    ensures Adds(a, c, 0.0, Plus(a, c))
  {
  }

  lemma FinishIs(t: Totals, pointCount: nat, start: Option<Point>, end: Option<Point>)
    ensures var d := Finish(t, pointCount, start, end);
            d.totals == t && d.pointCount == pointCount && d.start == start && d.end == end && Averages(d)
  {
  }

  lemma {:induction false} RawSnoc(dist: Metric, median: Option<Point>, rs: seq<Route>, r: Route)
    ensures var n, more, mask := |rs|, rs + [r], Mask(dist, r.points, median);
            && RawSum(dist, median, more, n + 1) ==
               Plus(RawSum(dist, median, rs, n), ClipTotals(MaskedWalk(dist, median, r)))
            && RawPoints(dist, median, more, n + 1) == RawPoints(dist, median, rs, n) + CountValid(mask, |mask|)
            && RawStart(dist, median, more, n + 1) ==
               OrElse(RawStart(dist, median, rs, n), FirstValid(r.points, mask, 0))
            && RawEnd(dist, median, more, n + 1) ==
               OrElse(LastValid(r.points, mask, |r.points|), RawEnd(dist, median, rs, n))
  {
    hide ClipTotals, Plus, Mask, FirstValid, LastValid, CountValid, MaskedWalk;
    SamePrefix(dist, median, rs, rs + [r], |rs|);
    assert (rs + [r])[|rs|] == r;
  }

  lemma RawDriveIs(dist: Metric, median: Option<Point>, rs: seq<Route>)
    ensures var d, n := RawDrive(dist, median, rs), |rs|;
            && d.totals == RawSum(dist, median, rs, n) && d.pointCount == RawPoints(dist, median, rs, n)
            && d.start == RawStart(dist, median, rs, n) && d.end == RawEnd(dist, median, rs, n) && Averages(d)
  {
    hide RawSum, RawPoints, RawStart, RawEnd, Finish, Averages;
    FinishIs(RawSum(dist, median, rs, |rs|), RawPoints(dist, median, rs, |rs|), RawStart(dist, median, rs, |rs|),
             RawEnd(dist, median, rs, |rs|));
  }

  /** One more clip in the raw pass: its masked points are counted and give the drive its ends, and what the walk over
      them adds up (see ClipRow.TotalsAre) is added. */
  lemma {:induction false} OneMoreClip(dist: Metric, median: Option<Point>, rs: seq<Route>, r: Route)
    ensures var a, b, w := RawDrive(dist, median, rs), RawDrive(dist, median, rs + [r]), MaskedWalk(dist, median, r);
            var kept := KeptPoints(r.points, Mask(dist, r.points, median));
            && w.dist == dist && w.r.points == r.points && w.r.speeds == r.speeds && w.r.ap == r.ap
            && w.r.gears == r.gears && w.r.accel == r.accel && w.valid == Mask(dist, r.points, median)
            && Adds(a.totals, ClipTotals(w), 0.0, b.totals) && Averages(b)
            && b.pointCount == a.pointCount + |kept|
            && b.start == OrElse(a.start, First(kept)) && b.end == OrElse(Last(kept), a.end)
  {
    hide *;
    var n, mask := |r.points|, Mask(dist, r.points, median);
    MaskedData(dist, median, r);
    KeptTo(r.points, mask, n);
    KeptFrom(r.points, mask, 0);
    assert r.points[..n] == r.points && mask[..n] == mask && r.points[0..] == r.points && mask[0..] == mask;
    PlusAdds(RawSum(dist, median, rs, |rs|), ClipTotals(MaskedWalk(dist, median, r)), 0.0, 0.0);
    RawSnoc(dist, median, rs, r);
    RawDriveIs(dist, median, rs);
    RawDriveIs(dist, median, rs + [r]);
  }

  lemma MaskedData(dist: Metric, median: Option<Point>, r: Route)
    ensures var w := MaskedWalk(dist, median, r);
            && w.dist == dist && w.r.points == r.points && w.r.speeds == r.speeds && w.r.ap == r.ap
            && w.r.gears == r.gears && w.r.accel == r.accel && w.valid == Mask(dist, r.points, median)
  {
    hide Mask;
  }

  lemma {:induction false} SameRows(dist: Metric, rows: seq<RouteAggregates>, more: seq<RouteAggregates>, k: nat)
    requires k <= |rows| && rows <= more
    ensures RowSum(rows, k) == RowSum(more, k) && PointSum(rows, k) == PointSum(more, k)
    ensures FirstStart(rows, k) == FirstStart(more, k) && LastEnd(rows, k) == LastEnd(more, k)
    ensures Jumps(dist, rows, k) == Jumps(dist, more, k)
  {
    hide RowTotals, Plus, Jump;
    if k > 0 {
      SameRows(dist, rows, more, k - 1);
    }
  }

  lemma {:induction false} RowSnoc(dist: Metric, rows: seq<RouteAggregates>, c: RouteAggregates)
    ensures var n, more := |rows|, rows + [c];
            var end := LastEnd(rows, n);
            && RowSum(more, n + 1) == Plus(RowSum(rows, n), RowTotals(c))
            && PointSum(more, n + 1) == PointSum(rows, n) + c.validPoints
            && FirstStart(more, n + 1) == OrElse(FirstStart(rows, n), c.start)
            && LastEnd(more, n + 1) == OrElse(c.end, end)
            && Jumps(dist, more, n + 1) ==
               Jumps(dist, rows, n) + if end.Some? && c.start.Some? then dist(end.value, c.start.value) else 0.0
  {
    hide RowTotals, Plus;
    SameRows(dist, rows, rows + [c], |rows|);
    assert (rows + [c])[|rows|] == c;
  }

  lemma CachedDriveIs(dist: Metric, rows: seq<RouteAggregates>)
    ensures var d, n := CachedDrive(dist, rows), |rows|;
            && d.totals == Farther(RowSum(rows, n), Jumps(dist, rows, n)) && d.pointCount == PointSum(rows, n)
            && d.start == FirstStart(rows, n) && d.end == LastEnd(rows, n) && Averages(d)
  {
    hide RowSum, PointSum, FirstStart, LastEnd, Jumps, Finish, Averages, Farther;
    var n := |rows|;
    FinishIs(Farther(RowSum(rows, n), Jumps(dist, rows, n)), PointSum(rows, n), FirstStart(rows, n), LastEnd(rows, n));
  }

  lemma RowTotalsAre(c: RouteAggregates)
    ensures RowTotals(c) ==
            Totals(c.distance, c.avgSpeed * c.speedCount as real, c.speedCount, c.maxSpeed, c.fsdMs, c.autosteerMs,
                   c.taccMs, c.fsdDist, c.autosteerDist, c.taccDist, c.assistedDist, c.disengagements, c.pushes)
  {
  }

  /** One more row in the cached pass: besides its sums it adds the distance from the last end before it to its
      start. */
  lemma {:induction false} OneMoreRow(dist: Metric, rows: seq<RouteAggregates>, c: RouteAggregates)
    ensures var a, b := CachedDrive(dist, rows), CachedDrive(dist, rows + [c]);
            var jump := if a.end.Some? && c.start.Some? then dist(a.end.value, c.start.value) else 0.0;
            && Adds(a.totals, Totals(c.distance, c.avgSpeed * c.speedCount as real, c.speedCount, c.maxSpeed, c.fsdMs,
                                     c.autosteerMs, c.taccMs, c.fsdDist, c.autosteerDist, c.taccDist, c.assistedDist,
                                     c.disengagements, c.pushes), jump, b.totals)
            && Averages(b) && b.pointCount == a.pointCount + c.validPoints
            && b.start == OrElse(a.start, c.start) && b.end == OrElse(c.end, a.end)
  {
    hide CachedDrive, RowSum, PointSum, FirstStart, LastEnd, Jumps, Plus, Adds, Averages, OrElse, RowTotals;
    var n := |rows|;
    RowTotalsAre(c);
    RowSnoc(dist, rows, c);
    CachedDriveIs(dist, rows);
    CachedDriveIs(dist, rows + [c]);
    var end := LastEnd(rows, n);
    PlusAdds(RowSum(rows, n), RowTotals(c), Jumps(dist, rows, n),
             if end.Some? && c.start.Some? then dist(end.value, c.start.value) else 0.0);
    hide Farther;
  }

  /** A drive without clips. */
  lemma {:induction false} NoClips(dist: Metric, median: Option<Point>)
    ensures RawDrive(dist, median, []) == CachedDrive(dist, [])
    ensures CachedDrive(dist, []) ==
            DriveStats(Totals(0.0, 0.0, 0, 0.0, 0, 0, 0, 0.0, 0.0, 0.0, 0.0, 0, 0), 0.0, 0, None, None)
  {
  }
}
