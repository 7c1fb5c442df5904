/** ComputeRouteAggregates (server/drives/aggregate.go): one pass over a clip. */
module Aggregate {
  import opened DriveTypes
  import opened PairWalk
  import opened FsdEvents

  /** Everything the pair walk adds up over one clip. */
  ghost function ClipTotals(w: Walk): Totals
    requires w.Valid()
  {
    PairSum(w, w.N()).(disengagements := |RealDisengagements(w)|, pushes := |Pushes(w)|)
  }

  method WalkClip(w: Walk, t0: Totals) returns (t: Totals)
    requires w.Valid() && w.N() > 0 && t0.maxSpeed >= 0.0
    ensures t == Plus(t0, ClipTotals(w))
  {
    hide HasSei, GpsSpeed, D, Dt, PairTotals, DisengageInv, PedalInv, DisengageNext, PedalNext, RealDisengagements,
         Pushes, Plus, LastEngage;
    var n := w.N();
    var hasSei := SeiSpeedsPresent(w);
    var sum, dis, pedal := t0, Pending(false, 0, 0), Pedal(false, -1, 0);
    StartInv(w, t0);
    for i := 1 to n
      invariant sum == Plus(t0, PairSum(w, i)) && sum.maxSpeed >= 0.0
      invariant DisengageInv(w, i, dis) && PedalInv(w, i, pedal)
    {
      PlusAssociative(t0, PairSum(w, i), PairTotals(w, i));
      if !w.valid[i - 1] || !w.valid[i] || (!hasSei && GpsSpeed(w, i) > 70.0) {
        SkippedPair(w, i, dis, pedal);
        PlusZero(t0, PairSum(w, i));
        continue;
      }
      MaxStays(sum, PairTotals(w, i));
      sum := AddPair(w, i, hasSei, sum);
      if w.HasAP() {
        var dis', pedal' := dis, pedal;
        InvMeans(w, i, dis, pedal);
        dis' := TrackDisengage(w, i, dis);
        pedal' := TrackPedal(w, i, pedal);
        DisengageStep(w, i, dis, dis');
        PedalStep(w, i, pedal, pedal');
        dis, pedal := dis', pedal';
      } else {
        UntrackedPair(w, i, dis, pedal);
      }
    }
    FlushCountsReal(w, dis);
    PedalCounts(w, pedal);
    if dis.waiting {
      if !(w.HasGears() && w.r.gears[n - 1] == PARK) {
        dis := dis.(count := dis.count + 1);
      }
    }
    t := sum.(disengagements := sum.disengagements + dis.count, pushes := sum.pushes + pedal.count);
    CountsApart(w, t0, t);
  }

  lemma StartInv(w: Walk, t0: Totals)
    requires w.Valid() && t0.maxSpeed >= 0.0
    ensures DisengageInv(w, 1, Pending(false, 0, 0)) && PedalInv(w, 1, Pedal(false, -1, 0))
    ensures t0 == Plus(t0, ZERO)
  {
    hide HasSei, GpsSpeed;
    assert !Kept(w, 0);
    NothingAt(w, 0, Pending(false, 0, 0));
    hide Engages, Press, Disengages, Release;
    assert LastEngage(w, 0) == -1;
    assert Settled(w, 1) == {} && PushesBefore(w, 1) == {};
  }

  lemma PlusAssociative(a: Totals, b: Totals, c: Totals)
    ensures Plus(Plus(a, b), c) == Plus(a, Plus(b, c))
  {
  }

  lemma PlusZero(a: Totals, b: Totals)
    requires Plus(a, b).maxSpeed >= 0.0
    ensures Plus(Plus(a, b), ZERO) == Plus(a, b)
  {
  }

  lemma MaxStays(a: Totals, b: Totals)
    ensures Plus(a, b).maxSpeed >= a.maxSpeed
  {
  }

  lemma InvMeans(w: Walk, i: nat, s: Pending, q: Pedal)
    requires w.Valid() && DisengageInv(w, i, s) && PedalInv(w, i, q)
    ensures (s.waiting ==> s.idx < i) && q.engageIdx == LastEngage(w, i)
  {
  }

  lemma {:induction false} SkippedPair(w: Walk, i: nat, s: Pending, q: Pedal)
    requires w.Valid() && 1 <= i < w.N() && DisengageInv(w, i, s) && PedalInv(w, i, q)
    requires !Kept(w, i)
    ensures DisengageInv(w, i + 1, s) && PedalInv(w, i + 1, q) && PairTotals(w, i) == ZERO
  {
    hide DisengageInv, PedalInv, Kept;
    NothingAt(w, i, s);
    DisengageStep(w, i, s, s);
    PedalStep(w, i, q, q);
  }

  lemma UntrackedPair(w: Walk, i: nat, s: Pending, q: Pedal)
    requires w.Valid() && DisengageInv(w, i, s) && PedalInv(w, i, q)
    requires !w.HasAP()
    ensures DisengageInv(w, i + 1, s) && PedalInv(w, i + 1, q)
  {
    hide DisengageInv, PedalInv;
    NothingAt(w, i, s);
    DisengageStep(w, i, s, s);
    PedalStep(w, i, q, q);
  }

  lemma NothingAt(w: Walk, i: nat, s: Pending)
    requires w.Valid() && (!Kept(w, i) || !w.HasAP())
    ensures !Disengages(w, i) && !Engages(w, i) && !Press(w, i) && !Release(w, i) && !Forgets(w, i)
    ensures forall p: nat :: !Event(w, p, i)
  {
    hide Kept, ParkInWindow, RealAt;
  }

  lemma PedalCounts(w: Walk, q: Pedal)
    requires w.Valid() && PedalInv(w, w.N(), q)
    ensures q.count == |Pushes(w)|
  {
    hide LastEngage, Armed, Engages;
    assert PushesBefore(w, w.N()) == Pushes(w);
  }

  lemma PairFacts(w: Walk, i: nat)
    requires w.Valid() && 1 <= i < w.N()
    ensures var t := PairTotals(w, i); t.disengagements == 0 && t.pushes == 0 && t.maxSpeed >= 0.0
  {
    hide SpeedSample, InMode, Kept, Dt, D;
  }

  lemma {:induction false} PairSumHasNoCounts(w: Walk, k: nat)
    requires w.Valid() && k <= w.N()
    ensures var t := PairSum(w, k); t.disengagements == 0 && t.pushes == 0 && t.maxSpeed >= 0.0
  {
    hide PairTotals;
    if k > 1 {
      PairSumHasNoCounts(w, k - 1);
      PairFacts(w, k - 1);
    }
  }

  lemma {:induction false} CountsApart(w: Walk, t0: Totals, t: Totals)
    requires w.Valid()
    requires var sum := Plus(t0, PairSum(w, w.N()));
             t == sum.(disengagements := sum.disengagements + |RealDisengagements(w)|,
                       pushes := sum.pushes + |Pushes(w)|)
    ensures t == Plus(t0, ClipTotals(w))
  {
    hide PairSum, RealDisengagements, Pushes;
    PairSumHasNoCounts(w, w.N());
  }

  // ----- the cached row -----------------------------------------------------

  datatype RouteAggregates = RouteAggregates(
    distance: real, maxSpeed: real, avgSpeed: real, speedCount: nat, validPoints: nat,
    fsdMs: int, autosteerMs: int, taccMs: int,
    fsdDist: real, autosteerDist: real, taccDist: real, assistedDist: real,
    disengagements: nat, pushes: nat, start: Option<Point>, end: Option<Point>)

  const EMPTY := RouteAggregates(0.0, 0.0, 0.0, 0, 0, 0, 0, 0, 0.0, 0.0, 0.0, 0.0, 0, 0, None, None)

  /** The first valid point from `i` on. */
  ghost function FirstValid(points: seq<Point>, valid: seq<bool>, i: nat): Option<Point>
    requires |valid| == |points| && i <= |points|
    decreases |points| - i
  {
    if i == |points| then None else if valid[i] then Some(points[i]) else FirstValid(points, valid, i + 1)
  }

  /** The last valid point before `k`. */
  ghost function LastValid(points: seq<Point>, valid: seq<bool>, k: nat): Option<Point>
    requires |valid| == |points| && k <= |points|
  {
    if k == 0 then None else if valid[k - 1] then Some(points[k - 1]) else LastValid(points, valid, k - 1)
  }

  ghost function CountValid(valid: seq<bool>, k: nat): nat
    requires k <= |valid|
  {
    if k == 0 then 0 else CountValid(valid, k - 1) + if valid[k - 1] then 1 else 0
  }

  function Average(sum: real, count: nat): (a: real)
    ensures a * count as real == if count > 0 then sum else 0.0
  {
    if count > 0 then sum / count as real else 0.0
  }

  function Row(t: Totals, validPoints: nat, start: Option<Point>, end: Option<Point>): RouteAggregates {
    RouteAggregates(t.distance, t.maxSpeed, Average(t.speedSum, t.speedCount), t.speedCount, validPoints,
                    t.fsdMs, t.autosteerMs, t.taccMs, t.fsdDist, t.autosteerDist, t.taccDist, t.assistedDist,
                    t.disengagements, t.pushes, start, end)
  }

  function RawWalk(dist: Metric, r: Route): (w: Walk)
    ensures w.Valid()
  {
    Walk(Slices(r), NonNull(r.points), dist)
  }

  /** The aggregates of a clip, as sums and sets over its points. */
  ghost function AggregatesOf(dist: Metric, r: Route): RouteAggregates {
    var w := RawWalk(dist, r);
    Row(ClipTotals(w), CountValid(w.valid, w.N()),
        FirstValid(r.points, w.valid, 0), LastValid(r.points, w.valid, w.N()))
  }

  method FindFirst(points: seq<Point>, valid: seq<bool>) returns (p: Option<Point>)
    requires |valid| == |points|
    ensures p == FirstValid(points, valid, 0)
  {
    for i := 0 to |points|
      invariant FirstValid(points, valid, i) == FirstValid(points, valid, 0)
    {
      if valid[i] {
        return Some(points[i]);
      }
    }
    return None;
  }

  method FindLast(points: seq<Point>, valid: seq<bool>) returns (p: Option<Point>)
    requires |valid| == |points|
    ensures p == LastValid(points, valid, |points|)
  {
    for k := |points| downto 0
      invariant LastValid(points, valid, k) == LastValid(points, valid, |points|)
    {
      if valid[k] {
        return Some(points[k]);
      }
    }
    return None;
  }

  method CountTrue(valid: seq<bool>) returns (c: nat)
    ensures c == CountValid(valid, |valid|)
  {
    c := 0;
    for i := 0 to |valid|
      invariant c == CountValid(valid, i)
    {
      if valid[i] {
        c := c + 1;
      }
    }
  }

  method ComputeRouteAggregates(dist: Metric, r: Route) returns (agg: RouteAggregates)
    ensures agg == AggregatesOf(dist, r)
  {
    hide ClipTotals, Plus, FirstValid, LastValid, CountValid;
    var w := RawWalk(dist, r);
    var n := w.N();
    ShortClip(w);
    if n == 0 {
      return EMPTY;
    }
    var start := FindFirst(r.points, w.valid);
    var end := FindLast(r.points, w.valid);
    var validPoints := CountTrue(w.valid);
    if n < 2 {
      return Row(ZERO, validPoints, start, end);
    }
    var t := WalkClip(w, ZERO);
    FromZero(w);
    return Row(t, validPoints, start, end);
  }

  lemma ShortClip(w: Walk)
    requires w.Valid()
    ensures w.N() < 2 ==> ClipTotals(w) == ZERO
    ensures w.N() == 0 ==> FirstValid(w.r.points, w.valid, 0) == None && LastValid(w.r.points, w.valid, 0) == None
    ensures CountValid(w.valid, 0) == 0
  {
    hide Real, Push;
    if w.N() < 2 {
      assert RealDisengagements(w) == {} && Pushes(w) == {};
    }
  }

  lemma FromZero(w: Walk)
    requires w.Valid()
    ensures Plus(ZERO, ClipTotals(w)) == ClipTotals(w)
  {
    hide PairSum, RealDisengagements, Pushes;
    PairSumHasNoCounts(w, w.N());
  }
}
