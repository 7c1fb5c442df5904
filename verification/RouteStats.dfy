/** The statistics of the whole drive history from the points of every clip (ComputeAggregateStatsFromRoutes in
    server/drives/grouper.go), against those from cached rows, which are documented to be bit-identical. */
module RouteStats {
  import opened DriveTypes
  import opened PairWalk
  import opened FsdEvents
  import opened Aggregate
  import opened Lookahead
  import opened Grouping
  import opened ParkGaps
  import opened GearCount
  import opened Stats

  // ----- distances and times ------------------------------------------------

  datatype Miles = Miles(
    distance: real, seiDistance: real,
    fsdMs: int, autosteerMs: int, taccMs: int, fsdDist: real, autosteerDist: real, taccDist: real)

  const NO_MILES := Miles(0.0, 0.0, 0, 0, 0, 0.0, 0.0, 0.0)

  function AddMiles(a: Miles, b: Miles): Miles {
    Miles(a.distance + b.distance, a.seiDistance + b.seiDistance,
          a.fsdMs + b.fsdMs, a.autosteerMs + b.autosteerMs, a.taccMs + b.taccMs,
          a.fsdDist + b.fsdDist, a.autosteerDist + b.autosteerDist, a.taccDist + b.taccDist)
  }

  lemma MilesLaws(a: Miles, b: Miles, c: Miles, d: Miles)
    ensures AddMiles(AddMiles(a, b), AddMiles(c, d)) == AddMiles(AddMiles(a, c), AddMiles(b, d))
    ensures AddMiles(a, AddMiles(b, c)) == AddMiles(AddMiles(a, b), c)
    ensures AddMiles(a, NO_MILES) == a && AddMiles(NO_MILES, a) == a
  {
  }

  ghost function SumMiles(ms: seq<Miles>): Miles {
    if ms == [] then NO_MILES else AddMiles(SumMiles(ms[..|ms| - 1]), ms[|ms| - 1])
  }

  /** A Tessie clip adds to the total distance alone. */
  function ClipMiles(t: Totals, tessie: bool): Miles {
    if tessie then NO_MILES.(distance := t.distance)
    else Miles(t.distance, t.distance, t.fsdMs, t.autosteerMs, t.taccMs, t.fsdDist, t.autosteerDist, t.taccDist)
  }

  lemma ClipMilesAdd(a: Totals, b: Totals, tessie: bool)
    ensures ClipMiles(Plus(a, b), tessie) == AddMiles(ClipMiles(a, tessie), ClipMiles(b, tessie))
    ensures ClipMiles(ZERO, tessie) == NO_MILES
  {
  }

  predicate FromTessie(c: Clip) { c.s.source == "tessie" }

  /** This walk has no null-island filter: every point takes part. */
  function Whole(dist: Metric, r: Route): (w: Walk)
    ensures w.Valid()
  {
    Walk(Slices(r), seq(|r.points|, _ => true), dist)
  }

  ghost function RouteMiles(dist: Metric, c: Clip): Miles {
    var w := Whole(dist, c.s);
    ClipMiles(PairSum(w, w.N()), FromTessie(c))
  }

  ghost function AllRouteMiles(dist: Metric, clips: seq<Clip>): (ms: seq<Miles>)
    ensures |ms| == |clips| && forall i :: 0 <= i < |clips| ==> ms[i] == RouteMiles(dist, clips[i])
  {
    seq(|clips|, i requires 0 <= i < |clips| => RouteMiles(dist, clips[i]))
  }

  // ----- accelerator pushes, without the grace period -----------------------

  /** The pedal is down under FSD. */
  ghost predicate PlainPress(w: Walk, i: nat)
    requires w.Valid()
  {
    Kept(w, i) && w.HasAP() && w.HasAccel() && w.r.ap[i] == FSD && Percent(w.r.accel[i]) > 1.0
  }

  ghost predicate PlainForgets(w: Walk, i: nat)
    requires w.Valid()
  {
    Kept(w, i) && w.HasAP() && (w.r.ap[i] != FSD || Release(w, i))
  }

  ghost predicate PlainArmed(w: Walk, i: nat)
    requires w.Valid()
  {
    exists j: nat :: j < i && PlainPress(w, j) && forall k: nat :: j < k < i ==> !PlainForgets(w, k)
  }

  ghost predicate PlainPush(w: Walk, i: nat)
    requires w.Valid()
  {
    Release(w, i) && PlainArmed(w, i)
  }

  ghost function PlainPushesBefore(w: Walk, n: nat): set<nat>
    requires w.Valid()
  {
    set i: nat | i < n && PlainPush(w, i)
  }

  ghost function PlainPushes(w: Walk): set<nat>
    requires w.Valid()
  {
    PlainPushesBefore(w, w.N())
  }

  datatype Counts = Counts(disengagements: nat, pushes: nat)

  function AddCounts(a: Counts, b: Counts): Counts {
    Counts(a.disengagements + b.disengagements, a.pushes + b.pushes)
  }

  ghost function SumCounts(cs: seq<Counts>): Counts {
    if cs == [] then Counts(0, 0) else AddCounts(SumCounts(cs[..|cs| - 1]), cs[|cs| - 1])
  }

  ghost function RouteCounts(dist: Metric, c: Clip): Counts {
    var w := Whole(dist, c.s);
    if FromTessie(c) then Counts(0, 0) else Counts(|LookaheadSet(w)|, |PlainPushes(w)|)
  }

  ghost function AllRouteCounts(dist: Metric, clips: seq<Clip>): (cs: seq<Counts>)
    ensures |cs| == |clips| && forall i :: 0 <= i < |clips| ==> cs[i] == RouteCounts(dist, clips[i])
  {
    seq(|clips|, i requires 0 <= i < |clips| => RouteCounts(dist, clips[i]))
  }

  // ----- the statistics -----------------------------------------------------

  ghost function Drives(groups: seq<seq<Clip>>): nat {
    if groups == [] then 0 else Drives(groups[..|groups| - 1]) + GearSplits(groups[|groups| - 1])
  }

  ghost predicate NonEmptyGroups(groups: seq<seq<Clip>>) {
    forall k :: 0 <= k < |groups| ==> groups[k] != []
  }

  ghost function Duration(groups: seq<seq<Clip>>): int
    requires NonEmptyGroups(groups)
  {
    if groups == [] then 0 else
      var g := groups[|groups| - 1];
      Duration(groups[..|groups| - 1]) + (g[|g| - 1].ts + CLIP_MS - g[0].ts)
  }

  function Combined(drives: nat, durationMs: int, m: Miles, c: Counts): Stats {
    Stats(drives, durationMs, m.distance, m.seiDistance,
          Modes(m.fsdMs, m.autosteerMs, m.taccMs, m.fsdDist, m.autosteerDist, m.taccDist,
                c.disengagements, c.pushes))
  }

  ghost function RouteStatsOf(dist: Metric, groups: seq<seq<Clip>>): Stats
    requires NonEmptyGroups(groups)
  {
    var clips := Flatten(groups);
    Combined(Drives(groups), Duration(groups),
             SumMiles(AllRouteMiles(dist, clips)), SumCounts(AllRouteCounts(dist, clips)))
  }

  // ----- the loops ----------------------------------------------------------

  method AddRoutePair(w: Walk, i: nat, tessie: bool, m: Miles) returns (m': Miles)
    requires w.Valid() && 1 <= i < w.N() && Kept(w, i)
    ensures m' == AddMiles(m, ClipMiles(PairTotals(w, i), tessie))
  {
    hide HasSei, GpsSpeed, D, Dt, SpeedSample, Kept;
    var d, dtMs := D(w, i), Dt(w);
    m' := m.(distance := m.distance + d);
    if tessie {
      return;
    }
    m' := m'.(seiDistance := m'.seiDistance + d);
    if w.HasAP() {
      var curAP := w.r.ap[i];
      if curAP == FSD {
        m' := m'.(fsdMs := m'.fsdMs + dtMs.Floor, fsdDist := m'.fsdDist + d);
      } else if curAP == AUTOSTEER {
        m' := m'.(autosteerMs := m'.autosteerMs + dtMs.Floor, autosteerDist := m'.autosteerDist + d);
      } else if curAP == TACC {
        m' := m'.(taccMs := m'.taccMs + dtMs.Floor, taccDist := m'.taccDist + d);
      }
    }
  }

  method TrackPlainPedal(w: Walk, i: nat, inPress: bool, count: nat) returns (inPress': bool, count': nat)
    requires w.Valid() && Kept(w, i) && w.HasAP()
    ensures inPress' <==> PlainPress(w, i) || (inPress && !PlainForgets(w, i))
    ensures count' == count + if inPress && Release(w, i) then 1 else 0
  {
    hide HasSei, GpsSpeed, Percent, Kept;
    assert 1 <= i < w.N() by { KeptIndex(w, i); }
    var curAP, prevAP := w.r.ap[i], w.r.ap[i - 1];
    inPress', count' := inPress, count;
    if prevAP == FSD && curAP != FSD {
      inPress' := false;
    }
    if curAP == FSD && w.HasAccel() {
      var accelPct := Percent(w.r.accel[i]);
      if !inPress' && accelPct > 1.0 {
        inPress' := true;
      } else if inPress' && accelPct <= 0.0 {
        count', inPress' := count' + 1, false;
      }
    } else if curAP != FSD {
      inPress' := false;
    }
  }

  lemma KeptIndex(w: Walk, i: nat)
    requires w.Valid() && Kept(w, i)
    ensures 1 <= i < w.N()
  {
  }

  ghost predicate PlainInv(w: Walk, i: nat, inPress: bool, count: nat)
    requires w.Valid()
  {
    (inPress <==> PlainArmed(w, i)) && count == |PlainPushesBefore(w, i)|
  }

  lemma PlainStep(w: Walk, i: nat, inPress: bool, count: nat, inPress': bool, count': nat)
    requires w.Valid() && PlainInv(w, i, inPress, count)
    requires inPress' <==> PlainPress(w, i) || (inPress && !PlainForgets(w, i))
    requires count' == count + if inPress && Release(w, i) then 1 else 0
    ensures PlainInv(w, i + 1, inPress', count')
  {
    hide PlainPress, Release, PlainForgets, PlainPushesBefore;
    if PlainPress(w, i) {
      assert PlainArmed(w, i + 1);
    } else if PlainArmed(w, i) && !PlainForgets(w, i) {
      var j: nat :| j < i && PlainPress(w, j) && forall k: nat :: j < k < i ==> !PlainForgets(w, k);
      assert forall k: nat :: j < k < i + 1 ==> !PlainForgets(w, k);
      assert PlainArmed(w, i + 1);
    }
    if PlainArmed(w, i + 1) && !PlainPress(w, i) {
      var j: nat :| j < i + 1 && PlainPress(w, j) && forall k: nat :: j < k < i + 1 ==> !PlainForgets(w, k);
      assert PlainArmed(w, i);
    }
    PlainPushesGrow(w, i);
  }

  lemma PlainPushesGrow(w: Walk, i: nat)
    requires w.Valid()
    ensures i !in PlainPushesBefore(w, i)
    ensures PlainPushesBefore(w, i + 1) ==
            if PlainPush(w, i) then PlainPushesBefore(w, i) + {i} else PlainPushesBefore(w, i)
  {
    hide PlainPush;
  }

  /** Nothing of the counters happens at a point that is skipped or without autopilot states. */
  lemma PlainNothing(w: Walk, i: nat)
    requires w.Valid() && (!Kept(w, i) || !w.HasAP())
    ensures !PlainPress(w, i) && !Release(w, i) && !PlainForgets(w, i)
  {
    hide Kept;
  }

  lemma PlainStart(w: Walk)
    requires w.Valid()
    ensures PlainInv(w, 1, false, 0)
  {
    hide HasSei, GpsSpeed;
    assert !Kept(w, 0);
    assert PlainPushesBefore(w, 1) == {};
  }

  ghost function LookaheadBefore(w: Walk, i: nat): set<nat>
    requires w.Valid()
  {
    set p | 1 <= p < i && LookaheadCounts(w, p)
  }

  lemma LookaheadGrows(w: Walk, i: nat)
    requires w.Valid() && 1 <= i
    ensures i !in LookaheadBefore(w, i)
    ensures LookaheadBefore(w, i + 1) ==
            if LookaheadCounts(w, i) then LookaheadBefore(w, i) + {i} else LookaheadBefore(w, i)
  {
    hide LookaheadCounts;
  }

  lemma LookaheadAll(w: Walk)
    requires w.Valid()
    ensures LookaheadBefore(w, w.N()) == LookaheadSet(w) && LookaheadBefore(w, 1) == {}
  {
    hide LookaheadCounts;
  }

  lemma WholeKept(dist: Metric, r: Route, i: nat)
    ensures var w := Whole(dist, r); Kept(w, i) <==> 1 <= i < w.N() && (HasSei(w) || GpsSpeed(w, i) <= 70.0)
  {
    hide HasSei, GpsSpeed;
  }

  lemma LookaheadIs(w: Walk, p: nat)
    requires w.Valid() && 1 <= p < w.N()
    ensures LookaheadCounts(w, p) <==>
            (HasSei(w) || GpsSpeed(w, p) <= 70.0) && w.HasAP() && w.r.ap[p - 1] == FSD && w.r.ap[p] != FSD
            && !ParkSoon(w, p)
  {
    hide HasSei, GpsSpeed, ParkSoon;
  }

  lemma MilesSnoc(w: Walk, i: nat, tessie: bool)
    requires w.Valid() && 1 <= i < w.N()
    ensures ClipMiles(PairSum(w, i + 1), tessie) ==
            AddMiles(ClipMiles(PairSum(w, i), tessie), ClipMiles(PairTotals(w, i), tessie))
    ensures !Kept(w, i) ==> ClipMiles(PairSum(w, i + 1), tessie) == ClipMiles(PairSum(w, i), tessie)
  {
    assert PairSum(w, i + 1) == Plus(PairSum(w, i), PairTotals(w, i));
    assert !Kept(w, i) ==> PairTotals(w, i) == ZERO;
    hide *;
    ClipMilesAdd(PairSum(w, i), PairTotals(w, i), tessie);
    MilesLaws(ClipMiles(PairSum(w, i), tessie), NO_MILES, NO_MILES, NO_MILES);
    ClipMilesAdd(ZERO, ZERO, tessie);
  }

  lemma MilesStart(w: Walk, tessie: bool)
    requires w.Valid()
    ensures w.N() < 2 ==> ClipMiles(PairSum(w, w.N()), tessie) == NO_MILES
    ensures w.N() >= 1 ==> ClipMiles(PairSum(w, 1), tessie) == NO_MILES
  {
  }

  lemma ShortRoute(dist: Metric, c: Clip)
    requires |c.s.points| < 2
    ensures RouteMiles(dist, c) == NO_MILES && RouteCounts(dist, c) == Counts(0, 0)
  {
    var w := Whole(dist, c.s);
    MilesStart(w, FromTessie(c));
    hide PairSum, LookaheadCounts, ParkSoon;
    assert LookaheadSet(w) == {};
    assert PlainPushes(w) == {};
  }

  /** The loop over one clip: distances and times for all clips, the two counters for dashcam clips. */
  method WalkRoute(dist: Metric, c: Clip) returns (miles: Miles, counts: Counts)
    ensures miles == RouteMiles(dist, c) && counts == RouteCounts(dist, c)
  {
    hide HasSei, GpsSpeed, D, Dt, PairTotals, PairSum, ClipMiles, AddMiles, Kept, PlainInv, PlainPushes, Elapsed;
    hide LookaheadBefore, LookaheadCounts, LookaheadSet, ParkSoon, PlainPress, PlainForgets, Release;
    var w := Whole(dist, c.s);
    var n, tessie := w.N(), FromTessie(c);
    if n < 2 {
      ShortRoute(dist, c);
      return NO_MILES, Counts(0, 0);
    }
    var hasSei := SeiSpeedsPresent(w);
    miles := NO_MILES;
    var disengagements, pushes, inPress := 0, 0, false;
    MilesStart(w, tessie);
    PlainStart(w);
    LookaheadAll(w);
    for i := 1 to n
      invariant miles == ClipMiles(PairSum(w, i), tessie)
      invariant !tessie ==> disengagements == |LookaheadBefore(w, i)| && PlainInv(w, i, inPress, pushes)
    {
      MilesSnoc(w, i, tessie);
      WholeKept(dist, c.s, i);
      LookaheadGrows(w, i);
      LookaheadIs(w, i);
      if !hasSei && GpsSpeed(w, i) > 70.0 {
        if !tessie {
          PlainNothing(w, i);
          PlainStep(w, i, inPress, pushes, inPress, pushes);
        }
        continue;
      }
      miles := AddRoutePair(w, i, tessie, miles);
      if tessie {
        continue;
      }
      if w.HasAP() {
        if w.r.ap[i - 1] == FSD && w.r.ap[i] != FSD {
          var skip := ParkFollows(w, i);
          if !skip {
            disengagements := disengagements + 1;
          }
        }
        var inPress', pushes' := TrackPlainPedal(w, i, inPress, pushes);
        PlainStep(w, i, inPress, pushes, inPress', pushes');
        inPress, pushes := inPress', pushes';
      } else {
        PlainNothing(w, i);
        PlainStep(w, i, inPress, pushes, inPress, pushes);
      }
    }
    RouteCountsAre(dist, c, inPress, disengagements, pushes);
    counts := if tessie then Counts(0, 0) else Counts(disengagements, pushes);
  }

  lemma RouteCountsAre(dist: Metric, c: Clip, inPress: bool, disengagements: nat, pushes: nat)
    requires var w := Whole(dist, c.s);
             !FromTessie(c) ==>
               disengagements == |LookaheadBefore(w, w.N())| && PlainInv(w, w.N(), inPress, pushes)
    ensures RouteCounts(dist, c) == if FromTessie(c) then Counts(0, 0) else Counts(disengagements, pushes)
  {
    hide LookaheadBefore, LookaheadSet, PlainPushesBefore, PlainArmed;
    LookaheadAll(Whole(dist, c.s));
  }

  function RouteFile(r: Route): string { r.file }

  /** The clips that take part, chosen and grouped like rows. */
  ghost predicate History(clock: Clock, routes: seq<Route>, groups: seq<seq<Clip>>) {
    exists timed :: SortedFrom(timed, Chosen(RouteFile, clock, routes)) && TimeSplit(timed, groups)
  }

  method ComputeAggregateStatsFromRoutes(dist: Metric, clock: Clock, routes: seq<Route>) returns (s: Stats)
    ensures exists groups ::
              History(clock, routes, groups) && NonEmptyGroups(groups) && s == RouteStatsOf(dist, groups)
  {
    hide FirstRows, WithTime, RouteStatsOf, NonEmptyGroups;
    if |routes| == 0 {
      NoneChosen(clock, routes);
      NoRoutes(dist, []);
      assert History(clock, routes, []);
      return NOTHING;
    }
    var unique := Deduplicate(RouteFile, routes);
    var readable := ReadTimes(RouteFile, clock, unique);
    var timed := SortByTime(readable);
    ghost var groups;
    s, groups := SumRoutes(dist, timed);
    assert History(clock, routes, groups);
  }

  lemma NoneChosen(clock: Clock, routes: seq<Route>)
    requires routes == []
    ensures SortedFrom<Route>([], Chosen(RouteFile, clock, routes))
  {
  }

  /** The two passes over the clips in the order of the sort. */
  method SumRoutes(dist: Metric, timed: seq<Clip>) returns (s: Stats, ghost groups: seq<seq<Clip>>)
    ensures TimeSplit(timed, groups) && NonEmptyGroups(groups) && s == RouteStatsOf(dist, groups)
  {
    hide GearSplits, RouteMiles, RouteCounts, AddMiles;
    if |timed| == 0 {
      NoRoutes(dist, timed);
      return NOTHING, [];
    }
    var split := SplitByTime(timed);
    assert NonEmptyGroups(split) by { SplitNonEmpty(timed, split); }
    hide TimeSplit;
    var drives, durationMs := 0, 0;
    for k := 0 to |split|
      invariant drives == Drives(split[..k]) && durationMs == Duration(split[..k])
    {
      assert split[..k + 1][..k] == split[..k];
      var g := split[k];
      var count := CountGearSplitsInGroup(g);
      drives, durationMs := drives + count, durationMs + (g[|g| - 1].ts + CLIP_MS - g[0].ts);
    }
    assert split[..|split|] == split;
    var miles, counts := NO_MILES, Counts(0, 0);
    for k := 0 to |timed|
      invariant miles == SumMiles(AllRouteMiles(dist, timed[..k]))
      invariant counts == SumCounts(AllRouteCounts(dist, timed[..k]))
    {
      var m, c := WalkRoute(dist, timed[k]);
      SumsSnoc(dist, timed, k);
      miles, counts := AddMiles(miles, m), AddCounts(counts, c);
    }
    assert timed[..|timed|] == timed;
    assert Flatten(split) == timed by { SplitFlat(timed, split); }
    groups := split;
    s := Combined(drives, durationMs, miles, counts);
  }

  lemma NoRoutes(dist: Metric, timed: seq<Clip>)
    requires timed == []
    ensures TimeSplit(timed, []) && NonEmptyGroups([]) && NOTHING == RouteStatsOf(dist, [])
  {
    assert Flatten<Clip>([]) == [];
    assert AllRouteMiles(dist, []) == [] && AllRouteCounts(dist, []) == [];
  }

  lemma SplitNonEmpty(timed: seq<Clip>, groups: seq<seq<Clip>>)
    requires TimeSplit(timed, groups)
    ensures NonEmptyGroups(groups)
  {
  }

  lemma SplitFlat(timed: seq<Clip>, groups: seq<seq<Clip>>)
    requires TimeSplit(timed, groups)
    ensures Flatten(groups) == timed
  {
  }

  lemma SumsSnoc(dist: Metric, clips: seq<Clip>, k: nat)
    requires k < |clips|
    ensures SumMiles(AllRouteMiles(dist, clips[..k + 1])) ==
            AddMiles(SumMiles(AllRouteMiles(dist, clips[..k])), RouteMiles(dist, clips[k]))
    ensures SumCounts(AllRouteCounts(dist, clips[..k + 1])) ==
            AddCounts(SumCounts(AllRouteCounts(dist, clips[..k])), RouteCounts(dist, clips[k]))
  {
    hide RouteMiles, RouteCounts, AddMiles, AddCounts;
    assert clips[..k + 1][..k] == clips[..k];
    assert AllRouteMiles(dist, clips[..k + 1])[..k] == AllRouteMiles(dist, clips[..k]);
    assert AllRouteCounts(dist, clips[..k + 1])[..k] == AllRouteCounts(dist, clips[..k]);
  }

  // ----- pairs at a null-island point ----------------------------------------

  /** The pairs that this walk keeps and the walk behind a cached row does not. */
  ghost function NullTotals(dist: Metric, r: Route, i: nat): Totals
    requires 1 <= i < |r.points|
  {
    if Kept(Whole(dist, r), i) && !Kept(RawWalk(dist, r), i) then PairTotals(Whole(dist, r), i) else ZERO
  }

  ghost function NullSum(dist: Metric, r: Route, k: nat): Totals
    requires k <= |r.points|
  {
    if k <= 1 then ZERO else Plus(NullSum(dist, r, k - 1), NullTotals(dist, r, k - 1))
  }

  ghost function NullMiles(dist: Metric, c: Clip): Miles {
    ClipMiles(NullSum(dist, c.s, |c.s.points|), FromTessie(c))
  }

  ghost function RowMiles(dist: Metric, c: Clip): Miles {
    var w := RawWalk(dist, c.s);
    ClipMiles(PairSum(w, w.N()), FromTessie(c))
  }

  lemma PairSplits(dist: Metric, r: Route, i: nat, tessie: bool)
    requires 1 <= i < |r.points|
    ensures ClipMiles(PairTotals(Whole(dist, r), i), tessie) ==
            AddMiles(ClipMiles(PairTotals(RawWalk(dist, r), i), tessie), ClipMiles(NullTotals(dist, r, i), tessie))
  {
    var whole, raw := Whole(dist, r), RawWalk(dist, r);
    var a, n := PairTotals(raw, i), NullTotals(dist, r, i);
    if Kept(raw, i) {
      SamePair(dist, r, i);
    }
    assert (a == PairTotals(whole, i) && n == ZERO) || (a == ZERO && n == PairTotals(whole, i)) by {
      hide Kept, Whole, RawWalk, HasSei, GpsSpeed, SpeedSample, D, Dt, InMode;
    }
    hide *;
    ClipMilesAdd(ZERO, ZERO, tessie);
    MilesLaws(ClipMiles(PairTotals(whole, i), tessie), NO_MILES, NO_MILES, NO_MILES);
  }

  lemma SamePair(dist: Metric, r: Route, i: nat)
    requires 1 <= i < |r.points| && Kept(RawWalk(dist, r), i)
    ensures Kept(Whole(dist, r), i) && PairTotals(RawWalk(dist, r), i) == PairTotals(Whole(dist, r), i)
  {
    SameWalk(dist, r, i);
    hide HasSei, GpsSpeed, D, Dt, SpeedSample, InMode;
  }

  lemma SameWalk(dist: Metric, r: Route, i: nat)
    requires 1 <= i < |r.points|
    ensures var a, b := RawWalk(dist, r), Whole(dist, r);
            && a.r == b.r && HasSei(a) == HasSei(b) && GpsSpeed(a, i) == GpsSpeed(b, i)
            && D(a, i) == D(b, i) && Dt(a) == Dt(b) && SpeedSample(a, i) == SpeedSample(b, i)
            && (forall m :: InMode(a, i, m) == InMode(b, i, m))
  {
  }

  lemma {:induction false} SumSplits(dist: Metric, r: Route, k: nat, tessie: bool)
    requires k <= |r.points|
    ensures ClipMiles(PairSum(Whole(dist, r), k), tessie) ==
            AddMiles(ClipMiles(PairSum(RawWalk(dist, r), k), tessie), ClipMiles(NullSum(dist, r, k), tessie))
  {
    var whole, raw := Whole(dist, r), RawWalk(dist, r);
    SameLength(dist, r);
    if k > 1 {
      SumSplits(dist, r, k - 1, tessie);
      PairSplits(dist, r, k - 1, tessie);
      var a, b, c := PairSum(whole, k - 1), PairSum(raw, k - 1), NullSum(dist, r, k - 1);
      var x, y, z := PairTotals(whole, k - 1), PairTotals(raw, k - 1), NullTotals(dist, r, k - 1);
      assert PairSum(whole, k) == Plus(a, x) && PairSum(raw, k) == Plus(b, y) && NullSum(dist, r, k) == Plus(c, z);
      hide *;
      ClipMilesAdd(a, x, tessie);
      ClipMilesAdd(b, y, tessie);
      ClipMilesAdd(c, z, tessie);
      MilesLaws(ClipMiles(b, tessie), ClipMiles(c, tessie), ClipMiles(y, tessie), ClipMiles(z, tessie));
    } else {
      hide AddMiles, ClipMiles, Whole, RawWalk;
      ClipMilesAdd(ZERO, ZERO, tessie);
      MilesLaws(NO_MILES, NO_MILES, NO_MILES, NO_MILES);
    }
  }

  lemma RouteMilesSplit(dist: Metric, c: Clip)
    ensures RouteMiles(dist, c) == AddMiles(RowMiles(dist, c), NullMiles(dist, c))
  {
    hide ClipMiles, AddMiles, PairSum, NullSum;
    SumSplits(dist, c.s, |c.s.points|, FromTessie(c));
  }

  ghost function AllRowMiles(dist: Metric, clips: seq<Clip>): (ms: seq<Miles>)
    ensures |ms| == |clips| && forall i :: 0 <= i < |clips| ==> ms[i] == RowMiles(dist, clips[i])
  {
    seq(|clips|, i requires 0 <= i < |clips| => RowMiles(dist, clips[i]))
  }

  ghost function AllNullMiles(dist: Metric, clips: seq<Clip>): (ms: seq<Miles>)
    ensures |ms| == |clips| && forall i :: 0 <= i < |clips| ==> ms[i] == NullMiles(dist, clips[i])
  {
    seq(|clips|, i requires 0 <= i < |clips| => NullMiles(dist, clips[i]))
  }

  lemma {:induction false} PointwiseSum(a: seq<Miles>, b: seq<Miles>, c: seq<Miles>)
    requires |a| == |b| == |c| && forall i :: 0 <= i < |a| ==> c[i] == AddMiles(a[i], b[i])
    ensures SumMiles(c) == AddMiles(SumMiles(a), SumMiles(b))
  {
    if a != [] {
      hide AddMiles;
      var n := |a| - 1;
      PointwiseSum(a[..n], b[..n], c[..n]);
      MilesLaws(SumMiles(a[..n]), SumMiles(b[..n]), a[n], b[n]);
    } else {
      MilesLaws(NO_MILES, NO_MILES, NO_MILES, NO_MILES);
    }
  }

  lemma RouteSumsSplit(dist: Metric, clips: seq<Clip>)
    ensures SumMiles(AllRouteMiles(dist, clips)) ==
            AddMiles(SumMiles(AllRowMiles(dist, clips)), SumMiles(AllNullMiles(dist, clips)))
  {
    hide RouteMiles, RowMiles, NullMiles, AddMiles, SumMiles;
    forall i | 0 <= i < |clips|
      ensures AllRouteMiles(dist, clips)[i] ==
              AddMiles(AllRowMiles(dist, clips)[i], AllNullMiles(dist, clips)[i])
    {
      RouteMilesSplit(dist, clips[i]);
    }
    PointwiseSum(AllRowMiles(dist, clips), AllNullMiles(dist, clips), AllRouteMiles(dist, clips));
  }

  // ----- the cached rows of the same clips ------------------------------------

  /** The row that is cached for a clip. */
  ghost function RowOf(dist: Metric, r: Route): Summary {
    Summary(r.file, r.date, r.rawPark, r.rawFrames, r.gearRuns, r.source, r.signature, AggregatesOf(dist, r))
  }

  ghost function RowsOf(dist: Metric, rs: seq<Route>): (t: seq<Summary>)
    ensures |t| == |rs| && forall i :: 0 <= i < |rs| ==> t[i] == RowOf(dist, rs[i])
  {
    seq(|rs|, i requires 0 <= i < |rs| => RowOf(dist, rs[i]))
  }

  ghost function Cached(dist: Metric, c: Clip): Timed { At(RowOf(dist, c.s), c.ts) }

  ghost function CachedGroup(dist: Metric, g: seq<Clip>): (t: seq<Timed>)
    ensures |t| == |g| && forall i :: 0 <= i < |g| ==> t[i] == Cached(dist, g[i])
  {
    seq(|g|, i requires 0 <= i < |g| => Cached(dist, g[i]))
  }

  ghost function CachedGroups(dist: Metric, groups: seq<seq<Clip>>): (t: seq<seq<Timed>>)
    ensures |t| == |groups| && forall k :: 0 <= k < |groups| ==> t[k] == CachedGroup(dist, groups[k])
    ensures NonEmptyGroups(groups) ==> AllNonEmpty(t)
  {
    seq(|groups|, k requires 0 <= k < |groups| => CachedGroup(dist, groups[k]))
  }

  // ----- the rows make up the same history -------------------------------------

  lemma NormsOfRows(dist: Metric, rs: seq<Route>)
    ensures Norms(RowFile, RowsOf(dist, rs)) == Norms(RouteFile, rs)
  {
    hide AggregatesOf, Normalize;
    var t := RowsOf(dist, rs);
    assert forall i :: 0 <= i < |rs| ==> RowFile(t[i]) == RouteFile(rs[i]);
    forall x
      ensures x in Norms(RowFile, t) <==> x in Norms(RouteFile, rs)
    {
      if x in Norms(RowFile, t) {
        var i :| 0 <= i < |t| && x == Normalize(RowFile(t[i]));
        assert x == Normalize(RouteFile(rs[i]));
      }
      if x in Norms(RouteFile, rs) {
        var i :| 0 <= i < |rs| && x == Normalize(RouteFile(rs[i]));
        assert x == Normalize(RowFile(t[i]));
      }
    }
  }

  lemma {:induction false} FirstOfRows(dist: Metric, rs: seq<Route>, k: nat)
    requires k <= |rs|
    ensures FirstRows(RowFile, RowsOf(dist, rs), k) == RowsOf(dist, FirstRows(RouteFile, rs, k))
  {
    hide RowOf, Norms, Normalize;
    if k > 0 {
      FirstOfRows(dist, rs, k - 1);
      assert RowsOf(dist, rs)[..k - 1] == RowsOf(dist, rs[..k - 1]);
      NormsOfRows(dist, rs[..k - 1]);
      RowKeepsFile(dist, rs[k - 1]);
    }
  }

  lemma RowKeepsFile(dist: Metric, r: Route)
    ensures RowFile(RowOf(dist, r)) == RouteFile(r)
  {
  }

  lemma CachedSnoc(dist: Metric, front: seq<Clip>, c: Clip)
    ensures CachedGroup(dist, front + [c]) == CachedGroup(dist, front) + [Cached(dist, c)]
  {
    hide Cached;
  }

  lemma {:induction false} TimesOfRows(dist: Metric, clock: Clock, rs: seq<Route>)
    ensures WithTime(RowFile, clock, RowsOf(dist, rs)) == CachedGroup(dist, WithTime(RouteFile, clock, rs))
  {
    hide RowOf, RowFile, RouteFile, CachedGroup;
    if rs != [] {
      var k := |rs| - 1;
      assert RowsOf(dist, rs)[..k] == RowsOf(dist, rs[..k]);
      TimesOfRows(dist, clock, rs[..k]);
      RowKeepsFile(dist, rs[k]);
      var front := WithTime(RouteFile, clock, rs[..k]);
      if clock(RouteFile(rs[k])).Some? {
        CachedSnoc(dist, front, At(rs[k], clock(RouteFile(rs[k])).value));
      }
    }
  }

  lemma RowsWithout(dist: Metric, b: seq<Clip>, i: nat)
    requires i < |b|
    ensures multiset(CachedGroup(dist, b)) ==
            multiset(CachedGroup(dist, b[..i] + b[i + 1..])) + multiset{Cached(dist, b[i])}
  {
    hide Cached;
    var t := CachedGroup(dist, b);
    assert CachedGroup(dist, b[..i] + b[i + 1..]) == t[..i] + t[i + 1..];
    BagWithout(t, i);
  }

  lemma {:induction false} BagOfRows(dist: Metric, a: seq<Clip>, b: seq<Clip>)
    requires multiset(a) == multiset(b)
    ensures multiset(CachedGroup(dist, a)) == multiset(CachedGroup(dist, b))
  {
    hide CachedGroup, Cached;
    if a == [] {
      assert |b| == |multiset(b)| == 0;
      assert a == b;
    } else {
      assert a[0] in multiset(b);
      var i :| 0 <= i < |b| && b[i] == a[0];
      var rest, rest' := a[..0] + a[0 + 1..], b[..i] + b[i + 1..];
      BagWithout(a, 0);
      BagWithout(b, i);
      Cancel(multiset(rest), multiset(rest'), a[0]);
      BagOfRows(dist, rest, rest');
      RowsWithout(dist, a, 0);
      RowsWithout(dist, b, i);
    }
  }

  lemma {:induction false} FlatOfRows(dist: Metric, groups: seq<seq<Clip>>)
    ensures Flatten(CachedGroups(dist, groups)) == CachedGroup(dist, Flatten(groups))
  {
    hide Cached;
    if groups != [] {
      FlatOfRows(dist, groups[1..]);
      assert CachedGroups(dist, groups)[1..] == CachedGroups(dist, groups[1..]);
    }
  }

  lemma ApartOfRows(dist: Metric, groups: seq<seq<Clip>>)
    requires Apart(groups)
    ensures Apart(CachedGroups(dist, groups))
  {
    hide RowOf;
    var t := CachedGroups(dist, groups);
    forall k | 0 <= k < |groups|
      ensures Tight(groups[k]) && Tight(t[k])
    {
      assert Tight(groups[k]);
      assert forall i :: 0 <= i < |t[k]| ==> t[k][i].ts == groups[k][i].ts;
    }
  }

  lemma OrderOfRows(dist: Metric, timed: seq<Clip>)
    requires Ordered(timed)
    ensures Ordered(CachedGroup(dist, timed))
  {
    hide RowOf;
  }

  lemma ChosenRows(dist: Metric, clock: Clock, routes: seq<Route>)
    ensures Candidates(clock, RowsOf(dist, routes)) == CachedGroup(dist, Chosen(RouteFile, clock, routes))
  {
    hide FirstRows, WithTime, RowOf, CachedGroup;
    FirstOfRows(dist, routes, |routes|);
    TimesOfRows(dist, clock, FirstRows(RouteFile, routes, |routes|));
  }

  /** The statistics from rows that the lemmas below compare are those the cached path reports for these clips. */
  lemma RowsMakeTheHistory(dist: Metric, clock: Clock, routes: seq<Route>, groups: seq<seq<Clip>>)
    requires History(clock, routes, groups) && NonEmptyGroups(groups)
    ensures IsStats(dist, clock, RowsOf(dist, routes), StatsOf(dist, CachedGroups(dist, groups)))
  {
    hide Chosen, Candidates, RowsOf, CachedGroup, CachedGroups, Apart, StatsOf, Flatten, Ordered;
    var chosen := Chosen(RouteFile, clock, routes);
    var timed :| SortedFrom(timed, chosen) && TimeSplit(timed, groups);
    ChosenRows(dist, clock, routes);
    OrderOfRows(dist, timed);
    BagOfRows(dist, timed, chosen);
    FlatOfRows(dist, groups);
    ApartOfRows(dist, groups);
    var t := CachedGroup(dist, timed);
    assert SortedFrom(t, Candidates(clock, RowsOf(dist, routes))) && TimeSplit(t, CachedGroups(dist, groups));
  }

  ghost function JumpOf(dist: Metric, t: seq<Timed>, k: nat): Miles
    requires k < |t|
  {
    var j := JumpInto(dist, t, k);
    NO_MILES.(distance := j, seiDistance := if Tessie(t[k]) then 0.0 else j)
  }

  /** The jumps into the clips of a group, and those into its dashcam clips. */
  ghost function JumpMiles(dist: Metric, t: seq<Timed>): Miles {
    if t == [] then NO_MILES else
      AddMiles(JumpMiles(dist, t[..|t| - 1]), JumpOf(dist, t, |t| - 1))
  }

  ghost function AllJumps(dist: Metric, groups: seq<seq<Clip>>): Miles {
    if groups == [] then NO_MILES else
      AddMiles(AllJumps(dist, groups[..|groups| - 1]), JumpMiles(dist, CachedGroup(dist, groups[|groups| - 1])))
  }

  function MilesIn(distance: real, seiDistance: real, m: Modes): Miles {
    Miles(distance, seiDistance, m.fsdMs, m.autosteerMs, m.taccMs, m.fsdDist, m.autosteerDist, m.taccDist)
  }

  function CountsIn(m: Modes): Counts { Counts(m.disengagements, m.pushes) }

  ghost function RowCounts(dist: Metric, c: Clip): Counts {
    var w := RawWalk(dist, c.s);
    if FromTessie(c) then Counts(0, 0) else Counts(|RealDisengagements(w)|, |Pushes(w)|)
  }

  ghost function AllRowCounts(dist: Metric, clips: seq<Clip>): (cs: seq<Counts>)
    ensures |cs| == |clips| && forall i :: 0 <= i < |clips| ==> cs[i] == RowCounts(dist, clips[i])
  {
    seq(|clips|, i requires 0 <= i < |clips| => RowCounts(dist, clips[i]))
  }

  lemma CachedClip(dist: Metric, c: Clip)
    ensures var t := Cached(dist, c);
            && Tessie(t) == FromTessie(c)
            && MilesIn(t.s.row.distance, if Tessie(t) then 0.0 else t.s.row.distance, ClipModes(t)) ==
               RowMiles(dist, c)
            && CountsIn(ClipModes(t)) == RowCounts(dist, c)
  {
    hide PairSum, RealDisengagements, Pushes, FirstValid, LastValid, CountValid;
  }

  /** What the cached statistics hold of a group. */
  ghost function GroupMiles(dist: Metric, t: seq<Timed>): Miles {
    MilesIn(TotalDist(dist, t), SeiDist(dist, t), ModeSum(t))
  }

  /** One more clip: its row and the jump into it. */
  lemma GroupSnoc(dist: Metric, t: seq<Timed>)
    requires t != []
    ensures var k := |t| - 1;
            var d := t[k].s.row.distance;
            && GroupMiles(dist, t) ==
               AddMiles(AddMiles(GroupMiles(dist, t[..k]),
                                 MilesIn(d, if Tessie(t[k]) then 0.0 else d, ClipModes(t[k]))),
                        JumpOf(dist, t, k))
            && CountsIn(ModeSum(t)) == AddCounts(CountsIn(ModeSum(t[..k])), CountsIn(ClipModes(t[k])))
  {
    hide JumpInto, ClipModes;
  }

  lemma EmptyGroup(dist: Metric, t: seq<Timed>)
    requires t == []
    ensures GroupMiles(dist, t) == NO_MILES && JumpMiles(dist, t) == NO_MILES
  {
  }

  lemma {:induction false} GroupMilesSum(dist: Metric, g: seq<Clip>)
    ensures var t := CachedGroup(dist, g);
            GroupMiles(dist, t) == AddMiles(SumMiles(AllRowMiles(dist, g)), JumpMiles(dist, t))
  {
    hide RowMiles, RowCounts, Cached, ClipModes, MilesIn, AddMiles, JumpOf, AddCounts, CountsIn, ModeSum, JumpInto;
    var t := CachedGroup(dist, g);
    if g != [] {
      var k := |g| - 1;
      assert t[..k] == CachedGroup(dist, g[..k]);
      assert AllRowMiles(dist, g)[..k] == AllRowMiles(dist, g[..k]);
      GroupMilesSum(dist, g[..k]);
      CachedClip(dist, g[k]);
      GroupSnoc(dist, t);
      var rows, row, jumps, jump :=
        SumMiles(AllRowMiles(dist, g[..k])), RowMiles(dist, g[k]), JumpMiles(dist, t[..k]), JumpOf(dist, t, k);
      assert SumMiles(AllRowMiles(dist, g)) == AddMiles(rows, row);
      assert JumpMiles(dist, t) == AddMiles(jumps, jump);
      hide *;
      MilesLaws(rows, jumps, row, jump);
      MilesLaws(AddMiles(rows, jumps), row, jump, NO_MILES);
    } else {
      EmptyGroup(dist, t);
      MilesLaws(NO_MILES, NO_MILES, NO_MILES, NO_MILES);
    }
  }

  lemma {:induction false} GroupCountsSum(dist: Metric, g: seq<Clip>)
    ensures CountsIn(ModeSum(CachedGroup(dist, g))) == SumCounts(AllRowCounts(dist, g))
  {
    hide RowCounts, Cached, ClipModes, AddCounts, RowMiles, GroupMiles, AddMiles, MilesIn, JumpInto;
    var t := CachedGroup(dist, g);
    if g != [] {
      var k := |g| - 1;
      assert t[..k] == CachedGroup(dist, g[..k]);
      assert AllRowCounts(dist, g)[..k] == AllRowCounts(dist, g[..k]);
      GroupCountsSum(dist, g[..k]);
      CachedClip(dist, g[k]);
      GroupSnoc(dist, t);
    }
  }

  lemma {:induction false} MilesConcat(a: seq<Miles>, b: seq<Miles>)
    ensures SumMiles(a + b) == AddMiles(SumMiles(a), SumMiles(b))
  {
    hide AddMiles;
    if b == [] {
      assert a + b == a;
      MilesLaws(SumMiles(a), NO_MILES, NO_MILES, NO_MILES);
    } else {
      var n := |b| - 1;
      assert (a + b)[..|a + b| - 1] == a + b[..n];
      MilesConcat(a, b[..n]);
      MilesLaws(SumMiles(a), SumMiles(b[..n]), b[n], NO_MILES);
    }
  }

  lemma {:induction false} CountsConcat(c: seq<Counts>, d: seq<Counts>)
    ensures SumCounts(c + d) == AddCounts(SumCounts(c), SumCounts(d))
  {
    if d == [] {
      assert c + d == c;
    } else {
      assert (c + d)[..|c + d| - 1] == c + d[..|d| - 1];
      CountsConcat(c, d[..|d| - 1]);
    }
  }

  lemma FlatSnoc(dist: Metric, groups: seq<seq<Clip>>)
    requires groups != []
    ensures var front, last := groups[..|groups| - 1], groups[|groups| - 1];
            && Flatten(groups) == Flatten(front) + last
            && AllRowMiles(dist, Flatten(groups)) == AllRowMiles(dist, Flatten(front)) + AllRowMiles(dist, last)
            && AllRowCounts(dist, Flatten(groups)) == AllRowCounts(dist, Flatten(front)) + AllRowCounts(dist, last)
  {
    hide RowMiles, RowCounts, Flatten;
    var front, last := groups[..|groups| - 1], groups[|groups| - 1];
    assert groups == front + [last];
    FlattenConcat(front, [last]);
    FlattenOne(last);
  }

  ghost function StatsMiles(s: Stats): Miles { MilesIn(s.distance, s.seiDistance, s.modes) }

  lemma AddGroupParts(dist: Metric, s: Stats, t: seq<Timed>)
    requires t != []
    ensures var after := AddGroup(dist, s, t);
            && StatsMiles(after) == AddMiles(StatsMiles(s), GroupMiles(dist, t))
            && CountsIn(after.modes) == AddCounts(CountsIn(s.modes), CountsIn(ModeSum(t)))
            && after.drives == s.drives + GearSplits(Metas(t))
            && after.durationMs == s.durationMs + (t[|t| - 1].ts + CLIP_MS - t[0].ts)
  {
    hide GearSplits, TotalDist, SeiDist, ModeSum;
  }

  /** The cached statistics, in terms of the clips. */
  ghost predicate InTerms(dist: Metric, groups: seq<seq<Clip>>, s: Stats)
    requires NonEmptyGroups(groups)
  {
    var clips := Flatten(groups);
    && StatsMiles(s) == AddMiles(SumMiles(AllRowMiles(dist, clips)), AllJumps(dist, groups))
    && CountsIn(s.modes) == SumCounts(AllRowCounts(dist, clips))
    && s.drives == Drives(groups) && s.durationMs == Duration(groups)
  }

  lemma NothingInTerms(dist: Metric, groups: seq<seq<Clip>>)
    requires groups == []
    ensures InTerms(dist, groups, StatsOf(dist, CachedGroups(dist, groups)))
  {
    hide StatsOf, SumMiles, SumCounts, AllJumps, Flatten, Drives, Duration, StatsMiles, CountsIn, AddMiles;
    hide RowMiles, RowCounts, CachedGroup;
    NoSums(dist, groups);
    NoGroups(dist, groups);
    NoStats(dist);
    MilesLaws(NO_MILES, NO_MILES, NO_MILES, NO_MILES);
    assert CachedGroups(dist, groups) == [];
  }

  lemma NoSums(dist: Metric, groups: seq<seq<Clip>>)
    requires groups == []
    ensures SumMiles(AllRowMiles(dist, Flatten(groups))) == NO_MILES
    ensures SumCounts(AllRowCounts(dist, Flatten(groups))) == Counts(0, 0)
  {
    NothingFlat(groups);
    NothingSums(AllRowMiles(dist, Flatten(groups)), AllRowCounts(dist, Flatten(groups)));
  }

  lemma NoGroups(dist: Metric, groups: seq<seq<Clip>>)
    requires groups == []
    ensures AllJumps(dist, groups) == NO_MILES && Drives(groups) == 0 && Duration(groups) == 0
  {
    hide JumpMiles, GearSplits, CachedGroup, AddMiles;
  }

  lemma NothingFlat(groups: seq<seq<Clip>>)
    requires groups == []
    ensures Flatten(groups) == []
  {
  }

  lemma NothingSums(ms: seq<Miles>, cs: seq<Counts>)
    requires |ms| == |cs| == 0
    ensures SumMiles(ms) == NO_MILES && SumCounts(cs) == Counts(0, 0)
  {
  }

  lemma NoStats(dist: Metric)
    ensures var s := StatsOf(dist, []);
            StatsMiles(s) == NO_MILES && CountsIn(s.modes) == Counts(0, 0) && s.drives == 0 && s.durationMs == 0
  {
  }

  lemma LastInTerms(dist: Metric, groups: seq<seq<Clip>>, s: Stats, after: Stats)
    requires NonEmptyGroups(groups) && groups != [] && InTerms(dist, groups[..|groups| - 1], s)
    requires var g := groups[|groups| - 1];
             && StatsMiles(after) == AddMiles(StatsMiles(s), GroupMiles(dist, CachedGroup(dist, g)))
             && GroupMiles(dist, CachedGroup(dist, g)) ==
                AddMiles(SumMiles(AllRowMiles(dist, g)), JumpMiles(dist, CachedGroup(dist, g)))
             && CountsIn(after.modes) == AddCounts(CountsIn(s.modes), SumCounts(AllRowCounts(dist, g)))
             && after.drives == s.drives + GearSplits(g)
             && after.durationMs == s.durationMs + (g[|g| - 1].ts + CLIP_MS - g[0].ts)
    ensures InTerms(dist, groups, after)
  {
    hide AddMiles, SumMiles, SumCounts, GearSplits, JumpMiles, GroupMiles, StatsMiles;
    hide RowMiles, RowCounts, Flatten, Cached, AddCounts, CountsIn, CachedGroup;
    var rest, g := groups[..|groups| - 1], groups[|groups| - 1];
    var front := Flatten(rest);
    FlatSnoc(dist, groups);
    assert AllJumps(dist, groups) == AddMiles(AllJumps(dist, rest), JumpMiles(dist, CachedGroup(dist, g)));
    assert Drives(groups) == Drives(rest) + GearSplits(g);
    assert Duration(groups) == Duration(rest) + (g[|g| - 1].ts + CLIP_MS - g[0].ts);
    hide AllJumps, Drives, Duration;
    MilesConcat(AllRowMiles(dist, front), AllRowMiles(dist, g));
    CountsConcat(AllRowCounts(dist, front), AllRowCounts(dist, g));
    MilesLaws(SumMiles(AllRowMiles(dist, front)), AllJumps(dist, rest), SumMiles(AllRowMiles(dist, g)),
              JumpMiles(dist, CachedGroup(dist, g)));
  }

  lemma {:induction false} CachedSums(dist: Metric, groups: seq<seq<Clip>>)
    requires NonEmptyGroups(groups)
    ensures InTerms(dist, groups, StatsOf(dist, CachedGroups(dist, groups)))
  {
    hide RowMiles, RowCounts, Cached, SumMiles, SumCounts, GearSplits, JumpMiles, AddMiles, GroupMiles, StatsMiles;
    hide InTerms, Metas, ModeSum, AddCounts, CountsIn, AddGroup;
    if groups != [] {
      var k, t := |groups| - 1, CachedGroups(dist, groups);
      var last, rest := groups[k], groups[..k];
      assert t[..k] == CachedGroups(dist, rest);
      assert StatsOf(dist, t) == AddGroup(dist, StatsOf(dist, t[..k]), t[k]);
      CachedSums(dist, rest);
      GroupMilesSum(dist, last);
      GroupCountsSum(dist, last);
      SameDrives(dist, last);
      CachedEnds(dist, last);
      AddGroupParts(dist, StatsOf(dist, t[..k]), t[k]);
      LastInTerms(dist, groups, StatsOf(dist, t[..k]), StatsOf(dist, t));
    } else {
      NothingInTerms(dist, groups);
    }
  }

  lemma CachedEnds(dist: Metric, g: seq<Clip>)
    requires g != []
    ensures var t := CachedGroup(dist, g); t[0].ts == g[0].ts && t[|t| - 1].ts == g[|g| - 1].ts
  {
  }

  lemma SameDrives(dist: Metric, g: seq<Clip>)
    ensures GearSplits(Metas(CachedGroup(dist, g))) == GearSplits(g)
  {
    hide GearSplits, AggregatesOf;
    CountFromColumns(Metas(CachedGroup(dist, g)), g);
  }

  // ----- where the two agree --------------------------------------------------

  ghost function NullOf(dist: Metric, groups: seq<seq<Clip>>): Miles {
    SumMiles(AllNullMiles(dist, Flatten(groups)))
  }

  lemma MilesBalance(rows: Miles, nulls: Miles, jumps: Miles)
    ensures var a, b := AddMiles(rows, jumps), AddMiles(rows, nulls);
            AddMiles(a, nulls) == AddMiles(b, jumps) && (a == b <==> nulls == jumps)
  {
  }

  lemma RouteParts(dist: Metric, groups: seq<seq<Clip>>)
    requires NonEmptyGroups(groups)
    ensures var s, clips := RouteStatsOf(dist, groups), Flatten(groups);
            && StatsMiles(s) == SumMiles(AllRouteMiles(dist, clips))
            && CountsIn(s.modes) == SumCounts(AllRouteCounts(dist, clips))
            && s.drives == Drives(groups) && s.durationMs == Duration(groups)
  {
    hide SumMiles, SumCounts, Drives, Duration, Flatten;
  }

  /** For every history: both count the same drives and the same time.  The cached distances miss the pairs at
      null-island points and add the jumps between clips, and nothing else: distances and mode times are the same
      exactly when these two are. */
  lemma MilesDiffer(dist: Metric, groups: seq<seq<Clip>>)
    requires NonEmptyGroups(groups)
    ensures var cached, raw := StatsOf(dist, CachedGroups(dist, groups)), RouteStatsOf(dist, groups);
            var nulls, jumps := NullOf(dist, groups), AllJumps(dist, groups);
            && cached.drives == raw.drives && cached.durationMs == raw.durationMs
            && AddMiles(StatsMiles(cached), nulls) == AddMiles(StatsMiles(raw), jumps)
            && (StatsMiles(cached) == StatsMiles(raw) <==> nulls == jumps)
  {
    CachedSums(dist, groups);
    RouteParts(dist, groups);
    RouteSumsSplit(dist, Flatten(groups));
    hide SumMiles, SumCounts, StatsOf, AllJumps, Drives, Duration, AddMiles, StatsMiles, RouteStatsOf, CachedGroups;
    MilesBalance(SumMiles(AllRowMiles(dist, Flatten(groups))), NullOf(dist, groups), AllJumps(dist, groups));
  }

  // ----- the counters ---------------------------------------------------------

  /** The lookahead sees no mask, so both walks give it the same set. */
  lemma SameLookahead(dist: Metric, r: Route)
    ensures LookaheadSet(Whole(dist, r)) == LookaheadSet(RawWalk(dist, r))
  {
    var a, b := Whole(dist, r), RawWalk(dist, r);
    forall p | 1 <= p < |r.points|
      ensures LookaheadCounts(a, p) <==> LookaheadCounts(b, p)
    {
      SameWalk(dist, r, p);
      SameParkSoon(dist, r, p);
      hide ParkSoon, HasSei, GpsSpeed;
    }
    hide LookaheadCounts;
  }

  lemma SameParkSoon(dist: Metric, r: Route, p: nat)
    ensures ParkSoon(Whole(dist, r), p) <==> ParkSoon(RawWalk(dist, r), p)
  {
    var a, b := Whole(dist, r), RawWalk(dist, r);
    hide Dt;
    forall j: nat
      ensures ParkInWindow(a, p, j) <==> ParkInWindow(b, p, j)
    {
      if |r.points| >= 2 {
        SameWalk(dist, r, 1);
      }
    }
  }

  lemma KeptOnUnskipped(dist: Metric, r: Route, i: nat)
    requires NoSkip(RawWalk(dist, r))
    ensures Kept(Whole(dist, r), i) <==> Kept(RawWalk(dist, r), i)
  {
    WholeKept(dist, r, i);
    if 1 <= i < |r.points| {
      SameWalk(dist, r, i);
      assert Kept(RawWalk(dist, r), i);
    }
    hide HasSei, GpsSpeed;
  }

  lemma SamePushes(dist: Metric, r: Route)
    requires NoSkip(RawWalk(dist, r))
    ensures PlainPushes(Whole(dist, r)) == PlainPushes(RawWalk(dist, r))
  {
    var a, b := Whole(dist, r), RawWalk(dist, r);
    forall i: nat
      ensures PlainPress(a, i) <==> PlainPress(b, i)
      ensures PlainForgets(a, i) <==> PlainForgets(b, i)
      ensures Release(a, i) <==> Release(b, i)
    {
      KeptOnUnskipped(dist, r, i);
      hide Kept;
    }
    hide PlainPress, PlainForgets, Release, Whole, RawWalk;
    forall i: nat
      ensures PlainPush(a, i) <==> PlainPush(b, i)
    {
    }
    assert a.N() == b.N() == |r.points| by { SameLength(dist, r); }
    hide PlainPush;
  }

  lemma SameLength(dist: Metric, r: Route)
    ensures Whole(dist, r).N() == RawWalk(dist, r).N() == |r.points|
  {
  }

  lemma PushImpliesPlain(w: Walk, i: nat)
    requires w.Valid() && Push(w, i)
    ensures PlainPush(w, i)
  {
    PressFacts(w);
    hide Kept, Percent, Press, PlainPress, Forgets, PlainForgets, Release, Engages;
    var j: nat :| j < i && Press(w, j) && forall k: nat :: j < k < i ==> !Forgets(w, k);
    assert PlainPress(w, j);
    assert forall k: nat :: j < k < i ==> !PlainForgets(w, k);
  }

  lemma PressFacts(w: Walk)
    requires w.Valid()
    ensures forall j: nat :: Press(w, j) ==> PlainPress(w, j)
    ensures forall k: nat :: PlainForgets(w, k) ==> Forgets(w, k)
  {
    hide Kept, Percent, Engages, Release, LastEngage;
  }

  /** On an unskipped clip FSD has been on since the press. */
  lemma NoEngageInside(w: Walk, j: nat, i: nat)
    requires w.Valid() && NoSkip(w) && j < i < w.N() && PlainPress(w, j)
    requires forall k: nat :: j < k < i ==> !PlainForgets(w, k)
    ensures !Engages(w, i)
  {
    assert w.r.ap[i - 1] == FSD by {
      if j < i - 1 {
        assert Kept(w, i - 1);
        assert !PlainForgets(w, i - 1);
      }
      hide Kept, Percent, Release;
    }
    hide Kept;
  }

  /** Without the grace period a push is counted whenever one is with it; on an unskipped clip the others are
      those that no press past the grace period leads to. */
  lemma PushIsPlain(w: Walk, i: nat)
    requires w.Valid() && NoSkip(w)
    ensures Push(w, i) <==> PlainPush(w, i) && Armed(w, i)
  {
    if Push(w, i) {
      PushImpliesPlain(w, i);
    }
    hide Kept, Percent, Armed, Engages, PlainPress, PlainForgets;
    if PlainPush(w, i) {
      var j: nat :| j < i && PlainPress(w, j) && forall k: nat :: j < k < i ==> !PlainForgets(w, k);
      assert i < w.N() by { KeptIndex(w, i); }
      NoEngageInside(w, j, i);
    }
  }

  // ----- the counters of any history -------------------------------------------

  /** Without a skipped pair from p on, what the lookahead counts is real. */
  lemma CountedIsReal(w: Walk, p: nat)
    requires w.Valid() && p in LookaheadSet(w) && forall k: nat :: p <= k < w.N() ==> Kept(w, k)
    ensures p in RealDisengagements(w)
  {
    hide Dt, HasSei, GpsSpeed;
    assert Disengages(w, p) && forall j: nat :: !ParkInWindow(w, p, j);
    if j: nat :| Event(w, p, j) {
      EarliestEvent(w, p, j);
      var f: nat :| f <= j && FirstEvent(w, p, f);
      FirstIsReal(w, p, f);
    } else {
      NoEventNoPark(w, p);
    }
  }

  /** Where a disengagement follows, FSD has come back the point before. */
  lemma ReturnIsEvent(w: Walk, p: nat, f: nat)
    requires w.Valid() && Disengages(w, p) && Disengages(w, f) && p < f && Kept(w, f - 1)
    requires !ParkInWindow(w, p, f - 1)
    ensures p < f - 1 && Event(w, p, f - 1)
  {
    hide Dt, HasSei, GpsSpeed, Elapsed;
    assert w.r.ap[f - 1] == FSD && f - 1 != p;
    assert RealAt(w, p, f - 1);
  }

  lemma FirstIsReal(w: Walk, p: nat, f: nat)
    requires w.Valid() && Disengages(w, p) && FirstEvent(w, p, f)
    requires (forall j: nat :: !ParkInWindow(w, p, j)) && forall k: nat :: p <= k < w.N() ==> Kept(w, k)
    ensures RealAt(w, p, f)
  {
    hide Dt, HasSei, GpsSpeed, Kept, Elapsed, Disengages, ParkInWindow, RealAt;
    assert Event(w, p, f) && p < f < w.N() by { EventIsLater(w, p, f); }
    if Disengages(w, f) {
      ReturnIsEvent(w, p, f);
      assert false;
    }
  }

  lemma NoEventNoPark(w: Walk, p: nat)
    requires w.Valid() && Disengages(w, p) && forall j: nat :: !Event(w, p, j)
    requires (forall j: nat :: !ParkInWindow(w, p, j)) && forall k: nat :: p <= k < w.N() ==> Kept(w, k)
    ensures !EndsInPark(w)
  {
    hide Dt, HasSei, GpsSpeed, Kept;
    var last := w.N() - 1;
    assert 1 <= p <= last by { DisengageIndex(w, p); }
    assert !ParkInWindow(w, p, last) && !Event(w, p, last);
    if p == last {
      assert Elapsed(w, p, last) == 0.0;
    }
  }

  /** A pair at or after p is skipped. */
  ghost predicate SkipFrom(w: Walk, p: nat)
    requires w.Valid()
  {
    exists k: nat :: p <= k < w.N() && !Kept(w, k)
  }

  /** The disengagements that the lookahead counts before a skipped pair. */
  ghost function Unsettled(w: Walk): set<nat>
    requires w.Valid()
  {
    set p | p in LookaheadSet(w) && SkipFrom(w, p)
  }

  /** A pair at a null-island point before i counts for the one walk alone. */
  ghost predicate NullBefore(dist: Metric, r: Route, i: nat) {
    exists k: nat :: k < i && Kept(Whole(dist, r), k) && !Kept(RawWalk(dist, r), k)
  }

  /** The pushes of a row after such a pair. */
  ghost function PushesAfterNull(dist: Metric, r: Route): set<nat> {
    set i | i in Pushes(RawWalk(dist, r)) && NullBefore(dist, r, i)
  }

  lemma RawKeptIsKept(dist: Metric, r: Route, k: nat)
    requires Kept(RawWalk(dist, r), k)
    ensures Kept(Whole(dist, r), k)
  {
    WholeKept(dist, r, k);
    if 1 <= k < |r.points| {
      SameWalk(dist, r, k);
    }
    hide HasSei, GpsSpeed;
  }

  lemma PressOfRow(dist: Metric, r: Route, k: nat)
    ensures Press(RawWalk(dist, r), k) ==> PlainPress(Whole(dist, r), k)
    ensures Release(RawWalk(dist, r), k) ==> Release(Whole(dist, r), k)
    ensures PlainForgets(Whole(dist, r), k) && Kept(RawWalk(dist, r), k) ==> Forgets(RawWalk(dist, r), k)
  {
    if Kept(RawWalk(dist, r), k) {
      RawKeptIsKept(dist, r, k);
    }
    hide Kept, Percent, SinceEngage, LastEngage;
  }

  /** Unless such a pair comes before it, the other walk counts the same push. */
  lemma PushOfRow(dist: Metric, r: Route, i: nat)
    requires Push(RawWalk(dist, r), i) && !NullBefore(dist, r, i)
    ensures PlainPush(Whole(dist, r), i)
  {
    var raw, whole := RawWalk(dist, r), Whole(dist, r);
    forall k: nat
      ensures Press(raw, k) ==> PlainPress(whole, k)
      ensures Release(raw, k) ==> Release(whole, k)
      ensures k < i && PlainForgets(whole, k) ==> Forgets(raw, k)
    {
      PressOfRow(dist, r, k);
      if k < i && PlainForgets(whole, k) {
        assert Kept(whole, k) by { ForgetsIsKept(whole, k); }
        assert Kept(raw, k);
      }
    }
    hide Press, PlainPress, Release, Forgets, PlainForgets, Kept, NullBefore, RawWalk, Whole, Engages;
    var j: nat :| j < i && Press(raw, j) && forall k: nat :: j < k < i ==> !Forgets(raw, k);
    assert PlainPress(whole, j);
    assert forall k: nat :: j < k < i ==> !PlainForgets(whole, k);
  }

  lemma ForgetsIsKept(w: Walk, k: nat)
    requires w.Valid() && PlainForgets(w, k)
    ensures Kept(w, k)
  {
    hide Kept, Release;
  }

  /** What each counter may miss of the other at skipped pairs. */
  ghost function Slack(dist: Metric, c: Clip): Counts {
    if FromTessie(c) then Counts(0, 0)
    else Counts(|Unsettled(RawWalk(dist, c.s))|, |PushesAfterNull(dist, c.s)|)
  }

  ghost function AllSlack(dist: Metric, clips: seq<Clip>): (cs: seq<Counts>)
    ensures |cs| == |clips| && forall i :: 0 <= i < |clips| ==> cs[i] == Slack(dist, clips[i])
  {
    seq(|clips|, i requires 0 <= i < |clips| => Slack(dist, clips[i]))
  }

  lemma CardOfUnion(a: set<nat>, b: set<nat>, c: set<nat>)
    requires a <= b + c
    ensures |a| <= |b| + |c|
  {
    SubsetSize(a, b + c);
    assert |b + c| == |b| + |c| - |b * c|;
  }

  lemma DisengagementsBounded(w: Walk)
    requires w.Valid()
    ensures |LookaheadSet(w)| <= |RealDisengagements(w)| + |Unsettled(w)|
  {
    forall p | p in LookaheadSet(w) && p !in Unsettled(w)
      ensures p in RealDisengagements(w)
    {
      CountedIsReal(w, p);
    }
    hide LookaheadSet, RealDisengagements, Unsettled;
    CardOfUnion(LookaheadSet(w), RealDisengagements(w), Unsettled(w));
  }

  lemma PushesBounded(dist: Metric, r: Route)
    ensures |Pushes(RawWalk(dist, r))| <= |PlainPushes(Whole(dist, r))| + |PushesAfterNull(dist, r)|
  {
    var raw, whole := RawWalk(dist, r), Whole(dist, r);
    SameLength(dist, r);
    forall i | i in Pushes(raw) && i !in PushesAfterNull(dist, r)
      ensures i in PlainPushes(whole)
    {
      hide Push, PlainPush, NullBefore, RawWalk, Whole;
      PushOfRow(dist, r, i);
    }
    hide Pushes, PlainPushes, PushesAfterNull;
    CardOfUnion(Pushes(raw), PlainPushes(whole), PushesAfterNull(dist, r));
  }

  lemma ClipSlack(dist: Metric, c: Clip)
    ensures var raw, cached, slack := RouteCounts(dist, c), RowCounts(dist, c), Slack(dist, c);
            && raw.disengagements <= cached.disengagements + slack.disengagements
            && cached.pushes <= raw.pushes + slack.pushes
  {
    SameLookahead(dist, c.s);
    DisengagementsBounded(RawWalk(dist, c.s));
    PushesBounded(dist, c.s);
    hide LookaheadSet, PlainPushes, RealDisengagements, Pushes, Unsettled, PushesAfterNull, RawWalk, Whole;
  }

  lemma {:induction false} SlackSums(dist: Metric, clips: seq<Clip>)
    ensures var raw, cached := SumCounts(AllRouteCounts(dist, clips)), SumCounts(AllRowCounts(dist, clips));
            var slack := SumCounts(AllSlack(dist, clips));
            && raw.disengagements <= cached.disengagements + slack.disengagements
            && cached.pushes <= raw.pushes + slack.pushes
  {
    hide RouteCounts, RowCounts, Slack;
    if clips != [] {
      var n := |clips| - 1;
      assert AllRouteCounts(dist, clips)[..n] == AllRouteCounts(dist, clips[..n]);
      assert AllRowCounts(dist, clips)[..n] == AllRowCounts(dist, clips[..n]);
      assert AllSlack(dist, clips)[..n] == AllSlack(dist, clips[..n]);
      SlackSums(dist, clips[..n]);
      ClipSlack(dist, clips[n]);
    }
  }

  /** For every history: the rows miss no disengagement but those the other counter takes before a skipped pair,
      and have no push but those after a pair at a null-island point that the other counter has not. */
  lemma CountersBounded(dist: Metric, groups: seq<seq<Clip>>)
    requires NonEmptyGroups(groups)
    ensures var cached, raw := StatsOf(dist, CachedGroups(dist, groups)), RouteStatsOf(dist, groups);
            var slack := SumCounts(AllSlack(dist, Flatten(groups)));
            && raw.modes.disengagements <= cached.modes.disengagements + slack.disengagements
            && cached.modes.pushes <= raw.modes.pushes + slack.pushes
  {
    CachedSums(dist, groups);
    RouteParts(dist, groups);
    SlackSums(dist, Flatten(groups));
    hide SumCounts, StatsOf, AllJumps, Drives, Duration, AddMiles, SumMiles, StatsMiles, RouteStatsOf, CachedGroups;
    hide Flatten;
  }

  // ----- where the counters agree ----------------------------------------------

  /** When the two pairs of counters give the same for a clip. */
  ghost predicate CountersAgree(dist: Metric, c: Clip) {
    var w := RawWalk(dist, c.s);
    FromTessie(c) || (DisengagementsAgree(w) && PushesAgree(w))
  }

  /** Every disengagement that sees Park soon was parked by FSD. */
  ghost predicate DisengagementsAgree(w: Walk)
    requires w.Valid()
  {
    forall p: nat :: Disengages(w, p) && ParkSoon(w, p) ==> ParkedByFsd(w, p)
  }

  /** Before every release the pedal was down past the grace period of an engagement in the clip. */
  ghost predicate PushesAgree(w: Walk)
    requires w.Valid()
  {
    forall i: nat :: PlainPush(w, i) ==> Armed(w, i)
  }

  ghost predicate Unskipped(dist: Metric, c: Clip) {
    FromTessie(c) || NoSkip(RawWalk(dist, c.s))
  }

  lemma PushesCompared(w: Walk)
    requires w.Valid() && NoSkip(w)
    ensures |Pushes(w)| <= |PlainPushes(w)|
    ensures |Pushes(w)| == |PlainPushes(w)| <==> PushesAgree(w)
  {
    var a, b := Pushes(w), PlainPushes(w);
    forall i: nat
      ensures i in a <==> PlainPush(w, i) && Armed(w, i)
      ensures i in b <==> PlainPush(w, i)
    {
      PushIsPlain(w, i);
      hide PlainArmed, Armed, Kept;
    }
    hide Push, PlainPush, Armed, Pushes, PlainPushes;
    SubsetSize(a, b);
  }

  lemma ClipCounters(dist: Metric, c: Clip)
    requires Unskipped(dist, c)
    ensures var raw, cached := RouteCounts(dist, c), RowCounts(dist, c);
            && raw.disengagements <= cached.disengagements && cached.pushes <= raw.pushes
            && (raw == cached <==> CountersAgree(dist, c))
  {
    var w := RawWalk(dist, c.s);
    SameLookahead(dist, c.s);
    if !FromTessie(c) {
      SamePushes(dist, c.s);
      LookaheadNeverExceeds(w);
      PushesCompared(w);
    }
    hide LookaheadSet, PlainPushes, RealDisengagements, Pushes, Disengages, ParkSoon, ParkedByFsd, PushesAgree;
    hide RawWalk, Whole, NoSkip;
  }

  ghost predicate AllUnskipped(dist: Metric, clips: seq<Clip>) {
    forall i :: 0 <= i < |clips| ==> Unskipped(dist, clips[i])
  }

  ghost predicate AllCountersAgree(dist: Metric, clips: seq<Clip>) {
    forall i :: 0 <= i < |clips| ==> CountersAgree(dist, clips[i])
  }

  lemma {:induction false} CounterSums(dist: Metric, clips: seq<Clip>)
    requires AllUnskipped(dist, clips)
    ensures var raw, cached := SumCounts(AllRouteCounts(dist, clips)), SumCounts(AllRowCounts(dist, clips));
            && raw.disengagements <= cached.disengagements && cached.pushes <= raw.pushes
            && (raw == cached <==> AllCountersAgree(dist, clips))
  {
    hide RouteCounts, RowCounts, Unskipped, CountersAgree;
    if clips != [] {
      var n := |clips| - 1;
      assert AllRouteCounts(dist, clips)[..n] == AllRouteCounts(dist, clips[..n]);
      assert AllRowCounts(dist, clips)[..n] == AllRowCounts(dist, clips[..n]);
      CounterSums(dist, clips[..n]);
      ClipCounters(dist, clips[n]);
      assert AllCountersAgree(dist, clips) <==>
             AllCountersAgree(dist, clips[..n]) && CountersAgree(dist, clips[n]);
    }
  }

  lemma SameStats(a: Stats, b: Stats)
    ensures a == b <==> a.drives == b.drives && a.durationMs == b.durationMs && StatsMiles(a) == StatsMiles(b) &&
                        CountsIn(a.modes) == CountsIn(b.modes)
  {
  }

  /** On a history without skipped pairs the documented identity holds exactly when the jumps between clips balance
      the pairs at null-island points (only Tessie clips can have any here), every disengagement that sees Park soon
      was parked by FSD, and every push has a press past the grace period.  The cached rows never count fewer
      disengagements, nor more pushes. */
  lemma StatsAgree(dist: Metric, groups: seq<seq<Clip>>)
    requires NonEmptyGroups(groups) && AllUnskipped(dist, Flatten(groups))
    ensures var cached, raw := StatsOf(dist, CachedGroups(dist, groups)), RouteStatsOf(dist, groups);
            && raw.modes.disengagements <= cached.modes.disengagements
            && cached.modes.pushes <= raw.modes.pushes
            && (cached == raw <==>
                  NullOf(dist, groups) == AllJumps(dist, groups) && AllCountersAgree(dist, Flatten(groups)))
  {
    MilesDiffer(dist, groups);
    CachedSums(dist, groups);
    RouteParts(dist, groups);
    CounterSums(dist, Flatten(groups));
    var cached, raw := StatsOf(dist, CachedGroups(dist, groups)), RouteStatsOf(dist, groups);
    SameStats(cached, raw);
    hide SumMiles, SumCounts, StatsOf, AllJumps, Drives, Duration, NullOf, AllUnskipped, AllCountersAgree, AddMiles;
    hide StatsMiles, RouteStatsOf, CachedGroups, Flatten;
  }

  /** A clip under FSD from its first point: pressing and releasing the pedal is a push for the one and none for
      the other. */
  lemma PushesDiffer(dist: Metric, here: Point)
    requires !NullIsland(here)
    ensures var r := Route("", "", [here, here, here], [], [FSD, FSD, FSD], [9.0, 9.0, 9.0], [0.0, 50.0, 0.0],
                           0, 0, [], "", "", 0.0);
            var w := RawWalk(dist, r);
            NoSkip(w) && PlainPushes(w) == {2} && Pushes(w) == {}
  {
    var r := Route("", "", [here, here, here], [], [FSD, FSD, FSD], [9.0, 9.0, 9.0], [0.0, 50.0, 0.0],
                   0, 0, [], "", "", 0.0);
    var w := RawWalk(dist, r);
    assert HasSei(w) by { assert w.r.speeds[0] > 0.0; }
    assert PlainPress(w, 1);
    assert PlainPush(w, 2);
    assert forall i: nat :: !Engages(w, i);
    assert forall i: nat :: LastEngage(w, i) == -1 by { NeverEngages(w); }
    forall i: nat
      ensures i in PlainPushes(w) <==> i == 2
      ensures i !in Pushes(w)
    {
    }
  }

  lemma NeverEngages(w: Walk)
    requires w.Valid() && forall i: nat :: !Engages(w, i)
    ensures forall i: nat :: LastEngage(w, i) == -1
  {
    hide Engages;
    forall i: nat
      ensures LastEngage(w, i) == -1
    {
      NoEngagement(w, i);
    }
  }
}
