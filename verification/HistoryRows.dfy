/** The statistics of the history clip by clip and group by group, from points and columns alone
    (server/drives/grouper.go lines 1443-1683, server/drives/grouper_summaries.go lines 490-650). */
module HistoryRows {
  import opened DriveTypes
  import opened PairWalk
  import opened FsdEvents
  import opened Aggregate
  import opened DriveSummary
  import opened Lookahead
  import opened Grouping
  import opened ParkGaps
  import opened Stats
  import opened ClipRow
  import Bounds
  import RouteStats
  import GearCount

  // ----- which rows count ---------------------------------------------------

  /** Row `i` counts: its path has a time and no row before it has the same path, slashes aside. */
  ghost predicate Counts<T>(name: T -> string, clock: Clock, s: seq<T>, i: nat)
    requires i < |s|
  {
    && clock(name(s[i])).Some?
    && forall j :: 0 <= j < i ==> Normalize(name(s[j])) != Normalize(name(s[i]))
  }

  /** The first `k` rows that count, with their times. */
  ghost function Counted<T>(name: T -> string, clock: Clock, s: seq<T>, k: nat): seq<Stamped<T>>
    requires k <= |s|
  {
    if k == 0 then []
    else Counted(name, clock, s, k - 1)
         + if Counts(name, clock, s, k - 1) then [At(s[k - 1], clock(name(s[k - 1])).value)] else []
  }

  lemma {:induction false} TimesSnoc<T>(name: T -> string, clock: Clock, s: seq<T>, x: T)
    ensures WithTime(name, clock, s + [x]) ==
            WithTime(name, clock, s)
            + if clock(name(x)).Some? then [At(x, clock(name(x)).value)] else []
  {
    assert (s + [x])[..|s|] == s;
  }

  /** The rows that are grouped are the ones that count, in order. */
  lemma {:induction false} ChosenAre<T>(name: T -> string, clock: Clock, s: seq<T>, k: nat)
    requires k <= |s|
    ensures WithTime(name, clock, FirstRows(name, s, k)) == Counted(name, clock, s, k)
  {
    hide Normalize, Norms, WithTime;
    if k == 0 {
      NoTimes(name, clock);
    } else {
      ChosenAre(name, clock, s, k - 1);
      NamesAre(name, s, k - 1, Normalize(name(s[k - 1])));
      TimesSnoc(name, clock, FirstRows(name, s, k - 1), s[k - 1]);
    }
  }

  lemma NoTimes<T>(name: T -> string, clock: Clock)
    ensures WithTime(name, clock, []) == []
  {
  }

  lemma NamesAre<T>(name: T -> string, s: seq<T>, n: nat, x: string)
    requires n <= |s|
    ensures x in Norms(name, s[..n]) <==> exists j :: 0 <= j < n && Normalize(name(s[j])) == x
  {
    hide Normalize;
    if j :| 0 <= j < n && Normalize(name(s[j])) == x {
      assert s[..n][j] == s[j];
    }
  }

  /** Time groups: inside one neighbours are at most five minutes apart, and more lie between two. */
  lemma {:induction false} FiveMinutes<T>(timed: seq<Stamped<T>>, groups: seq<seq<Stamped<T>>>)
    requires TimeSplit(timed, groups)
    ensures forall k :: 0 <= k < |groups| ==> groups[k] != []
    ensures forall k, i :: 0 <= k < |groups| && 0 < i < |groups[k]| ==>
              groups[k][i].ts - groups[k][i - 1].ts <= 5 * 60 * 1000
    ensures forall k :: 0 < k < |groups| ==>
              groups[k][0].ts - groups[k - 1][|groups[k - 1]| - 1].ts > 5 * 60 * 1000
  {
    forall k | 0 <= k < |groups|
      ensures Tight(groups[k])
    {
    }
    hide Flatten;
  }

  // ----- raw clips ----------------------------------------------------------

  /** The walk over a raw clip: all its points count, also those near the origin. */
  ghost predicate AllPoints(dist: Metric, r: Route, w: Walk) {
    && w.dist == dist && w.r.points == r.points && w.r.speeds == r.speeds && w.r.ap == r.ap && w.r.gears == r.gears
    && w.r.accel == r.accel && |w.valid| == |r.points| && forall i :: 0 <= i < |r.points| ==> w.valid[i]
  }

  lemma WholeIs(dist: Metric, r: Route)
    ensures AllPoints(dist, r, RouteStats.Whole(dist, r))
  {
  }

  /** What a raw clip adds: its driven distance, and unless it is from Tessie the same once more as measured distance
      and the times and distances of the modes. */
  lemma {:induction false} RouteMilesAre(dist: Metric, c: Clip)
    ensures var w, m, n := RouteStats.Whole(dist, c.s), RouteStats.RouteMiles(dist, c), |c.s.points|;
            && AllPoints(dist, c.s, w)
            && m.distance == LegSum(w, DrivenPairs(w), n)
            && (if c.s.source == "tessie"
                then m.seiDistance == 0.0 && m.fsdMs == 0 && m.autosteerMs == 0 && m.taccMs == 0
                     && m.fsdDist == 0.0 && m.autosteerDist == 0.0 && m.taccDist == 0.0
                else m.seiDistance == m.distance
                     && m.fsdMs == |PairsIn(w, 1)| * StepMs(n) && m.fsdDist == LegSum(w, PairsIn(w, 1), n)
                     && m.autosteerMs == |PairsIn(w, 2)| * StepMs(n)
                     && m.autosteerDist == LegSum(w, PairsIn(w, 2), n)
                     && m.taccMs == |PairsIn(w, 3)| * StepMs(n) && m.taccDist == LegSum(w, PairsIn(w, 3), n))
  {
    WholeIs(dist, c.s);
    var w := RouteStats.Whole(dist, c.s);
    TotalsAre(w);
    hide RouteStats.Whole, LegSum, PairsIn, DrivenPairs, AllPoints, PairSum, RealDisengagements, Pushes, StepMs,
         RealStops, PushEndings, Fastest, ReadingSum, PlausiblePairs, AssistedPairs;
  }

  /** FSD goes off at `p` and within two seconds no point is in Park, skipped or not. */
  ghost predicate NoParkSoon(w: Walk, p: nat)
    requires |w.valid| == |w.r.points|
  {
    && Stops(w, p)
    && forall j: nat :: p <= j < |w.r.points| && Parked(w, j) ==> !Within(w, 2, p, j)
  }

  /** The pedal is past one per cent under FSD. */
  ghost predicate Pressed(w: Walk, j: nat)
    requires |w.valid| == |w.r.points|
  {
    Driven(w, j) && UnderFsd(w, j) && |w.r.accel| == |w.r.points| && w.r.accel[j] > 0.01
  }

  /** FSD is on and the pedal has not come up. */
  ghost predicate KeepsOn(w: Walk, k: nat)
    requires |w.valid| == |w.r.points|
  {
    Driven(w, k) ==> UnderFsd(w, k) && !Up(w, k)
  }

  /** The pedal comes up under FSD after a press, without FSD going off in between. */
  ghost predicate PlainPushEnds(w: Walk, i: nat)
    requires |w.valid| == |w.r.points|
  {
    Up(w, i) && exists j: nat :: j < i && Pressed(w, j) && forall k: nat :: j < k < i ==> KeepsOn(w, k)
  }

  lemma {:induction false} LookaheadIs(w: Walk, p: nat)
    requires w.Valid() && forall i :: 0 <= i < |w.r.points| ==> w.valid[i]
    ensures p in LookaheadSet(w) <==> NoParkSoon(w, p)
  {
    StepsAre(w, p);
    if 1 <= p < |w.r.points| {
      PairIs(w, p);
      forall j: nat
        ensures ParkInWindow(w, p, j) <==> p <= j < |w.r.points| && Parked(w, j) && Within(w, 2, p, j)
      {
        TimeIs(w, p, j, 2);
      }
    }
    hide Elapsed, Within, ParkInWindow, Parked, Dt;
  }

  lemma {:induction false} PressedIs(w: Walk, j: nat)
    requires w.Valid()
    ensures Pressed(w, j) <==> RouteStats.PlainPress(w, j)
    ensures w.HasAP() ==> (KeepsOn(w, j) <==> !RouteStats.PlainForgets(w, j))
  {
    NotBefore(w);
    assert Kept(w, j) <==> Driven(w, j);
    DrivenInside(w, j);
    UpIs(w, j);
    hide Kept, Driven, Up, Release;
  }

  lemma {:induction false} PlainPushIs(w: Walk, i: nat)
    requires w.Valid()
    ensures PlainPushEnds(w, i) <==> RouteStats.PlainPush(w, i)
  {
    UpIs(w, i);
    forall j: nat
      ensures Pressed(w, j) <==> RouteStats.PlainPress(w, j)
      ensures w.HasAP() ==> (KeepsOn(w, j) <==> !RouteStats.PlainForgets(w, j))
    {
      PressedIs(w, j);
    }
    hide Pressed, KeepsOn, RouteStats.PlainPress, RouteStats.PlainForgets, Up, Release;
  }

  /** What a raw clip adds to the two event counts. */
  lemma {:induction false} RouteCountsAre(dist: Metric, c: Clip)
    ensures var w, m, n := RouteStats.Whole(dist, c.s), RouteStats.RouteCounts(dist, c), |c.s.points|;
            && AllPoints(dist, c.s, w)
            && (if c.s.source == "tessie" then m.disengagements == 0 && m.pushes == 0
                else m.disengagements == |set p: nat | p < n && NoParkSoon(w, p)|
                     && m.pushes == |set i: nat | i < n && PlainPushEnds(w, i)|)
  {
    WholeIs(dist, c.s);
    var w, n := RouteStats.Whole(dist, c.s), |c.s.points|;
    hide RouteStats.Whole;
    assert w.Valid() && w.N() == n;
    forall p: nat
      ensures p in LookaheadSet(w) <==> NoParkSoon(w, p)
      ensures PlainPushEnds(w, p) <==> RouteStats.PlainPush(w, p)
    {
      LookaheadIs(w, p);
      PlainPushIs(w, p);
    }
    hide AllPoints, NoParkSoon, PlainPushEnds, RouteStats.PlainPush, LookaheadCounts;
    assert LookaheadSet(w) == set p: nat | p < n && NoParkSoon(w, p) by {
      LookaheadInside(w);
    }
    assert RouteStats.PlainPushes(w) == set i: nat | i < n && PlainPushEnds(w, i);
  }

  lemma LookaheadInside(w: Walk)
    requires w.Valid()
    ensures forall p :: p in LookaheadSet(w) ==> p < |w.r.points|
  {
    hide LookaheadCounts;
  }

  // ----- cached rows --------------------------------------------------------

  /** The distance from the end of one row to the start of the next. */
  ghost function Between(dist: Metric, a: RouteAggregates, b: RouteAggregates): real {
    if a.end.Some? && b.start.Some? then dist(a.end.value, b.start.value) else 0.0
  }

  /** One more row in a group: its distance and the jump to it, as measured distance only for rows that are not from
      Tessie, and then with its mode times, distances and events. */
  lemma {:induction false} OneMoreRow(dist: Metric, g: seq<Timed>, c: Timed)
    ensures var more := g + [c];
            var row, jump := c.s.row, if g == [] then 0.0 else Between(dist, g[|g| - 1].s.row, c.s.row);
            var sei, m, n := c.s.source != "tessie", ModeSum(g), ModeSum(more);
            && TotalDist(dist, more) == TotalDist(dist, g) + row.distance + jump
            && SeiDist(dist, more) == SeiDist(dist, g) + (if sei then row.distance + jump else 0.0)
            && n.fsdMs == m.fsdMs + (if sei then row.fsdMs else 0)
            && n.autosteerMs == m.autosteerMs + (if sei then row.autosteerMs else 0)
            && n.taccMs == m.taccMs + (if sei then row.taccMs else 0)
            && n.fsdDist == m.fsdDist + (if sei then row.fsdDist else 0.0)
            && n.autosteerDist == m.autosteerDist + (if sei then row.autosteerDist else 0.0)
            && n.taccDist == m.taccDist + (if sei then row.taccDist else 0.0)
            && n.disengagements == m.disengagements + (if sei then row.disengagements else 0)
            && n.pushes == m.pushes + if sei then row.pushes else 0
  {
    hide *;
    SumsSnoc(dist, g, c);
    JumpIs(dist, g, c);
    ModesOf(ModeSum(g), c);
  }

  lemma JumpIs(dist: Metric, g: seq<Timed>, c: Timed)
    ensures JumpInto(dist, g + [c], |g|) == if g == [] then 0.0 else Between(dist, g[|g| - 1].s.row, c.s.row)
    ensures Tessie(c) <==> c.s.source == "tessie"
  {
    var more := g + [c];
    assert more[|g|] == c && (g != [] ==> more[|g| - 1] == g[|g| - 1]);
  }

  lemma ModesOf(m: Modes, c: Timed)
    ensures var row, n, sei := c.s.row, AddModes(m, ClipModes(c)), c.s.source != "tessie";
            && n.fsdMs == m.fsdMs + (if sei then row.fsdMs else 0)
            && n.autosteerMs == m.autosteerMs + (if sei then row.autosteerMs else 0)
            && n.taccMs == m.taccMs + (if sei then row.taccMs else 0)
            && n.fsdDist == m.fsdDist + (if sei then row.fsdDist else 0.0)
            && n.autosteerDist == m.autosteerDist + (if sei then row.autosteerDist else 0.0)
            && n.taccDist == m.taccDist + (if sei then row.taccDist else 0.0)
            && n.disengagements == m.disengagements + (if sei then row.disengagements else 0)
            && n.pushes == m.pushes + if sei then row.pushes else 0
  {
  }

  lemma SumsSnoc(dist: Metric, g: seq<Timed>, c: Timed)
    ensures var more := g + [c];
            && TotalDist(dist, more) == TotalDist(dist, g) + c.s.row.distance + JumpInto(dist, more, |g|)
            && SeiDist(dist, more) ==
               SeiDist(dist, g) + (if Tessie(c) then 0.0 else c.s.row.distance + JumpInto(dist, more, |g|))
            && ModeSum(more) == AddModes(ModeSum(g), ClipModes(c))
  {
    hide JumpInto, AddModes, ClipModes, Tessie;
    var more := g + [c];
    assert more[..|g|] == g && more[|g|] == c;
  }

  /** What the group counter reads of a row: its counts and runs. */
  lemma MetasAre(g: seq<Timed>)
    ensures var m := Metas(g);
            && |m| == |g|
            && forall k :: 0 <= k < |g| ==>
                 && m[k].s.gearRuns == g[k].s.gearRuns && m[k].s.rawPark == g[k].s.rawPark
                 && m[k].s.rawFrames == g[k].s.rawFrames && m[k].s.gears == [] && m[k].s.points == []
  {
  }

  /** One more time group in the statistics: it lasts until a minute after its last clip starts, and its drives,
      distances and modes are added. */
  lemma {:induction false} OneMoreGroup(dist: Metric, groups: seq<seq<Timed>>, g: seq<Timed>)
    requires g != [] && forall k :: 0 <= k < |groups| ==> groups[k] != []
    ensures forall k :: 0 <= k < |groups + [g]| ==> (groups + [g])[k] != []
    ensures var s, t := StatsOf(dist, groups), StatsOf(dist, groups + [g]);
            && t.drives == s.drives + GearCount.GearSplits(Metas(g))
            && t.durationMs == s.durationMs + (g[|g| - 1].ts + 60000 - g[0].ts)
            && t.distance == s.distance + TotalDist(dist, g) && t.seiDistance == s.seiDistance + SeiDist(dist, g)
            && t.modes.fsdMs == s.modes.fsdMs + ModeSum(g).fsdMs
            && t.modes.autosteerMs == s.modes.autosteerMs + ModeSum(g).autosteerMs
            && t.modes.taccMs == s.modes.taccMs + ModeSum(g).taccMs
            && t.modes.fsdDist == s.modes.fsdDist + ModeSum(g).fsdDist
            && t.modes.autosteerDist == s.modes.autosteerDist + ModeSum(g).autosteerDist
            && t.modes.taccDist == s.modes.taccDist + ModeSum(g).taccDist
            && t.modes.disengagements == s.modes.disengagements + ModeSum(g).disengagements
            && t.modes.pushes == s.modes.pushes + ModeSum(g).pushes
  {
    var more := groups + [g];
    assert more[..|more| - 1] == groups && more[|more| - 1] == g;
    hide TotalDist, SeiDist, ModeSum, GearCount.GearSplits;
  }

  /** The two percentages of the statistics, to a tenth: FSD and all assisted distance over the measured one. */
  lemma PercentagesAre(s: Stats)
    requires s.seiDistance > 0.0
    requires 0.0 <= s.modes.fsdDist && 0.0 <= s.modes.autosteerDist && 0.0 <= s.modes.taccDist
    requires s.modes.fsdDist + s.modes.autosteerDist + s.modes.taccDist <= s.seiDistance
    ensures var all := s.modes.fsdDist + s.modes.autosteerDist + s.modes.taccDist;
            var half := 0.05 * s.seiDistance;
            && -half <= FsdPercent(s) * s.seiDistance - 100.0 * s.modes.fsdDist <= half
            && -half <= AssistedPercent(s) * s.seiDistance - 100.0 * all <= half
  {
    hide Share;
    Bounds.ShareIsPercentage(s.modes.fsdDist, s.seiDistance);
    Bounds.ShareIsPercentage(s.modes.fsdDist + s.modes.autosteerDist + s.modes.taccDist, s.seiDistance);
  }
}
