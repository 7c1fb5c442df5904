/** The statistics of the whole drive history, from cached rows only
    (ComputeAggregateStatsFromSummaries in server/drives/grouper_summaries.go). */
module Stats {
  import opened DriveTypes
  import opened Aggregate
  import opened DriveSummary
  import opened Bounds
  import opened Grouping
  import opened ParkGaps
  import opened GearCount
  import opened CountAgrees

  // ----- mode totals --------------------------------------------------------

  /** The totals that only dashcam clips feed. */
  datatype Modes = Modes(
    fsdMs: int, autosteerMs: int, taccMs: int, fsdDist: real, autosteerDist: real, taccDist: real,
    disengagements: nat, pushes: nat)

  const NO_MODES := Modes(0, 0, 0, 0.0, 0.0, 0.0, 0, 0)

  function AddModes(a: Modes, b: Modes): Modes {
    Modes(a.fsdMs + b.fsdMs, a.autosteerMs + b.autosteerMs, a.taccMs + b.taccMs,
          a.fsdDist + b.fsdDist, a.autosteerDist + b.autosteerDist, a.taccDist + b.taccDist,
          a.disengagements + b.disengagements, a.pushes + b.pushes)
  }

  function RowModes(a: RouteAggregates): Modes {
    Modes(a.fsdMs, a.autosteerMs, a.taccMs, a.fsdDist, a.autosteerDist, a.taccDist, a.disengagements, a.pushes)
  }

  predicate Tessie(c: Timed) { c.s.source == "tessie" }

  function ClipModes(c: Timed): Modes {
    if Tessie(c) then NO_MODES else RowModes(c.s.row)
  }

  ghost function ModeSum(g: seq<Timed>): Modes {
    if g == [] then NO_MODES else AddModes(ModeSum(g[..|g| - 1]), ClipModes(g[|g| - 1]))
  }

  // ----- distances ----------------------------------------------------------

  /** The jump from the clip before, when both clips know the points. */
  ghost function JumpInto(dist: Metric, g: seq<Timed>, k: nat): real
    requires k < |g|
  {
    if k == 0 then 0.0 else Jump(dist, g[k - 1].s.row.end, g[k].s.row.start)
  }

  ghost function TotalDist(dist: Metric, g: seq<Timed>): real {
    if g == [] then 0.0 else
      var k := |g| - 1;
      TotalDist(dist, g[..k]) + g[k].s.row.distance + JumpInto(dist, g, k)
  }

  ghost function SeiDist(dist: Metric, g: seq<Timed>): real {
    if g == [] then 0.0 else
      var k := |g| - 1;
      SeiDist(dist, g[..k]) + if Tessie(g[k]) then 0.0 else g[k].s.row.distance + JumpInto(dist, g, k)
  }

  // ----- the statistics -----------------------------------------------------

  datatype Stats = Stats(drives: nat, durationMs: int, distance: real, seiDistance: real, modes: Modes)

  const NOTHING := Stats(0, 0, 0.0, 0.0, NO_MODES)

  function FsdPercent(s: Stats): real { Share(s.modes.fsdDist, s.seiDistance) }

  function AssistedPercent(s: Stats): real {
    Share(s.modes.fsdDist + s.modes.autosteerDist + s.modes.taccDist, s.seiDistance)
  }

  /** The columns the drive counter reads, as a clip. */
  function Meta(c: Timed): Clip {
    At(Route(c.s.file, c.s.date, [], [], [], [], [], c.s.rawPark, c.s.rawFrames, c.s.gearRuns,
             c.s.source, c.s.signature, 0.0),
       c.ts)
  }

  function Metas(g: seq<Timed>): (m: seq<Clip>)
    ensures |m| == |g| && forall k :: 0 <= k < |g| ==> m[k] == Meta(g[k])
  {
    seq(|g|, k requires 0 <= k < |g| => Meta(g[k]))
  }

  ghost function AddGroup(dist: Metric, s: Stats, g: seq<Timed>): Stats
    requires g != []
  {
    Stats(s.drives + GearSplits(Metas(g)), s.durationMs + (g[|g| - 1].ts + CLIP_MS - g[0].ts),
          s.distance + TotalDist(dist, g), s.seiDistance + SeiDist(dist, g), AddModes(s.modes, ModeSum(g)))
  }

  ghost function StatsOf(dist: Metric, groups: seq<seq<Timed>>): Stats
    requires forall k :: 0 <= k < |groups| ==> groups[k] != []
  {
    if groups == [] then NOTHING else AddGroup(dist, StatsOf(dist, groups[..|groups| - 1]), groups[|groups| - 1])
  }

  /** The statistics over the time groups of some ordered permutation of the candidates. */
  ghost predicate IsStats(dist: Metric, clock: Clock, summaries: seq<Summary>, s: Stats) {
    exists timed, groups ::
      SortedFrom(timed, Candidates(clock, summaries)) && TimeSplit(timed, groups) && s == StatsOf(dist, groups)
  }

  method ComputeAggregateStats(dist: Metric, clock: Clock, summaries: seq<Summary>) returns (s: Stats)
    ensures IsStats(dist, clock, summaries, s)
  {
    hide FirstRows, WithTime, AddGroup;
    s := NOTHING;
    if |summaries| == 0 {
      NoCandidates(clock);
      assert TimeSplit<Summary>([], []);
      return;
    }
    var unique := Deduplicate(RowFile, summaries);
    var readable := ReadTimes(RowFile, clock, unique);
    var sorted := SortByTime(readable);
    if |sorted| == 0 {
      assert TimeSplit<Summary>([], []);
      return;
    }
    var split := SplitByTime(sorted);
    for i := 0 to |split|
      invariant s == StatsOf(dist, split[..i])
    {
      assert split[..i + 1][..i] == split[..i];
      s := AddTimeGroup(dist, s, split[i]);
    }
    assert split[..|split|] == split;
    assert TimeSplit(sorted, split);
  }

  lemma NoCandidates(clock: Clock)
    ensures Candidates(clock, []) == []
  {
  }

  method AddTimeGroup(dist: Metric, s0: Stats, g: seq<Timed>) returns (s: Stats)
    requires g != []
    ensures s == AddGroup(dist, s0, g)
  {
    hide ModeSum, TotalDist, SeiDist, AddModes, GearSplits, JumpInto;
    var count := CountGearSplitsInGroup(Metas(g));
    var duration := g[|g| - 1].ts + CLIP_MS - g[0].ts;
    var distance, seiDistance, modes := s0.distance, s0.seiDistance, s0.modes;
    StartOfGroup(dist, s0.modes);
    for k := 0 to |g|
      invariant distance == s0.distance + TotalDist(dist, g[..k])
      invariant seiDistance == s0.seiDistance + SeiDist(dist, g[..k])
      invariant modes == AddModes(s0.modes, ModeSum(g[..k]))
    {
      NextClip(dist, g, k, s0.modes);
      var cur := g[k].s.row;
      distance := distance + cur.distance;
      if k > 0 && g[k - 1].s.row.end.Some? && cur.start.Some? {
        var crossD := dist(g[k - 1].s.row.end.value, cur.start.value);
        distance := distance + crossD;
        if g[k].s.source != "tessie" {
          seiDistance := seiDistance + crossD;
        }
      }
      JumpIs(dist, g, k);
      if g[k].s.source != "tessie" {
        seiDistance := seiDistance + cur.distance;
        modes := AddModes(modes, RowModes(cur));
      }
    }
    assert g[..|g|] == g;
    s := Stats(s0.drives + count, s0.durationMs + duration, distance, seiDistance, modes);
  }

  lemma StartOfGroup(dist: Metric, m: Modes)
    ensures TotalDist(dist, []) == 0.0 && SeiDist(dist, []) == 0.0 && AddModes(m, ModeSum([])) == m
  {
  }

  lemma JumpIs(dist: Metric, g: seq<Timed>, k: nat)
    requires k < |g|
    ensures JumpInto(dist, g, k) ==
            if k > 0 && g[k - 1].s.row.end.Some? && g[k].s.row.start.Some?
            then dist(g[k - 1].s.row.end.value, g[k].s.row.start.value) else 0.0
  {
  }

  lemma NextClip(dist: Metric, g: seq<Timed>, k: nat, m: Modes)
    requires k < |g|
    ensures TotalDist(dist, g[..k + 1]) == TotalDist(dist, g[..k]) + g[k].s.row.distance + JumpInto(dist, g, k)
    ensures SeiDist(dist, g[..k + 1]) ==
            SeiDist(dist, g[..k]) + if Tessie(g[k]) then 0.0 else g[k].s.row.distance + JumpInto(dist, g, k)
    ensures AddModes(m, ModeSum(g[..k + 1])) ==
            if Tessie(g[k]) then AddModes(m, ModeSum(g[..k]))
            else AddModes(AddModes(m, ModeSum(g[..k])), RowModes(g[k].s.row))
  {
    assert g[..k + 1][..k] == g[..k];
  }

  // ----- mode totals do not see Tessie clips, nor the sort -------------------

  ghost function SeiOnly(g: seq<Timed>): seq<Timed> {
    if g == [] then []
    else if Tessie(g[|g| - 1]) then SeiOnly(g[..|g| - 1])
    else SeiOnly(g[..|g| - 1]) + [g[|g| - 1]]
  }

  lemma {:induction false} TessieAddsNothing(g: seq<Timed>)
    ensures ModeSum(g) == ModeSum(SeiOnly(g))
  {
    hide AddModes, ClipModes;
    if g != [] {
      var front, x := g[..|g| - 1], g[|g| - 1];
      TessieAddsNothing(front);
      if Tessie(x) {
        AddModesLaws(ModeSum(front), NO_MODES, NO_MODES);
        assert ClipModes(x) == NO_MODES by { TessieClip(x); }
      } else {
        var s := SeiOnly(front);
        assert (s + [x])[..|s|] == s;
      }
    }
  }

  lemma TessieClip(c: Timed)
    requires Tessie(c)
    ensures ClipModes(c) == NO_MODES
  {
  }

  lemma AddModesLaws(a: Modes, b: Modes, c: Modes)
    ensures AddModes(a, AddModes(b, c)) == AddModes(AddModes(a, b), c)
    ensures AddModes(AddModes(a, b), c) == AddModes(AddModes(a, c), b)
    ensures AddModes(a, NO_MODES) == a
  {
  }

  lemma {:induction false} ModeSumConcat(a: seq<Timed>, b: seq<Timed>)
    ensures ModeSum(a + b) == AddModes(ModeSum(a), ModeSum(b))
  {
    hide AddModes, ClipModes;
    AddModesLaws(ModeSum(a), NO_MODES, NO_MODES);
    if b == [] {
      assert a + b == a;
    } else {
      var front := b[..|b| - 1];
      assert (a + b)[..|a + b| - 1] == a + front;
      ModeSumConcat(a, front);
      AddModesLaws(ModeSum(a), ModeSum(front), ClipModes(b[|b| - 1]));
    }
  }

  lemma ModeSumWithout(b: seq<Timed>, i: nat)
    requires i < |b|
    ensures ModeSum(b) == AddModes(ModeSum(b[..i] + b[i + 1..]), ClipModes(b[i]))
  {
    hide AddModes, ClipModes;
    var x := ClipModes(b[i]);
    assert b == b[..i + 1] + b[i + 1..];
    ModeSumConcat(b[..i + 1], b[i + 1..]);
    assert b[..i + 1][..i] == b[..i];
    ModeSumConcat(b[..i], b[i + 1..]);
    AddModesLaws(ModeSum(b[..i]), x, ModeSum(b[i + 1..]));
  }

  /** The mode totals depend only on which clips there are. */
  lemma {:induction false} ModeSumOfBag(a: seq<Timed>, b: seq<Timed>)
    requires multiset(a) == multiset(b)
    ensures ModeSum(a) == ModeSum(b)
  {
    hide AddModes, ClipModes, ModeSum;
    if a == [] {
      assert |b| == |multiset(b)| == 0;
      assert a == b;
    } else {
      assert a[0] in multiset(b);
      var i :| 0 <= i < |b| && b[i] == a[0];
      var rest, rest' := a[..0] + a[0 + 1..], b[..i] + b[i + 1..];
      BagWithout(a, 0);
      BagWithout(b, i);
      Cancel(multiset(rest), multiset(rest'), a[0]);
      ModeSumOfBag(rest, rest');
      ModeSumWithout(a, 0);
      ModeSumWithout(b, i);
    }
  }

  ghost predicate AllNonEmpty(groups: seq<seq<Timed>>) {
    forall k :: 0 <= k < |groups| ==> groups[k] != []
  }

  lemma {:induction false} StatsModes(dist: Metric, groups: seq<seq<Timed>>)
    requires AllNonEmpty(groups)
    ensures StatsOf(dist, groups).modes == ModeSum(Flatten(groups))
  {
    hide AddModes, ModeSum, TotalDist, SeiDist, GearSplits;
    if groups != [] {
      var front, last := groups[..|groups| - 1], groups[|groups| - 1];
      StatsModes(dist, front);
      assert groups == front + [last];
      FlattenConcat(front, [last]);
      FlattenOne(last);
      ModeSumConcat(Flatten(front), last);
    } else {
      assert ModeSum(Flatten(groups)) == NO_MODES by { NoClips(); }
    }
  }

  lemma NoClips()
    ensures ModeSum([]) == NO_MODES
  {
  }

  /** Whatever order the sort picked, the mode totals are those of the candidates that are not Tessie clips. */
  lemma {:induction false} ModeTotalsOfHistory(dist: Metric, clock: Clock, summaries: seq<Summary>,
        timed: seq<Timed>, groups: seq<seq<Timed>>)
    requires SortedFrom(timed, Candidates(clock, summaries)) && TimeSplit(timed, groups)
    ensures AllNonEmpty(groups)
    ensures StatsOf(dist, groups).modes == ModeSum(SeiOnly(Candidates(clock, summaries)))
  {
    hide ModeSum, SeiOnly, FirstRows, WithTime;
    StatsModes(dist, groups);
    ModeSumOfBag(timed, Candidates(clock, summaries));
    TessieAddsNothing(Candidates(clock, summaries));
  }

  // ----- percentages --------------------------------------------------------

  ghost predicate GoodRows(g: seq<Timed>) {
    forall k :: 0 <= k < |g| ==> Shares(RowTotals(g[k].s.row))
  }

  /** Mode distances are non-negative parts of the dashcam distance, that of the total distance. */
  ghost predicate Nested(m: Modes, sei: real, total: real) {
    && m.fsdMs >= 0 && m.autosteerMs >= 0 && m.taccMs >= 0
    && m.fsdDist >= 0.0 && m.autosteerDist >= 0.0 && m.taccDist >= 0.0
    && m.fsdDist + m.autosteerDist + m.taccDist <= sei <= total
  }

  lemma {:induction false} GroupNested(dist: Metric, g: seq<Timed>)
    requires GoodRows(g)
    ensures Nested(ModeSum(g), SeiDist(dist, g), TotalDist(dist, g))
  {
    if g != [] {
      var front, k := g[..|g| - 1], |g| - 1;
      assert GoodRows(front);
      GroupNested(dist, front);
      assert Shares(RowTotals(g[k].s.row));
      hide JumpInto;
      assert JumpInto(dist, g, k) >= 0.0 by { JumpIs(dist, g, k); }
    }
  }

  lemma {:induction false} StatsNested(dist: Metric, groups: seq<seq<Timed>>)
    requires AllNonEmpty(groups) && forall k :: 0 <= k < |groups| ==> GoodRows(groups[k])
    ensures var s := StatsOf(dist, groups); Nested(s.modes, s.seiDistance, s.distance)
  {
    hide GoodRows, ModeSum, TotalDist, SeiDist, GearSplits;
    if groups != [] {
      StatsNested(dist, groups[..|groups| - 1]);
      GroupNested(dist, groups[|groups| - 1]);
    }
  }

  /** Percentages of the whole history lie in 0..100, whatever Tessie clips are mixed in. */
  lemma {:induction false} HistoryPercentages(dist: Metric, groups: seq<seq<Timed>>)
    requires AllNonEmpty(groups) && forall k :: 0 <= k < |groups| ==> GoodRows(groups[k])
    ensures var s := StatsOf(dist, groups);
            0.0 <= FsdPercent(s) <= AssistedPercent(s) <= 100.0 && s.seiDistance <= s.distance
  {
    hide StatsOf, GoodRows, Share;
    StatsNested(dist, groups);
    var s := StatsOf(dist, groups);
    var assisted := s.modes.fsdDist + s.modes.autosteerDist + s.modes.taccDist;
    ShareIsPercentage(s.modes.fsdDist, s.seiDistance);
    ShareIsPercentage(assisted, s.seiDistance);
    ShareGrows(s.modes.fsdDist, assisted, s.seiDistance);
  }

  lemma ShareGrows(a: real, b: real, total: real)
    requires 0.0 <= a <= b <= total
    ensures Share(a, total) <= Share(b, total)
  {
    if total > 0.0 {
      QuotientGrows(a, b, total);
      RoundMonotone(a / total * 1000.0, b / total * 1000.0);
    }
  }

  lemma QuotientGrows(a: real, b: real, total: real)
    requires 0.0 <= a <= b && total > 0.0
    ensures 0.0 <= a / total <= b / total
  {
    QuotientSign(a, total);
    QuotientSign(b - a, total);
    assert b / total == a / total + (b - a) / total;
  }

  /** Rows written by the clip pass are good rows. */
  lemma ComputedRowsAreGood(dist: Metric, r: Route)
    ensures Shares(RowTotals(AggregatesOf(dist, r)))
  {
    hide Shares, RowTotals;
    RowKeepsTotals(dist, r);
    ClipBounds(RawWalk(dist, r));
  }

  // ----- the number of drives ------------------------------------------------

  /** The counter reads nothing but raw counts and gear runs. */
  ghost predicate SameGears(a: seq<Clip>, b: seq<Clip>) {
    && |a| == |b|
    && forall k :: 0 <= k < |a| ==>
         a[k].s.gearRuns == b[k].s.gearRuns && a[k].s.rawPark == b[k].s.rawPark && a[k].s.rawFrames == b[k].s.rawFrames
  }

  lemma {:induction false} CountClipsSame(a: seq<Clip>, b: seq<Clip>, k: nat)
    requires SameGears(a, b) && k <= |a|
    ensures CountClips(a, k) == CountClips(b, k) && CountLegacy(a, k) == CountLegacy(b, k)
  {
    hide CountRuns;
    if k > 0 {
      CountClipsSame(a, b, k - 1);
    }
  }

  lemma CountFromColumns(a: seq<Clip>, b: seq<Clip>)
    requires SameGears(a, b)
    ensures GearSplits(a) == GearSplits(b)
  {
    hide CountClips, CountLegacy;
    CountClipsSame(a, b, |a|);
  }

  /** Drives of the raw clips, group by group. */
  ghost function SplitDrives(raw: seq<seq<Clip>>): nat {
    if raw == [] then 0 else SplitDrives(raw[..|raw| - 1]) + |GearStateSplit(raw[|raw| - 1])|
  }

  ghost predicate RawOf(groups: seq<seq<Timed>>, raw: seq<seq<Clip>>) {
    && |raw| == |groups|
    && forall k :: 0 <= k < |raw| ==> groups[k] != [] && SameGears(raw[k], Metas(groups[k]))
  }

  ghost predicate RunsThroughout(raw: seq<seq<Clip>>) {
    forall k :: 0 <= k < |raw| ==> AnyRuns(raw[k]) && forall j :: 0 <= j < |raw[k]| ==> Canonical(raw[k][j].s.gearRuns)
  }

  ghost predicate CountsAsCut(group: seq<Clip>) {
    Blank(TallyOf(group)) == 0 || GearSplits(group) == 1
  }

  /** Every time group counts as splitting would cut it. */
  ghost predicate AllCountAsCut(raw: seq<seq<Clip>>) {
    forall k :: 0 <= k < |raw| ==> CountsAsCut(raw[k])
  }

  lemma AllCountSnoc(raw: seq<seq<Clip>>)
    requires raw != []
    ensures AllCountAsCut(raw) <==> AllCountAsCut(raw[..|raw| - 1]) && CountsAsCut(raw[|raw| - 1])
  {
    hide CountsAsCut;
  }

  lemma DrivesSnoc(dist: Metric, groups: seq<seq<Timed>>)
    requires AllNonEmpty(groups) && groups != []
    ensures StatsOf(dist, groups).drives ==
            StatsOf(dist, groups[..|groups| - 1]).drives + GearSplits(Metas(groups[|groups| - 1]))
  {
    hide GearSplits, TotalDist, SeiDist, ModeSum;
  }

  lemma LastGroup(groups: seq<seq<Timed>>, raw: seq<seq<Clip>>)
    requires RawOf(groups, raw) && RunsThroughout(raw) && raw != []
    ensures var k := |raw| - 1;
            && RawOf(groups[..k], raw[..k]) && RunsThroughout(raw[..k]) && AllNonEmpty(groups)
            && GearSplits(raw[k]) == GearSplits(Metas(groups[k]))
            && |GearStateSplit(raw[k])| <= GearSplits(raw[k])
            && (|GearStateSplit(raw[k])| == GearSplits(raw[k]) <==> CountsAsCut(raw[k]))
  {
    hide SameGears, Canonical, TallyOf, GearSplits, GearStateSplit, AnyRuns, Blank;
    var k := |raw| - 1;
    CountFromColumns(raw[k], Metas(groups[k]));
    CanonicalCounting(raw[k]);
  }

  /** The number of drives, counted on columns, is never below the number of drives that splitting the raw clips
      gives, and equals it exactly when in every group that counts several drives each moving stretch has a point. */
  lemma {:induction false} CountedDrives(dist: Metric, groups: seq<seq<Timed>>, raw: seq<seq<Clip>>)
    requires RawOf(groups, raw) && RunsThroughout(raw)
    ensures SplitDrives(raw) <= StatsOf(dist, groups).drives
    ensures SplitDrives(raw) == StatsOf(dist, groups).drives <==> AllCountAsCut(raw)
  {
    if groups != [] {
      var k := |groups| - 1;
      LastGroup(groups, raw);
      hide RawOf, RunsThroughout, AllCountAsCut, CountsAsCut, StatsOf, GearSplits, GearStateSplit, AllNonEmpty;
      CountedDrives(dist, groups[..k], raw[..k]);
      DrivesSnoc(dist, groups);
      AllCountSnoc(raw);
    }
  }
}
