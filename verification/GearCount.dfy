/** Splitting a time group by gear state, and counting the drives without building them
    (splitByGearState and countGearSplitsInGroup in server/drives/grouper.go). */
module GearCount {
  import opened DriveTypes
  import opened Gears
  import opened Grouping
  import opened ParkGaps

  // ----- the split ----------------------------------------------------------

  ghost function WithPoints(segs: seq<Option<Clip>>): seq<Option<Clip>> {
    if segs == [] then [] else
      var front, last := WithPoints(segs[..|segs| - 1]), segs[|segs| - 1];
      if last.Some? && last.value.s.points == [] then front else front + [last]
  }

  /** What a clip adds to the walk: itself, or its park boundaries and its segments that have points. */
  ghost function ClipEvents(clip: Clip): seq<Option<Clip>> {
    if clip.s.gearRuns == [] then [Some(clip)] else WithPoints(Segments(clip))
  }

  ghost function Events(group: seq<Clip>, k: nat): seq<Option<Clip>>
    requires k <= |group|
  {
    if k == 0 then [] else Events(group, k - 1) + ClipEvents(group[k - 1])
  }

  ghost predicate LegacyParked(clip: Clip) {
    if clip.s.rawFrames > 0 then clip.s.rawPark as real / clip.s.rawFrames as real > 0.5
    else clip.s.gears != [] && ParkCount(clip.s.gears) > |clip.s.gears| / 2
  }

  ghost function LegacyEvents(group: seq<Clip>, k: nat): seq<Option<Clip>>
    requires k <= |group|
  {
    if k == 0 then []
    else LegacyEvents(group, k - 1) + [if LegacyParked(group[k - 1]) then None else Some(group[k - 1])]
  }

  /** The walk over events: the finished drives and the one being built. */
  datatype Walker = Walker(done: seq<seq<Clip>>, current: seq<Clip>)

  const IDLE := Walker([], [])

  /** A boundary closes a drive that has clips; a clip extends it. */
  ghost function Step(st: Walker, event: Option<Clip>): Walker {
    match event
    case None => if st.current == [] then st else Walker(st.done + [st.current], [])
    case Some(c) => st.(current := st.current + [c])
  }

  ghost function Run(st: Walker, events: seq<Option<Clip>>): Walker {
    if events == [] then st else Step(Run(st, events[..|events| - 1]), events[|events| - 1])
  }

  lemma {:induction false} RunConcat(st: Walker, a: seq<Option<Clip>>, b: seq<Option<Clip>>)
    ensures Run(st, a + b) == Run(Run(st, a), b)
  {
    hide Step;
    if b == [] {
      assert a + b == a;
    } else {
      assert (a + b)[..|a + b| - 1] == a + b[..|b| - 1];
      RunConcat(st, a, b[..|b| - 1]);
    }
  }

  ghost function Drives(st: Walker): seq<seq<Clip>> {
    if st.current == [] then st.done else st.done + [st.current]
  }

  /** The clips and segments among the events, in order. */
  ghost function Pieces(events: seq<Option<Clip>>): seq<Clip> {
    if events == [] then []
    else if events[|events| - 1].None? then Pieces(events[..|events| - 1])
    else Pieces(events[..|events| - 1]) + [events[|events| - 1].value]
  }

  ghost predicate NoneEmpty(drives: seq<seq<Clip>>) {
    forall k :: 0 <= k < |drives| ==> drives[k] != []
  }

  lemma {:induction false} RunKeepsPieces(events: seq<Option<Clip>>)
    ensures var st := Run(IDLE, events); NoneEmpty(st.done) && Flatten(st.done) + st.current == Pieces(events)
  {
    if events == [] {
      assert Run(IDLE, events) == IDLE;
    } else {
      var front, last := events[..|events| - 1], events[|events| - 1];
      RunKeepsPieces(front);
      var st := Run(IDLE, front);
      if last.None? {
        FlattenConcat(st.done, [st.current]);
        FlattenOne(st.current);
        assert Flatten(st.done) + [] == Flatten(st.done);
      }
    }
  }

  /** Splitting loses, repeats and reorders nothing but what is parked or without points, and no drive is empty. */
  lemma GearStateSplitKeeps(group: seq<Clip>)
    requires AnyRuns(group)
    ensures NoneEmpty(GearStateSplit(group))
    ensures var pieces := Pieces(Events(group, |group|));
            Flatten(GearStateSplit(group)) == if pieces == [] then group else pieces
  {
    hide Events, Run, Step;
    var events := Events(group, |group|);
    RunKeepsPieces(events);
    var st := Run(IDLE, events);
    FlattenConcat(st.done, [st.current]);
    FlattenOne(st.current);
    FlattenOne(group);
    assert Flatten(st.done) + [] == Flatten(st.done);
    if Drives(st) == [] {
      assert Flatten(st.done) == [];
    } else {
      var first := Drives(st)[0];
      assert first != [];
      assert Flatten(Drives(st)) == first + Flatten(Drives(st)[1..]);
    }
  }

  ghost predicate AnyRuns(group: seq<Clip>) {
    exists k :: 0 <= k < |group| && group[k].s.gearRuns != []
  }

  ghost predicate AnyGears(group: seq<Clip>) {
    exists k :: 0 <= k < |group| && group[k].s.gears != []
  }

  /** When everything was parked the whole group stays, so no data is lost. */
  ghost function OrWhole(group: seq<Clip>, pieces: seq<seq<Clip>>): seq<seq<Clip>> {
    if pieces == [] then [group] else pieces
  }

  ghost function GearStateSplit(group: seq<Clip>): seq<seq<Clip>> {
    if group == [] then []
    else if AnyRuns(group) then OrWhole(group, Drives(Run(IDLE, Events(group, |group|))))
    else if |group| <= 1 || !AnyGears(group) then [group]
    else OrWhole(group, Drives(Run(IDLE, LegacyEvents(group, |group|))))
  }

  method SplitByGearState(group: seq<Clip>) returns (result: seq<seq<Clip>>)
    ensures result == GearStateSplit(group)
  {
    hide Step, Segments;
    if |group| == 0 {
      return [];
    }
    var hasGearRuns := false;
    for k := 0 to |group|
      invariant hasGearRuns <==> exists j :: 0 <= j < k && group[j].s.gearRuns != []
    {
      if |group[k].s.gearRuns| > 0 {
        hasGearRuns := true;
      }
    }
    if !hasGearRuns {
      result := SplitByGearStateLegacy(group);
      return;
    }
    var st := IDLE;
    for k := 0 to |group|
      invariant st == Run(IDLE, Events(group, k))
    {
      RunConcat(IDLE, Events(group, k), ClipEvents(group[k]));
      st := WalkClip(st, group[k]);
    }
    result := if |st.current| > 0 then st.done + [st.current] else st.done;
    if |result| == 0 {
      return [group];
    }
  }

  method WalkClip(st0: Walker, clip: Clip) returns (st: Walker)
    ensures st == Run(st0, ClipEvents(clip))
  {
    hide Segments;
    st := st0;
    if |clip.s.gearRuns| == 0 {
      return st.(current := st.current + [clip]);
    }
    var segments := SplitClipAtParkGaps(clip);
    for k := 0 to |segments|
      invariant st == Run(st0, WithPoints(segments[..k]))
    {
      assert segments[..k + 1][..k] == segments[..k];
      ghost var front := WithPoints(segments[..k]);
      assert (front + [segments[k]])[..|front|] == front;
      if segments[k].None? {
        if |st.current| > 0 {
          st := Walker(st.done + [st.current], []);
        }
      } else if |segments[k].value.s.points| > 0 {
        st := st.(current := st.current + [segments[k].value]);
      }
    }
    assert segments[..|segments|] == segments;
  }

  method SplitByGearStateLegacy(group: seq<Clip>) returns (result: seq<seq<Clip>>)
    requires group != [] && !AnyRuns(group)
    ensures result == GearStateSplit(group)
  {
    if |group| <= 1 {
      return [group];
    }
    var hasGear := false;
    for k := 0 to |group|
      invariant hasGear <==> exists j :: 0 <= j < k && group[j].s.gears != []
    {
      if |group[k].s.gears| > 0 {
        hasGear := true;
      }
    }
    if !hasGear {
      return [group];
    }
    var st := IDLE;
    for k := 0 to |group|
      invariant st == Run(IDLE, LegacyEvents(group, k))
    {
      hide LegacyParked;
      var parked := ClipIsMostlyParkedLegacy(group[k]);
      assert LegacyEvents(group, k + 1)[..k] == LegacyEvents(group, k) by { LegacyLength(group, k); }
      assert |LegacyEvents(group, k)| == k by { LegacyLength(group, k); }
      if parked {
        if |st.current| > 0 {
          st := Walker(st.done + [st.current], []);
        }
      } else {
        st := st.(current := st.current + [group[k]]);
      }
    }
    result := if |st.current| > 0 then st.done + [st.current] else st.done;
    if |result| == 0 {
      return [group];
    }
  }

  lemma {:induction false} LegacyLength(group: seq<Clip>, k: nat)
    requires k <= |group|
    ensures |LegacyEvents(group, k)| == k
  {
    hide LegacyParked;
    if k > 0 {
      LegacyLength(group, k - 1);
    }
  }

  method ClipIsMostlyParkedLegacy(clip: Clip) returns (b: bool)
    ensures b == LegacyParked(clip)
  {
    if clip.s.rawFrames > 0 {
      return clip.s.rawPark as real / clip.s.rawFrames as real > 0.5;
    }
    if |clip.s.gears| == 0 {
      return false;
    }
    var parkCount := 0;
    for k := 0 to |clip.s.gears|
      invariant parkCount == ParkCount(clip.s.gears[..k])
    {
      assert clip.s.gears[..k + 1][..k] == clip.s.gears[..k];
      if clip.s.gears[k] == PARK {
        parkCount := parkCount + 1;
      }
    }
    assert clip.s.gears[..|clip.s.gears|] == clip.s.gears;
    return parkCount > |clip.s.gears| / 2;
  }

  // ----- the count ----------------------------------------------------------

  datatype Counter = Counter(inDrive: bool, count: nat)

  /** Driving starts a drive unless one is under way. */
  function Drive(c: Counter): Counter {
    if c.inDrive then c else Counter(true, c.count + 1)
  }

  ghost function CountRun(c: Counter, run: GearRun, total: int): Counter
    requires total != 0
  {
    if run.gear == PARK then (if ParkGap(run, total) then c.(inDrive := false) else c) else Drive(c)
  }

  ghost function CountRuns(c: Counter, runs: seq<GearRun>, total: int, k: nat): Counter
    requires total != 0 && k <= |runs|
  {
    if k == 0 then c else CountRun(CountRuns(c, runs, total, k - 1), runs[k - 1], total)
  }

  ghost function CountClip(c: Counter, clip: Clip): Counter {
    var runs, total := clip.s.gearRuns, Frames(clip.s.gearRuns);
    if total == 0 then Drive(c) else CountRuns(c, runs, total, |runs|)
  }

  ghost function CountClips(group: seq<Clip>, k: nat): Counter
    requires k <= |group|
  {
    if k == 0 then Counter(false, 0) else CountClip(CountClips(group, k - 1), group[k - 1])
  }

  /** The heuristic for data without gear runs, on raw frame counts. */
  datatype LegacyCounter = LegacyCounter(prevAllPark: bool, count: nat)

  ghost function CountLegacy(group: seq<Clip>, k: nat): LegacyCounter
    requires k <= |group|
  {
    if k == 0 then LegacyCounter(false, 1) else
      var c, r := CountLegacy(group, k - 1), group[k - 1].s;
      if r.rawFrames > 0 && r.rawPark > 0
      then var allPark := r.rawPark as real / r.rawFrames as real > 0.6;
           LegacyCounter(allPark, if c.prevAllPark && !allPark then c.count + 1 else c.count)
      else c.(prevAllPark := false)
  }

  ghost function GearSplits(group: seq<Clip>): nat {
    if group == [] then 0
    else if !AnyRuns(group) then CountLegacy(group, |group|).count
    else if CountClips(group, |group|).count == 0 then 1 else CountClips(group, |group|).count
  }

  method CountGearSplitsInGroup(group: seq<Clip>) returns (count: nat)
    ensures count == GearSplits(group)
  {
    hide CountClip;
    if |group| == 0 {
      return 0;
    }
    var hasGearRuns := false;
    for k := 0 to |group|
      invariant hasGearRuns <==> exists j :: 0 <= j < k && group[j].s.gearRuns != []
    {
      if |group[k].s.gearRuns| > 0 {
        hasGearRuns := true;
      }
    }
    if !hasGearRuns {
      count := 1;
      var prevAllPark := false;
      for k := 0 to |group|
        invariant CountLegacy(group, k) == LegacyCounter(prevAllPark, count)
      {
        var r := group[k].s;
        if r.rawFrames > 0 && r.rawPark > 0 {
          var isAllPark := r.rawPark as real / r.rawFrames as real > 0.6;
          if prevAllPark && !isAllPark {
            count := count + 1;
          }
          prevAllPark := isAllPark;
        } else {
          prevAllPark := false;
        }
      }
      return;
    }
    var c := Counter(false, 0);
    for k := 0 to |group|
      invariant c == CountClips(group, k)
    {
      c := CountOneClip(c, group[k]);
    }
    count := if c.count == 0 then 1 else c.count;
  }

  method CountOneClip(c0: Counter, clip: Clip) returns (c: Counter)
    ensures c == CountClip(c0, clip)
  {
    hide ParkGap;
    c := c0;
    var runs := clip.s.gearRuns;
    var total := SumFrames(runs);
    if total == 0 {
      if !c.inDrive {
        c := Counter(true, c.count + 1);
      }
      return;
    }
    for k := 0 to |runs|
      invariant c == CountRuns(c0, runs, total, k)
    {
      if runs[k].gear == PARK {
        if ParkGap(runs[k], total) {
          c := c.(inDrive := false);
        }
      } else {
        if !c.inDrive {
          c := Counter(true, c.count + 1);
        }
      }
    }
  }
}
