/** When clips count as parked, and what a group is cut into, over gear runs, frame counts and boundaries alone
    (server/drives/grouper.go lines 243-560, 1686-1799). */
module GearRules {
  import opened Bytes
  import opened DriveTypes
  import opened Gears
  import opened Grouping
  import opened DriveSplit
  import opened ParkGaps
  import opened SegmentData
  import GearCount

  // ----- parked clips -------------------------------------------------------

  /** Some stop of at least two seconds. */
  ghost predicate Stops(runs: seq<GearRun>) {
    Upto(runs, |runs|) != 0 && exists i :: 0 <= i < |runs| && Gap(runs, i)
  }

  /** A row is a boundary exactly when its runs hold a stop, or, without runs, when more than half of its frames are in
      Park. */
  lemma {:induction false} ParkDominantIs(s: Summary)
    ensures ParkDominant(s) <==>
            if s.gearRuns != [] then Stops(s.gearRuns) else s.rawFrames > 0 && 2 * s.rawPark > s.rawFrames
  {
    var runs := s.gearRuns;
    UptoIsFrames(runs, |runs|);
    assert runs[..|runs|] == runs;
    hide Upto, Frames, Gap, ParkGap;
    if runs != [] && Upto(runs, |runs|) != 0 {
      forall k | 0 <= k < |runs|
        ensures ParkGap(runs[k], Upto(runs, |runs|)) <==> Gap(runs, k)
      {
        GapIs(runs, k);
      }
    }
    if s.rawFrames > 0 {
      Half(s.rawPark, s.rawFrames);
    }
  }

  lemma Half(p: int, n: int)
    requires n > 0
    ensures p as real / n as real > 0.5 <==> 2 * p > n
    ensures p as real / n as real > 0.6 <==> 10 * p > 6 * n
  {
    Exceeds(p, n, 0.5);
    Exceeds(p, n, 0.6);
  }

  lemma Exceeds(p: int, n: int, c: real)
    requires n > 0
    ensures p as real / n as real > c <==> p as real > c * n as real
  {
    var x, t := p as real / n as real, n as real;
    assert x * t == p as real;
    assert (x - c) * t == p as real - c * t;
    assert x > c ==> (x - c) * t > 0.0;
    assert x <= c ==> (c - x) * t >= 0.0;
  }

  lemma {:induction false} ParkCountIs(gears: seq<byte>)
    ensures ParkCount(gears) == |set i | 0 <= i < |gears| && gears[i] == 0|
  {
    var s := set i | 0 <= i < |gears| && gears[i] == 0;
    if gears == [] {
      assert s == {};
    } else {
      var n := |gears| - 1;
      ParkCountIs(gears[..n]);
      var t := set i | 0 <= i < n && gears[..n][i] == 0;
      assert s == if gears[n] == 0 then t + {n} else t;
    }
  }

  /** A clip without runs is a boundary exactly when more than half of its frames, or without a frame count of its
      points, are in Park. */
  lemma {:induction false} LegacyParkedIs(clip: Clip)
    ensures GearCount.LegacyParked(clip) <==>
            var s := clip.s;
            if s.rawFrames > 0 then 2 * s.rawPark > s.rawFrames
            else 2 * |set i | 0 <= i < |s.gears| && s.gears[i] == 0| > |s.gears|
  {
    ParkCountIs(clip.s.gears);
    if clip.s.rawFrames > 0 {
      Half(clip.s.rawPark, clip.s.rawFrames);
    }
    hide ParkCount;
  }

  // ----- cutting at boundaries ----------------------------------------------

  /** How many boundaries come first. */
  ghost function Leading(e: seq<Option<Clip>>): (n: nat)
    ensures n <= |e|
  {
    if e != [] && e[0].None? then 1 + Leading(e[1..]) else 0
  }

  /** `drives` are the longest stretches of `e` between boundaries, in order. */
  ghost predicate Between(e: seq<Option<Clip>>, drives: seq<seq<Clip>>)
    decreases |drives|
  {
    if drives == [] then Leading(e) == |e|
    else First(e, drives[0]) && Between(e[Leading(e) + |drives[0]|..], drives[1..])
  }

  /** `d` is the first stretch of `e`. */
  ghost predicate First(e: seq<Option<Clip>>, d: seq<Clip>) {
    var k := Leading(e);
    && d != [] && k + |d| <= |e| && (forall j :: 0 <= j < |d| ==> e[k + j] == Some(d[j]))
    && (k + |d| == |e| || e[k + |d|].None?)
  }

  lemma FirstSnoc(e: seq<Option<Clip>>, d: seq<Clip>, x: Option<Clip>)
    requires First(e, d) && (Leading(e) + |d| < |e| || x.None?)
    ensures First(e + [x], d) && Leading(e + [x]) == Leading(e)
  {
    LeadingSnoc(e, x);
    hide Leading;
  }

  lemma {:induction false} LeadingSnoc(e: seq<Option<Clip>>, x: Option<Clip>)
    ensures Leading(e + [x]) == if Leading(e) == |e| && x.None? then |e| + 1 else Leading(e)
  {
    if e == [] {
      assert e + [x] == [x];
      assert [x][1..] == [];
    } else {
      assert (e + [x])[1..] == e[1..] + [x];
      LeadingSnoc(e[1..], x);
    }
  }

  lemma {:induction false} LeadingStops(e: seq<Option<Clip>>)
    ensures Leading(e) < |e| ==> e[Leading(e)].Some?
  {
    if e != [] && e[0].None? {
      LeadingStops(e[1..]);
    }
  }

  /** The end of the events after the first drive. */
  lemma TailSnoc(e: seq<Option<Clip>>, x: Option<Clip>, m: nat)
    requires m <= |e|
    ensures (e + [x])[m..] == e[m..] + [x]
  {
  }

  lemma {:induction false} BetweenBoundary(e: seq<Option<Clip>>, drives: seq<seq<Clip>>)
    requires Between(e, drives)
    ensures Between(e + [None], drives)
    decreases |drives|
  {
    hide Leading, First;
    LeadingSnoc(e, None);
    if drives != [] {
      FirstInside(e, drives[0]);
      FirstSnoc(e, drives[0], None);
      TailSnoc(e, None, Leading(e) + |drives[0]|);
      BetweenBoundary(e[Leading(e) + |drives[0]|..], drives[1..]);
    }
  }

  lemma FirstInside(e: seq<Option<Clip>>, d: seq<Clip>)
    requires First(e, d)
    ensures d != [] && Leading(e) + |d| <= |e| && e[Leading(e) + |d| - 1] == Some(d[|d| - 1])
  {
    hide Leading;
  }

  lemma {:induction false} BetweenNew(e: seq<Option<Clip>>, drives: seq<seq<Clip>>, c: Clip)
    requires Between(e, drives) && (e == [] || e[|e| - 1].None?)
    ensures Between(e + [Some(c)], drives + [[c]])
    decreases |drives|
  {
    hide Leading, First;
    if drives == [] {
      NewAlone(e, c);
      assert drives + [[c]] == [[c]];
    } else {
      var m, all := Leading(e) + |drives[0]|, drives + [[c]];
      FirstInside(e, drives[0]);
      FirstSnoc(e, drives[0], Some(c));
      TailSnoc(e, Some(c), m);
      assert e[m..][|e[m..]| - 1] == e[|e| - 1];
      BetweenNew(e[m..], drives[1..], c);
      assert all[1..] == drives[1..] + [[c]] && all[0] == drives[0];
    }
  }

  lemma {:induction false} NewAlone(e: seq<Option<Clip>>, c: Clip)
    requires Between(e, [])
    ensures Between(e + [Some(c)], [[c]])
  {
    var more := e + [Some(c)];
    LeadingSnoc(e, Some(c));
    NothingBetween();
    assert more[|more|..] == [];
    assert [[c]][1..] == [];
    hide Leading;
  }

  lemma {:induction false} LastMore(e: seq<Option<Clip>>, last: seq<Clip>, c: Clip)
    requires Between(e, [last]) && e != [] && e[|e| - 1].Some?
    ensures Between(e + [Some(c)], [last + [c]])
  {
    LeadingSnoc(e, Some(c));
    var m, d: seq<Clip> := Leading(e) + |last|, last + [c];
    assert [last][1..] == [] && [d][1..] == [];
    if m < |e| {
      NotAllBoundaries(e[m..]);
    }
    assert m == |e|;
    var more := e + [Some(c)];
    assert more[|more|..] == [];
    NothingBetween();
    hide Leading;
    assert forall j :: 0 <= j < |d| ==> more[Leading(e) + j] == Some(d[j]);
  }

  lemma {:induction false} BetweenMore(e: seq<Option<Clip>>, done: seq<seq<Clip>>, last: seq<Clip>, c: Clip)
    requires Between(e, done + [last]) && e != [] && e[|e| - 1].Some?
    ensures Between(e + [Some(c)], done + [last + [c]])
    decreases |done|
  {
    if done == [] {
      assert [] + [last] == [last] && [] + [last + [c]] == [last + [c]];
      LastMore(e, last, c);
    } else {
      hide Leading, First;
      var drives, all := done + [last], done + [last + [c]];
      assert drives[1..] == done[1..] + [last] && all[1..] == done[1..] + [last + [c]];
      assert drives[0] == done[0] == all[0];
      var m := Leading(e) + |done[0]|;
      FirstInside(e, done[0]);
      FirstSnoc(e, done[0], Some(c));
      TailSnoc(e, Some(c), m);
      assert e[m..][|e[m..]| - 1] == e[|e| - 1];
      BetweenMore(e[m..], done[1..], last, c);
    }
  }

  lemma {:induction false} NotAllBoundaries(e: seq<Option<Clip>>)
    requires e != [] && e[|e| - 1].Some?
    ensures Leading(e) < |e|
  {
    if e[0].None? {
      NotAllBoundaries(e[1..]);
    }
  }

  /** The walk over the events cuts them between boundaries. */
  lemma {:induction false} RunIsBetween(e: seq<Option<Clip>>)
    ensures var st := GearCount.Run(GearCount.IDLE, e);
            && (st.current != [] <==> e != [] && e[|e| - 1].Some?) && Between(e, GearCount.Drives(st))
  {
    hide Between, Leading;
    if e == [] {
      NothingBetween();
    } else {
      var front, last := e[..|e| - 1], e[|e| - 1];
      assert e == front + [last];
      RunIsBetween(front);
      var st := GearCount.Run(GearCount.IDLE, front);
      if last.None? {
        BetweenBoundary(front, GearCount.Drives(st));
      } else if st.current == [] {
        assert st.current + [last.value] == [last.value];
        BetweenNew(front, st.done, last.value);
      } else {
        BetweenMore(front, st.done, st.current, last.value);
      }
    }
  }

  lemma NothingBetween()
    ensures Between([], [])
  {
    assert Leading([]) == 0;
  }

  // ----- a clip and a group -------------------------------------------------

  /** What a clip contributes: itself without runs; without frames or without a stop itself, unless it has no points;
      and otherwise its segments and boundaries. */
  ghost predicate Contributes(clip: Clip, e: seq<Option<Clip>>) {
    var runs := clip.s.gearRuns;
    if runs != [] && Stops(runs) then exists at :: StandFor(clip, at, e)
    else if runs != [] && clip.s.points == [] then e == []
    else e == [Some(clip)]
  }

  lemma {:induction false} AllHavePoints(clip: Clip, at: seq<Span>, e: seq<Option<Clip>>)
    requires Upto(clip.s.gearRuns, |clip.s.gearRuns|) != 0 && StandFor(clip, at, e)
    ensures GearCount.WithPoints(e) == e
  {
    hide Upto, Stands;
    if e != [] {
      var n := |e| - 1;
      AllHavePoints(clip, at[..n], e[..n]);
      HasPoints(clip, at[n], e[n]);
      assert e == e[..n] + [e[n]];
    }
  }

  lemma HasPoints(clip: Clip, s: Span, e: Option<Clip>)
    requires Inside(clip.s.gearRuns, s) && Upto(clip.s.gearRuns, |clip.s.gearRuns|) != 0 && Stands(clip, s, e)
    ensures e.Some? ==> e.value.s.points != []
  {
    hide Upto, Gap, Stretch, Lo, Hi, Part;
  }

  lemma {:induction false} ClipContributes(clip: Clip)
    ensures Contributes(clip, GearCount.ClipEvents(clip))
  {
    var runs := clip.s.gearRuns;
    if runs != [] && Stops(runs) {
      var at := SegmentsAre(clip);
      AllHavePoints(clip, at, Segments(clip));
    } else if runs != [] {
      WholeClipIs(clip);
      OneWithPoints(clip);
    }
    hide Segments, Gap, Upto, StandFor;
  }

  lemma OneWithPoints(clip: Clip)
    ensures GearCount.WithPoints([Some(clip)]) == if clip.s.points == [] then [] else [Some(clip)]
  {
    var e: seq<Option<Clip>> := [Some(clip)];
    assert e[..0] == [];
    assert GearCount.WithPoints(e[..0]) == [];
    assert [] + e == e;
  }

  /** `e` is what the clips of the group contribute, one after the other. */
  ghost predicate EventsOf(group: seq<Clip>, e: seq<Option<Clip>>)
    decreases |group|
  {
    if group == [] then e == [] else
      exists k :: 0 <= k <= |e| && Contributes(group[0], e[..k]) && EventsOf(group[1..], e[k..])
  }

  lemma {:induction false} EventsFrom(group: seq<Clip>, k: nat) returns (e: seq<Option<Clip>>)
    requires k <= |group|
    ensures EventsOf(group[k..], e) && GearCount.Events(group, |group|) == GearCount.Events(group, k) + e
    decreases |group| - k
  {
    hide Contributes, GearCount.ClipEvents, GearCount.Events, EventsOf;
    if k == |group| {
      e := [];
      NoEvents(group[k..]);
    } else {
      var rest := EventsFrom(group, k + 1);
      var first := GearCount.ClipEvents(group[k]);
      ClipContributes(group[k]);
      EventsJoin(group, k, first, rest);
      e := first + rest;
      EventsStep(group, k);
      Associates(GearCount.Events(group, k), first, rest);
    }
  }

  lemma NoEvents(group: seq<Clip>)
    requires group == []
    ensures EventsOf(group, [])
  {
  }

  lemma EventsStep(group: seq<Clip>, k: nat)
    requires k < |group|
    ensures GearCount.Events(group, k + 1) == GearCount.Events(group, k) + GearCount.ClipEvents(group[k])
  {
    hide GearCount.ClipEvents;
  }

  lemma Associates<T>(a: seq<T>, b: seq<T>, c: seq<T>)
    ensures a + (b + c) == a + b + c
  {
  }

  lemma EventsJoin(group: seq<Clip>, k: nat, first: seq<Option<Clip>>, rest: seq<Option<Clip>>)
    requires k < |group| && Contributes(group[k], first) && EventsOf(group[k + 1..], rest)
    ensures EventsOf(group[k..], first + rest)
  {
    hide Contributes;
    var e := first + rest;
    assert e[..|first|] == first && e[|first|..] == rest && group[k..][1..] == group[k + 1..];
  }

  /** What a group of clips with gear runs is cut into: the longest stretches between boundaries of what its clips
      contribute, or the whole group when nothing but boundaries is left. */
  lemma {:induction false} GroupIsCut(group: seq<Clip>)
    requires exists k :: 0 <= k < |group| && group[k].s.gearRuns != []
    ensures exists e, drives :: EventsOf(group, e) && Between(e, drives)
                                && GearCount.GearStateSplit(group) == if drives == [] then [group] else drives
  {
    var e := EventsFrom(group, 0);
    assert group[0..] == group;
    assert GearCount.Events(group, 0) + e == e;
    RunIsBetween(e);
    hide EventsOf, Between, GearCount.Events, GearCount.Run, GearCount.Drives;
    assert GearCount.AnyRuns(group);
  }

  /** What a group without gear runs is cut into: the longest stretches of clips that are not parked, or the whole
      group when there are none, when no clip has gears, and when there is just one clip. */
  lemma {:induction false} LegacyGroupIsCut(group: seq<Clip>)
    requires group != [] && forall k :: 0 <= k < |group| ==> group[k].s.gearRuns == []
    ensures exists e, drives ::
              && |e| == |group| && (forall k :: 0 <= k < |group| ==>
                                      e[k] == if GearCount.LegacyParked(group[k]) then None else Some(group[k]))
              && Between(e, drives)
              && GearCount.GearStateSplit(group) ==
                 if drives == [] || |group| == 1 || (forall k :: 0 <= k < |group| ==> group[k].s.gears == [])
                 then [group] else drives
  {
    hide GearCount.LegacyEvents, GearCount.Run, GearCount.Drives, Between, GearCount.LegacyParked,
         GearCount.GearStateSplit;
    var e := GearCount.LegacyEvents(group, |group|);
    LegacyEventsAre(group, |group|);
    RunIsBetween(e);
    LegacySplitIs(group, GearCount.Drives(GearCount.Run(GearCount.IDLE, e)));
  }

  lemma LegacySplitIs(group: seq<Clip>, drives: seq<seq<Clip>>)
    requires group != [] && forall k :: 0 <= k < |group| ==> group[k].s.gearRuns == []
    requires drives == GearCount.Drives(GearCount.Run(GearCount.IDLE, GearCount.LegacyEvents(group, |group|)))
    ensures GearCount.GearStateSplit(group) ==
            if drives == [] || |group| == 1 || (forall k :: 0 <= k < |group| ==> group[k].s.gears == [])
            then [group] else drives
  {
    hide GearCount.LegacyEvents, GearCount.Run, GearCount.Drives;
    assert !GearCount.AnyRuns(group);
    assert GearCount.AnyGears(group) <==> !(forall k :: 0 <= k < |group| ==> group[k].s.gears == []);
  }

  lemma {:induction false} LegacyEventsAre(group: seq<Clip>, n: nat)
    requires n <= |group|
    ensures var e := GearCount.LegacyEvents(group, n);
            && |e| == n
            && forall k :: 0 <= k < n ==> e[k] == if GearCount.LegacyParked(group[k]) then None else Some(group[k])
  {
    hide GearCount.LegacyParked;
    if n > 0 {
      LegacyEventsAre(group, n - 1);
    }
  }

  // ----- counting without runs ----------------------------------------------

  /** A clip with some parked frames, and one with more than six tenths of them parked. */
  ghost predicate SomeParked(c: Clip) { c.s.rawFrames > 0 && c.s.rawPark > 0 }
  ghost predicate MostlyParked(c: Clip) { SomeParked(c) && 10 * c.s.rawPark > 6 * c.s.rawFrames }

  /** Where the counter sees a drive begin: a clip with some but not most frames parked, after one with most. */
  ghost function Resumptions(group: seq<Clip>, n: nat): set<nat>
    requires n <= |group|
  {
    set k: nat | 0 < k < n && MostlyParked(group[k - 1]) && SomeParked(group[k]) && !MostlyParked(group[k])
  }

  lemma {:induction false} LegacyCountIs(group: seq<Clip>, n: nat)
    requires n <= |group|
    ensures var c := GearCount.CountLegacy(group, n);
            && c.count == 1 + |Resumptions(group, n)|
            && (c.prevAllPark <==> n > 0 && MostlyParked(group[n - 1]))
  {
    hide MostlyParked, SomeParked;
    if n == 0 {
      assert Resumptions(group, 0) == {};
    } else {
      var k := n - 1;
      LegacyCountIs(group, k);
      SharesAre(group[k]);
      var begins := k > 0 && MostlyParked(group[k - 1]) && SomeParked(group[k]) && !MostlyParked(group[k]);
      assert Resumptions(group, n) == if begins then Resumptions(group, k) + {k} else Resumptions(group, k);
    }
  }

  lemma SharesAre(c: Clip)
    ensures SomeParked(c) <==> c.s.rawFrames > 0 && c.s.rawPark > 0
    ensures SomeParked(c) ==> (MostlyParked(c) <==> c.s.rawPark as real / c.s.rawFrames as real > 0.6)
    ensures MostlyParked(c) ==> SomeParked(c)
  {
    if c.s.rawFrames > 0 {
      Half(c.s.rawPark, c.s.rawFrames);
    }
  }

  /** Without gear runs the counter reports one drive more than there are such places. */
  lemma {:induction false} LegacyCount(group: seq<Clip>)
    requires group != [] && forall k :: 0 <= k < |group| ==> group[k].s.gearRuns == []
    ensures GearCount.GearSplits(group) == 1 + |Resumptions(group, |group|)|
  {
    LegacyCountIs(group, |group|);
    hide GearCount.CountLegacy, Resumptions;
    assert !GearCount.AnyRuns(group);
  }
}
