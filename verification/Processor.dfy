/** What is stored of a clip: gear runs over its raw frames, and its points without repetitions
    (server/drives/processor.go lines 157-178 and 284-351). */
module Processor {
  import opened Bytes
  import opened DriveTypes
  import opened Gears
  import opened ParkGaps

  // ----- gear runs ----------------------------------------------------------

  ghost function Repeat(gear: byte, n: nat): (s: seq<byte>)
    ensures |s| == n && forall k :: 0 <= k < n ==> s[k] == gear
  {
    if n == 0 then [] else Repeat(gear, n - 1) + [gear]
  }

  /** The raw frames a list of runs stands for. */
  ghost function Expand(runs: seq<GearRun>): seq<byte>
    requires forall k :: 0 <= k < |runs| ==> runs[k].frames >= 0
  {
    if runs == [] then [] else
      var last := runs[|runs| - 1];
      Expand(runs[..|runs| - 1]) + Repeat(last.gear, last.frames)
  }

  ghost function ParkFrames(runs: seq<GearRun>): int {
    if runs == [] then 0 else
      var last := runs[|runs| - 1];
      ParkFrames(runs[..|runs| - 1]) + if last.gear == PARK then last.frames else 0
  }

  lemma RunsSnoc(runs: seq<GearRun>, gear: byte, n: nat)
    requires Canonical(runs) && n >= 1 && (runs != [] ==> runs[|runs| - 1].gear != gear)
    ensures Canonical(runs + [GearRun(gear, n)]) && Expand(runs + [GearRun(gear, n)]) == Expand(runs) + Repeat(gear, n)
  {
    var all := runs + [GearRun(gear, n)];
    assert all[..|all| - 1] == runs;
  }

  /** Finished runs and the run being counted, as frames. */
  ghost predicate Counting(runs: seq<GearRun>, gear: byte, n: nat, gears: seq<byte>) {
    && n >= 1 && Canonical(runs) && (runs != [] ==> runs[|runs| - 1].gear != gear)
    && Expand(runs) + Repeat(gear, n) == gears
  }

  lemma StartCounting(gear: byte)
    ensures Counting([], gear, 1, [gear])
  {
    OneFrame([], gear);
    assert [] + Repeat(gear, 1) == Repeat(gear, 1);
  }

  lemma CountSame(runs: seq<GearRun>, gear: byte, n: nat, gears: seq<byte>)
    requires Counting(runs, gear, n, gears)
    ensures Counting(runs, gear, n + 1, gears + [gear])
  {
    hide Expand, Repeat;
    OneMoreFrame(Expand(runs), gear, n);
  }

  lemma CountOther(runs: seq<GearRun>, gear: byte, n: nat, gears: seq<byte>, next: byte)
    requires Counting(runs, gear, n, gears)
    ensures Canonical(runs + [GearRun(gear, n)]) && Expand(runs + [GearRun(gear, n)]) == gears
    ensures next != gear ==> Counting(runs + [GearRun(gear, n)], next, 1, gears + [next])
  {
    hide Expand, Repeat;
    RunsSnoc(runs, gear, n);
    OneFrame(gears, next);
  }

  method ComputeGearRuns(gears: seq<byte>) returns (runs: seq<GearRun>)
    ensures Canonical(runs) && Expand(runs) == gears
  {
    runs := [];
    if |gears| == 0 {
      return;
    }
    hide Expand, Counting;
    var currentGear, count := gears[0], 1;
    StartCounting(gears[0]);
    assert gears[..1] == [gears[0]];
    for i := 1 to |gears|
      invariant count >= 1 && Counting(runs, currentGear, count, gears[..i])
    {
      assert gears[..i + 1] == gears[..i] + [gears[i]];
      if gears[i] == currentGear {
        CountSame(runs, currentGear, count, gears[..i]);
        count := count + 1;
      } else {
        CountOther(runs, currentGear, count, gears[..i], gears[i]);
        runs := runs + [GearRun(currentGear, count)];
        currentGear := gears[i];
        count := 1;
      }
    }
    CountOther(runs, currentGear, count, gears[..|gears|], currentGear);
    assert gears[..|gears|] == gears;
    runs := runs + [GearRun(currentGear, count)];
  }

  lemma OneMoreFrame(done: seq<byte>, gear: byte, n: nat)
    ensures done + Repeat(gear, n + 1) == done + Repeat(gear, n) + [gear]
  {
  }

  lemma OneFrame(done: seq<byte>, gear: byte)
    ensures done + Repeat(gear, 1) == done + [gear]
  {
    assert Repeat(gear, 0) == [];
  }

  lemma {:induction false} CountRepeat(s: seq<byte>, gear: byte, n: nat)
    ensures ParkCount(s + Repeat(gear, n)) == ParkCount(s) + if gear == PARK then n else 0
  {
    var all := s + Repeat(gear, n);
    if n == 0 {
      assert all == s;
    } else {
      assert all[..|all| - 1] == s + Repeat(gear, n - 1);
      CountRepeat(s, gear, n - 1);
    }
  }

  /** The runs account for every frame, parked or not. */
  lemma {:induction false} RunsConserveFrames(runs: seq<GearRun>)
    requires forall k :: 0 <= k < |runs| ==> runs[k].frames >= 0
    ensures Frames(runs) == |Expand(runs)| && ParkFrames(runs) == ParkCount(Expand(runs))
  {
    if runs != [] {
      var front, last := runs[..|runs| - 1], runs[|runs| - 1];
      RunsConserveFrames(front);
      CountRepeat(Expand(front), last.gear, last.frames);
    }
  }

  lemma LastOfExpand(runs: seq<GearRun>)
    requires Canonical(runs) && runs != []
    ensures var e, last := Expand(runs), runs[|runs| - 1];
            && |e| >= last.frames >= 1
            && (forall k :: |e| - last.frames <= k < |e| ==> e[k] == last.gear)
            && e[..|e| - last.frames] == Expand(runs[..|runs| - 1])
  {
  }

  /** The frame before the last run has another gear. */
  lemma BeforeLastRun(runs: seq<GearRun>)
    requires Canonical(runs) && runs != []
    ensures Canonical(runs[..|runs| - 1])
    ensures var e, n := Expand(runs), runs[|runs| - 1].frames;
            n < |e| ==> e[|e| - n - 1] != e[|e| - 1]
  {
    var front := runs[..|runs| - 1];
    assert Canonical(front);
    LastOfExpand(runs);
    if front != [] {
      assert runs[|runs| - 1].gear != runs[|runs| - 2].gear;
      LastOfExpand(front);
      hide Expand, Canonical;
      var e, n := Expand(runs), runs[|runs| - 1].frames;
      assert e[..|e| - n][|e| - n - 1] == e[|e| - n - 1];
    } else {
      assert Expand(front) == [];
    }
  }

  /** e ends in exactly n frames of one gear. */
  ghost predicate EndsIn(e: seq<byte>, gear: byte, n: nat) {
    && 1 <= n <= |e| && (forall k :: |e| - n <= k < |e| ==> e[k] == gear)
    && (n < |e| ==> e[|e| - n - 1] != e[|e| - 1])
  }

  lemma OneEnding(e: seq<byte>, g: byte, m: nat, h: byte, n: nat)
    requires EndsIn(e, g, m) && EndsIn(e, h, n)
    ensures g == h && m == n
  {
    assert e[|e| - 1] == g == h;
  }

  lemma LastRunEnds(runs: seq<GearRun>)
    requires Canonical(runs) && runs != []
    ensures Canonical(runs[..|runs| - 1])
    ensures var e, last := Expand(runs), runs[|runs| - 1];
            EndsIn(e, last.gear, last.frames) && e[..|e| - last.frames] == Expand(runs[..|runs| - 1])
  {
    LastOfExpand(runs);
    BeforeLastRun(runs);
  }

  /** The runs of a clip are determined by its frames. */
  lemma {:induction false} RunsAreUnique(a: seq<GearRun>, b: seq<GearRun>)
    requires Canonical(a) && Canonical(b) && Expand(a) == Expand(b)
    ensures a == b
  {
    if a != [] && b != [] {
      LastRunEnds(a);
      LastRunEnds(b);
      hide Expand, EndsIn;
      var la, lb := a[|a| - 1], b[|b| - 1];
      OneEnding(Expand(a), la.gear, la.frames, lb.gear, lb.frames);
      RunsAreUnique(a[..|a| - 1], b[..|b| - 1]);
      assert a == a[..|a| - 1] + [la] && b == b[..|b| - 1] + [lb];
    } else if a != [] {
      LastOfExpand(a);
    } else if b != [] {
      LastOfExpand(b);
    }
  }

  // ----- deduplication ------------------------------------------------------

  /** The elements of a parallel slice whose point differs from the one before. */
  ghost function Kept<T>(points: seq<Point>, s: seq<T>, k: nat): seq<T>
    requires |s| == |points| && k <= |points|
  {
    if k == 0 then []
    else if k == 1 || points[k - 1] != points[k - 2] then Kept(points, s, k - 1) + [s[k - 1]]
    else Kept(points, s, k - 1)
  }

  /** A slice that is not parallel to the points is dropped. */
  ghost function KeptSlice<T>(points: seq<Point>, s: seq<T>): seq<T> {
    if |s| == |points| then Kept(points, s, |s|) else []
  }

  datatype Samples = Samples(points: seq<Point>, gears: seq<byte>, ap: seq<byte>, speeds: seq<real>, accel: seq<real>)

  ghost function Deduped(x: Samples): Samples {
    Samples(KeptSlice(x.points, x.points), KeptSlice(x.points, x.gears), KeptSlice(x.points, x.ap),
            KeptSlice(x.points, x.speeds), KeptSlice(x.points, x.accel))
  }

  /** The part of a slice kept of the first k samples. */
  ghost function KeptSoFar<T>(points: seq<Point>, s: seq<T>, k: nat): seq<T>
    requires k <= |points|
  {
    if |s| == |points| then Kept(points, s, k) else []
  }

  lemma KeptNext<T>(points: seq<Point>, s: seq<T>, i: nat)
    requires 1 <= i < |points|
    ensures KeptSoFar(points, s, i + 1) ==
            KeptSoFar(points, s, i) + if |s| == |points| && points[i] != points[i - 1] then [s[i]] else []
  {
  }

  method DeduplicatePoints(x: Samples) returns (d: Samples)
    ensures d == Deduped(x)
  {
    if |x.points| == 0 {
      return Samples([], [], [], [], []);
    }
    var n := |x.points|;
    var points := [x.points[0]];
    FirstKept(x.points, x.points);
    var gears, ap := First(x.points, x.gears), First(x.points, x.ap);
    var speeds, accel := First(x.points, x.speeds), First(x.points, x.accel);
    for i := 1 to n
      invariant points == KeptSoFar(x.points, x.points, i)
      invariant gears == KeptSoFar(x.points, x.gears, i) && ap == KeptSoFar(x.points, x.ap, i)
      invariant speeds == KeptSoFar(x.points, x.speeds, i) && accel == KeptSoFar(x.points, x.accel, i)
    {
      hide KeptSoFar, First;
      KeptNext(x.points, x.points, i);
      KeptNext(x.points, x.gears, i);
      KeptNext(x.points, x.ap, i);
      KeptNext(x.points, x.speeds, i);
      KeptNext(x.points, x.accel, i);
      if x.points[i] != x.points[i - 1] {
        points := points + [x.points[i]];
        if |x.gears| == n {
          gears := gears + [x.gears[i]];
        }
        if |x.ap| == n {
          ap := ap + [x.ap[i]];
        }
        if |x.speeds| == n {
          speeds := speeds + [x.speeds[i]];
        }
        if |x.accel| == n {
          accel := accel + [x.accel[i]];
        }
      }
    }
    d := Samples(points, gears, ap, speeds, accel);
  }

  /** The first sample of a slice that is parallel to the points. */
  function First<T>(points: seq<Point>, s: seq<T>): (r: seq<T>)
    requires points != []
    ensures r == KeptSoFar(points, s, 1)
  {
    if |s| == |points| then FirstKept(points, s); [s[0]] else []
  }

  lemma FirstKept<T>(points: seq<Point>, s: seq<T>)
    requires |s| == |points| > 0
    ensures Kept(points, s, 1) == [s[0]]
  {
    assert Kept(points, s, 0) == [];
  }

  /** A point stays when it is the first or differs from the one before it. */
  ghost predicate Changes(points: seq<Point>, i: nat) {
    i < |points| && (i == 0 || points[i] != points[i - 1])
  }

  /** What is kept of any parallel slice are its entries where the points change, all of them and in order. */
  lemma {:induction false} KeptAre<T>(points: seq<Point>, s: seq<T>, k: nat) returns (at: seq<nat>)
    requires |s| == |points| && k <= |points|
    ensures |Kept(points, s, k)| == |at|
    ensures forall j :: 0 <= j < |at| ==> at[j] < k && Kept(points, s, k)[j] == s[at[j]]
    ensures forall i, j :: 0 <= i < j < |at| ==> at[i] < at[j]
    ensures forall i: nat :: i < k ==> (i in at <==> Changes(points, i))
  {
    at := [];
    if k > 0 {
      at := KeptAre(points, s, k - 1);
      if Changes(points, k - 1) {
        at := at + [k - 1];
      }
    }
  }

  /** No two neighbours are the same point. */
  ghost predicate NoRepeats(points: seq<Point>) {
    forall k :: 0 < k < |points| ==> points[k] != points[k - 1]
  }

  lemma {:induction false} KeptHasNoRepeats(points: seq<Point>, k: nat)
    requires k <= |points|
    ensures var r := Kept(points, points, k); NoRepeats(r) && (k > 0 ==> r != [] && r[|r| - 1] == points[k - 1])
  {
    if k > 0 {
      KeptHasNoRepeats(points, k - 1);
    }
  }

  lemma {:induction false} NothingToDrop<T>(points: seq<Point>, s: seq<T>, k: nat)
    requires NoRepeats(points) && |s| == |points| && k <= |s|
    ensures Kept(points, s, k) == s[..k]
  {
    if k > 0 {
      NothingToDrop(points, s, k - 1);
    }
  }

  lemma {:induction false} KeptLength<T>(points: seq<Point>, s: seq<T>, k: nat)
    requires |s| == |points| && k <= |points|
    ensures |Kept(points, s, k)| == |Kept(points, points, k)|
  {
    if k > 0 {
      KeptLength(points, s, k - 1);
    }
  }

  lemma NothingDropped<T>(points: seq<Point>, s: seq<T>)
    requires NoRepeats(points) && (|s| == |points| || s == [])
    ensures KeptSlice(points, s) == s
  {
    if |s| == |points| {
      NothingToDrop(points, s, |s|);
    }
  }

  lemma SliceStays<T>(points: seq<Point>, s: seq<T>)
    ensures var d := KeptSlice(points, points);
            NoRepeats(d) && KeptSlice(d, KeptSlice(points, s)) == KeptSlice(points, s)
  {
    KeptHasNoRepeats(points, |points|);
    if |s| == |points| {
      KeptLength(points, s, |s|);
    }
    hide Kept, NoRepeats;
    NothingDropped(KeptSlice(points, points), KeptSlice(points, s));
  }

  /** Deduplication is idempotent and leaves no equal neighbours. */
  lemma DedupIsIdempotent(x: Samples)
    ensures NoRepeats(Deduped(x).points) && Deduped(Deduped(x)) == Deduped(x)
  {
    hide KeptSlice, NoRepeats;
    SliceStays(x.points, x.points);
    SliceStays(x.points, x.gears);
    SliceStays(x.points, x.ap);
    SliceStays(x.points, x.speeds);
    SliceStays(x.points, x.accel);
  }

  ghost function Zip<T>(points: seq<Point>, s: seq<T>): seq<(Point, T)>
    requires |s| == |points|
  {
    seq(|s|, i requires 0 <= i < |s| => (points[i], s[i]))
  }

  /** Parallel slices stay in sync: pairing before deduplicating is pairing after it. */
  lemma {:induction false} SlicesStayInSync<T>(points: seq<Point>, s: seq<T>, k: nat)
    requires |s| == |points| && k <= |points|
    ensures |Kept(points, points, k)| == |Kept(points, s, k)|
    ensures Kept(points, Zip(points, s), k) == Zip(Kept(points, points, k), Kept(points, s, k))
  {
    if k > 0 {
      SlicesStayInSync(points, s, k - 1);
      KeptLength(points, s, k - 1);
    }
  }

  // ----- the stored clip ----------------------------------------------------

  /** What AddRoute is given for a clip, or nothing when no point is left. */
  method ProcessClip(file: string, date: string, x: Samples) returns (route: Option<Route>)
    ensures route.None? <==> x.points == []
    ensures route.Some? ==>
              var r, d := route.value, Deduped(x);
              && r.file == file && r.date == date
              && Samples(r.points, r.gears, r.ap, r.speeds, r.accel) == d
              && r.points != [] && NoRepeats(r.points)
              && Canonical(r.gearRuns) && Expand(r.gearRuns) == x.gears
              && r.rawFrames == |x.gears| == Frames(r.gearRuns)
              && r.rawPark == ParkCount(x.gears) == ParkFrames(r.gearRuns)
  {
    hide Expand, Canonical, NoRepeats, Frames, ParkFrames;
    var rawParkCount := 0;
    for i := 0 to |x.gears|
      invariant rawParkCount == ParkCount(x.gears[..i])
    {
      assert x.gears[..i + 1][..i] == x.gears[..i];
      if x.gears[i] == PARK {
        rawParkCount := rawParkCount + 1;
      }
    }
    assert x.gears[..|x.gears|] == x.gears;
    var runs := ComputeGearRuns(x.gears);
    var d := DeduplicatePoints(x);
    RunsOfClip(runs);
    DedupIsIdempotent(x);
    KeptHasNoRepeats(x.points, |x.points|);
    if |d.points| == 0 {
      return None;
    }
    return Some(Route(file, date, d.points, d.gears, d.ap, d.speeds, d.accel,
                      rawParkCount, |x.gears|, runs, "", "", 0.0));
  }

  lemma RunsOfClip(runs: seq<GearRun>)
    requires Canonical(runs)
    ensures Frames(runs) == |Expand(runs)| && ParkFrames(runs) == ParkCount(Expand(runs))
  {
    RunsConserveFrames(runs);
  }
}
