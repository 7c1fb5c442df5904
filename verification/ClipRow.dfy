/** What the walk over a clip adds up, read off its points, speeds, states and pedal positions alone: explicit
    sets of pairs, sums over them, and times as ratios of indices (server/drives/aggregate.go lines 31-203). */
module ClipRow {
  import opened DriveTypes
  import opened PairWalk
  import opened FsdEvents
  import opened Aggregate

  // ----- pairs --------------------------------------------------------------

  /** The clip has a speed for every point, and not all are zero or less. */
  ghost predicate Measured(w: Walk) {
    |w.r.speeds| == |w.r.points| && exists k :: 0 <= k < |w.r.points| && w.r.speeds[k] > 0.0
  }

  /** The distance from the point before `i` to point `i`, in metres. */
  ghost function Leg(w: Walk, i: nat): real
    requires 1 <= i < |w.r.points|
  {
    (w.dist)(w.r.points[i - 1], w.r.points[i])
  }

  /** Both ends are valid and, without measured speeds, a pair takes no more than 70 m/s; the clip lasts sixty
      seconds. */
  ghost predicate Driven(w: Walk, i: nat)
    requires |w.valid| == |w.r.points|
  {
    var n := |w.r.points|;
    1 <= i < n && w.valid[i - 1] && w.valid[i] && (Measured(w) || Leg(w, i) * (n - 1) as real / 60.0 <= 70.0)
  }

  /** The speed at the end of a pair: measured, or its distance over its time. */
  ghost function Reading(w: Walk, i: nat): real
    requires 1 <= i < |w.r.points|
  {
    if Measured(w) then w.r.speeds[i] else Leg(w, i) * (|w.r.points| - 1) as real / 60.0
  }

  ghost function DrivenPairs(w: Walk): set<nat>
    requires |w.valid| == |w.r.points|
  {
    set i | 1 <= i < |w.r.points| && Driven(w, i)
  }

  ghost function PlausiblePairs(w: Walk): set<nat>
    requires |w.valid| == |w.r.points|
  {
    set i | 1 <= i < |w.r.points| && Driven(w, i)
            && if Measured(w) then 0.0 <= Reading(w, i) < 100.0 else Reading(w, i) < 70.0
  }

  /** The driven pairs that end in autopilot state `mode`. */
  ghost function PairsIn(w: Walk, mode: int): set<nat>
    requires |w.valid| == |w.r.points|
  {
    set i | 1 <= i < |w.r.points| && Driven(w, i) && |w.r.ap| == |w.r.points| && w.r.ap[i] == mode
  }

  ghost function AssistedPairs(w: Walk): set<nat>
    requires |w.valid| == |w.r.points|
  {
    set i | 1 <= i < |w.r.points| && Driven(w, i) && |w.r.ap| == |w.r.points| && w.r.ap[i] != 0
  }

  ghost function Before(s: set<nat>, k: nat): set<nat> { set i | i in s && i < k }

  /** The distances of the pairs of `s` that end before `k`. */
  ghost function LegSum(w: Walk, s: set<nat>, k: nat): real
    requires k <= |w.r.points|
  {
    if k <= 1 then 0.0 else LegSum(w, s, k - 1) + if k - 1 in s then Leg(w, k - 1) else 0.0
  }

  ghost function ReadingSum(w: Walk, s: set<nat>, k: nat): real
    requires k <= |w.r.points|
  {
    if k <= 1 then 0.0 else ReadingSum(w, s, k - 1) + if k - 1 in s then Reading(w, k - 1) else 0.0
  }

  /** `m` is the largest of the plausible readings before `k`, or 0 when there is none above it. */
  ghost predicate Fastest(w: Walk, k: nat, m: real)
    requires |w.valid| == |w.r.points| && k <= |w.r.points|
  {
    && m >= 0.0
    && (forall i :: i in PlausiblePairs(w) && i < k ==> Reading(w, i) <= m)
    && (m == 0.0 || exists i :: i in PlausiblePairs(w) && i < k && Reading(w, i) == m)
  }

  lemma SpeedOfPair(d: real, t: real, m: real)
    requires m > 0.0 && t > 0.0 && t * m == 60000.0
    ensures d / (t / 1000.0) == d * m / 60.0
  {
    var v := d / (t / 1000.0);
    assert v * (t / 1000.0) == d;
    assert v * t == 1000.0 * d;
    assert v * (t * m) == (v * t) * m;
  }

  lemma PairTime(w: Walk)
    requires w.Valid() && |w.r.points| >= 2
    ensures Dt(w) * (|w.r.points| - 1) as real == 60000.0
    ensures Dt(w).Floor == 60000 / (|w.r.points| - 1)
  {
    var m, t := |w.r.points| - 1, Dt(w);
    assert t * m as real == 60000.0;
    FloorOfQuotient(60000, m, t);
  }

  lemma FloorOfQuotient(a: nat, m: nat, x: real)
    requires m > 0 && x * m as real == a as real
    ensures x.Floor == a / m
  {
    var q, r := a / m, a % m;
    assert a == q * m + r;
    assert a as real == q as real * m as real + r as real;
    var e := x - q as real;
    assert e * m as real == r as real;
    assert e < 0.0 ==> e * m as real < 0.0;
    assert e >= 1.0 ==> e * m as real >= m as real;
  }

  lemma PairIs(w: Walk, i: nat)
    requires w.Valid() && 1 <= i < |w.r.points|
    ensures Kept(w, i) <==> Driven(w, i)
    ensures D(w, i) == Leg(w, i) && HasSei(w) == Measured(w)
    ensures !Measured(w) ==> GpsSpeed(w, i) == Reading(w, i)
  {
    PairTime(w);
    SpeedOfPair(Leg(w, i), Dt(w), (|w.r.points| - 1) as real);
    hide Dt;
  }

  lemma {:induction false} NotBefore(w: Walk)
    requires w.Valid()
    ensures forall i: nat :: Kept(w, i) <==> Driven(w, i)
  {
    hide Kept, Driven;
    forall i: nat
      ensures Kept(w, i) <==> Driven(w, i)
    {
      if 1 <= i < |w.r.points| {
        PairIs(w, i);
      } else {
        NoPair(w, i);
      }
    }
  }

  lemma NoPair(w: Walk, i: nat)
    requires w.Valid() && !(1 <= i < |w.r.points|)
    ensures !Kept(w, i) && !Driven(w, i)
  {
  }

  // ----- sums ---------------------------------------------------------------

  /** What the sums over the first pairs of a clip are. */
  ghost predicate SumsAre(w: Walk, k: nat, t: Totals)
    requires |w.valid| == |w.r.points| && 2 <= |w.r.points| && k <= |w.r.points|
  {
    var ms := 60000 / (|w.r.points| - 1);
    && t.distance == LegSum(w, DrivenPairs(w), k) && t.assistedDist == LegSum(w, AssistedPairs(w), k)
    && t.fsdDist == LegSum(w, PairsIn(w, 1), k) && t.fsdMs == |Before(PairsIn(w, 1), k)| * ms
    && t.autosteerDist == LegSum(w, PairsIn(w, 2), k) && t.autosteerMs == |Before(PairsIn(w, 2), k)| * ms
    && t.taccDist == LegSum(w, PairsIn(w, 3), k) && t.taccMs == |Before(PairsIn(w, 3), k)| * ms
    && t.speedSum == ReadingSum(w, PlausiblePairs(w), k) && t.speedCount == |Before(PlausiblePairs(w), k)|
  }

  /** What one pair adds. */
  ghost predicate PairAdds(w: Walk, i: nat, t: Totals)
    requires |w.valid| == |w.r.points| && 1 <= i < |w.r.points|
  {
    var ms := 60000 / (|w.r.points| - 1);
    && t.distance == (if i in DrivenPairs(w) then Leg(w, i) else 0.0)
    && t.assistedDist == (if i in AssistedPairs(w) then Leg(w, i) else 0.0)
    && t.fsdDist == (if i in PairsIn(w, 1) then Leg(w, i) else 0.0) && t.fsdMs == (if i in PairsIn(w, 1) then ms else 0)
    && t.autosteerDist == (if i in PairsIn(w, 2) then Leg(w, i) else 0.0)
    && t.autosteerMs == (if i in PairsIn(w, 2) then ms else 0)
    && t.taccDist == (if i in PairsIn(w, 3) then Leg(w, i) else 0.0)
    && t.taccMs == (if i in PairsIn(w, 3) then ms else 0)
    && t.speedSum == (if i in PlausiblePairs(w) then Reading(w, i) else 0.0)
    && t.speedCount == (if i in PlausiblePairs(w) then 1 else 0)
  }

  lemma PairAddsUp(w: Walk, i: nat)
    requires w.Valid() && 1 <= i < |w.r.points|
    ensures PairAdds(w, i, PairTotals(w, i))
    ensures PairTotals(w, i).maxSpeed ==
            if i in PlausiblePairs(w) && Reading(w, i) > 0.0 then Reading(w, i) else 0.0
  {
    PairIs(w, i);
    PairTime(w);
    hide Kept, Driven, Dt, HasSei, Measured, GpsSpeed, D, Leg;
  }

  lemma {:induction false} BeforeGrows(s: set<nat>, k: nat)
    ensures |Before(s, k + 1)| == |Before(s, k)| + if k in s then 1 else 0
  {
    assert Before(s, k + 1) == if k in s then Before(s, k) + {k} else Before(s, k);
  }

  lemma {:induction false} NoneBefore(s: set<nat>, k: nat)
    requires forall i :: i in s ==> k <= i
    ensures Before(s, k) == {}
  {
  }

  lemma Scale(c: nat, here: bool, ms: nat)
    ensures (c + if here then 1 else 0) * ms == c * ms + if here then ms else 0
  {
  }

  /** One more pair. */
  lemma SumGrows(w: Walk, i: nat, t: Totals, c: Totals)
    requires w.Valid() && 1 <= i < |w.r.points| && SumsAre(w, i, t) && PairAdds(w, i, c)
    ensures SumsAre(w, i + 1, Plus(t, c))
  {
    hide DrivenPairs, PlausiblePairs, PairsIn, AssistedPairs, Leg, Reading, Before, LegSum, ReadingSum;
    var ms := 60000 / (|w.r.points| - 1);
    LegStep(w, DrivenPairs(w), i);
    LegStep(w, AssistedPairs(w), i);
    LegStep(w, PairsIn(w, 1), i);
    LegStep(w, PairsIn(w, 2), i);
    LegStep(w, PairsIn(w, 3), i);
    ReadingStep(w, PlausiblePairs(w), i);
    BeforeGrows(PlausiblePairs(w), i);
    TimeGrows(PairsIn(w, 1), i, ms);
    TimeGrows(PairsIn(w, 2), i, ms);
    TimeGrows(PairsIn(w, 3), i, ms);
  }

  lemma LegStep(w: Walk, s: set<nat>, i: nat)
    requires 1 <= i < |w.r.points|
    ensures LegSum(w, s, i + 1) == LegSum(w, s, i) + if i in s then Leg(w, i) else 0.0
  {
    hide Leg;
  }

  lemma ReadingStep(w: Walk, s: set<nat>, i: nat)
    requires 1 <= i < |w.r.points|
    ensures ReadingSum(w, s, i + 1) == ReadingSum(w, s, i) + if i in s then Reading(w, i) else 0.0
  {
    hide Reading;
  }

  lemma TimeGrows(s: set<nat>, i: nat, ms: nat)
    ensures |Before(s, i + 1)| * ms == |Before(s, i)| * ms + if i in s then ms else 0
  {
    hide Before;
    BeforeGrows(s, i);
    Scale(|Before(s, i)|, i in s, ms);
  }

  lemma SumsStart(w: Walk, k: nat)
    requires |w.valid| == |w.r.points| && 2 <= |w.r.points| && k <= 1
    ensures SumsAre(w, k, ZERO) && Fastest(w, k, 0.0)
  {
    NoneBefore(PairsIn(w, 1), k);
    NoneBefore(PairsIn(w, 2), k);
    NoneBefore(PairsIn(w, 3), k);
    NoneBefore(PlausiblePairs(w), k);
    hide Driven, Reading, Measured;
  }

  lemma {:induction false} PairSumIs(w: Walk, k: nat)
    requires w.Valid() && 2 <= |w.r.points| && k <= |w.r.points|
    ensures SumsAre(w, k, PairSum(w, k)) && Fastest(w, k, PairSum(w, k).maxSpeed)
  {
    if k <= 1 {
      SumsStart(w, k);
    } else {
      PairSumIs(w, k - 1);
      PairAddsUp(w, k - 1);
      hide SumsAre, PairAdds, PairTotals, Fastest;
      SumGrows(w, k - 1, PairSum(w, k - 1), PairTotals(w, k - 1));
      FastestGrows(w, k - 1, PairSum(w, k - 1).maxSpeed);
    }
  }

  lemma FastestGrows(w: Walk, i: nat, m: real)
    requires w.Valid() && 1 <= i < |w.r.points| && Fastest(w, i, m)
    ensures var v := if i in PlausiblePairs(w) && Reading(w, i) > 0.0 then Reading(w, i) else 0.0;
            Fastest(w, i + 1, if v > m then v else m)
  {
    hide PlausiblePairs, Reading;
  }

  // ----- events -------------------------------------------------------------

  ghost predicate UnderFsd(w: Walk, i: nat)
    requires i < |w.r.points|
  {
    |w.r.ap| == |w.r.points| && w.r.ap[i] == 1
  }

  ghost predicate Parked(w: Walk, i: nat)
    requires i < |w.r.points|
  {
    |w.r.gears| == |w.r.points| && w.r.gears[i] == 0
  }

  /** FSD goes off at point `i`. */
  ghost predicate Stops(w: Walk, i: nat)
    requires |w.valid| == |w.r.points|
  {
    Driven(w, i) && UnderFsd(w, i - 1) && !UnderFsd(w, i)
  }

  /** FSD comes on at point `i`. */
  ghost predicate Starts(w: Walk, i: nat)
    requires |w.valid| == |w.r.points|
  {
    Driven(w, i) && !UnderFsd(w, i - 1) && UnderFsd(w, i)
  }

  /** At most `s` of the sixty seconds of the clip lie between the points. */
  ghost predicate Within(w: Walk, s: nat, p: nat, j: nat) { (j - p) * 60 <= s * (|w.r.points| - 1) }

  /** Once FSD is off at `p`: point `j` is more than two seconds later, in Park, under FSD, or FSD goes off again. */
  ghost predicate Decides(w: Walk, p: nat, j: nat)
    requires |w.valid| == |w.r.points|
  {
    p < j && Driven(w, j) && (!Within(w, 2, p, j) || Parked(w, j) || UnderFsd(w, j) || Stops(w, j))
  }

  /** FSD goes off and the driver goes on: at the first deciding point time is up or FSD is back and the gear is not
      Park, or no point decides and the clip does not end in Park. */
  ghost predicate RealStop(w: Walk, p: nat)
    requires |w.valid| == |w.r.points|
  {
    && Stops(w, p)
    && ((exists j: nat :: Decides(w, p, j) && (forall k: nat :: k < j ==> !Decides(w, p, k))
                          && (!Within(w, 2, p, j) || (UnderFsd(w, j) && !Parked(w, j))))
        || ((forall j: nat :: !Decides(w, p, j)) && !Parked(w, |w.r.points| - 1)))
  }

  ghost function RealStops(w: Walk): set<nat>
    requires |w.valid| == |w.r.points|
  {
    set p | 1 <= p < |w.r.points| && RealStop(w, p)
  }

  /** The pedal is down past one per cent, at least three seconds after FSD last came on. */
  ghost predicate Down(w: Walk, j: nat)
    requires |w.valid| == |w.r.points|
  {
    && Driven(w, j) && UnderFsd(w, j) && |w.r.accel| == |w.r.points| && w.r.accel[j] > 0.01
    && exists e: nat :: e <= j && Starts(w, e) && (forall k: nat :: e < k <= j ==> !Starts(w, k))
                        && (j - e) * 60 >= 3 * (|w.r.points| - 1)
  }

  /** The pedal is up. */
  ghost predicate Up(w: Walk, i: nat)
    requires |w.valid| == |w.r.points|
  {
    Driven(w, i) && UnderFsd(w, i) && |w.r.accel| == |w.r.points| && w.r.accel[i] <= 0.0
  }

  /** FSD stays on and the pedal stays down. */
  ghost predicate StaysDown(w: Walk, i: nat)
    requires |w.valid| == |w.r.points|
  {
    Driven(w, i) ==> UnderFsd(w, i - 1) && UnderFsd(w, i) && !Up(w, i)
  }

  /** A push ends at `i`: the pedal comes up under FSD, was down before, and stayed down in between. */
  ghost predicate PushEnds(w: Walk, i: nat)
    requires |w.valid| == |w.r.points|
  {
    && Up(w, i) && UnderFsd(w, i - 1)
    && exists j: nat :: j < i && Down(w, j) && forall k: nat :: j < k < i ==> StaysDown(w, k)
  }

  ghost function PushEndings(w: Walk): set<nat>
    requires |w.valid| == |w.r.points|
  {
    set i | 1 <= i < |w.r.points| && PushEnds(w, i)
  }

  lemma Ratio(d: int, m: nat, t: real, s: nat)
    requires m > 0 && t * m as real == 60000.0
    ensures d as real * t <= s as real * 1000.0 <==> d * 60 <= s * m
  {
    var x := d as real * t;
    assert x * m as real == d as real * (t * m as real);
    assert x * m as real == d as real * 60000.0;
    assert (s * m) as real == s as real * m as real;
    var y := s as real * 1000.0;
    assert y * m as real == (s * m) as real * 1000.0;
    assert x <= y ==> x * m as real <= y * m as real;
    assert x > y ==> x * m as real > y * m as real;
  }

  lemma TimeIs(w: Walk, p: nat, j: nat, s: nat)
    requires w.Valid() && |w.r.points| >= 2
    ensures Elapsed(w, p, j) <= s as real * 1000.0 <==> Within(w, s, p, j)
  {
    PairTime(w);
    Ratio(j - p, |w.r.points| - 1, Dt(w), s);
    hide Dt;
  }

  lemma {:induction false} StepsAre(w: Walk, i: nat)
    requires w.Valid()
    ensures Stops(w, i) <==> Disengages(w, i)
    ensures Starts(w, i) <==> w.HasAP() && Engages(w, i)
    ensures Starts(w, i) <==> Engages(w, i)
  {
    NotBefore(w);
    assert Kept(w, i) <==> Driven(w, i);
    DrivenInside(w, i);
    hide Kept, Driven;
  }

  lemma DrivenInside(w: Walk, i: nat)
    requires |w.valid| == |w.r.points|
    ensures Driven(w, i) ==> 1 <= i < |w.r.points|
  {
  }

  lemma {:induction false} DecidesAre(w: Walk, p: nat, j: nat)
    requires w.Valid()
    ensures Decides(w, p, j) ==> Driven(w, j)
    ensures w.HasAP() ==> (Decides(w, p, j) <==> Event(w, p, j))
    ensures w.HasAP() && Decides(w, p, j) ==>
              (RealAt(w, p, j) <==> !Within(w, 2, p, j) || (UnderFsd(w, j) && !Parked(w, j)))
  {
    NotBefore(w);
    assert Kept(w, j) <==> Driven(w, j);
    StepsAre(w, j);
    DrivenInside(w, j);
    if |w.r.points| >= 2 {
      TimeIs(w, p, j, 2);
    }
    hide Kept, Driven, Elapsed, Within, Stops, Disengages;
  }

  lemma {:induction false} StopIs(w: Walk, p: nat)
    requires w.Valid()
    ensures RealStop(w, p) <==> Real(w, p)
  {
    StepsAre(w, p);
    DrivenInside(w, p);
    StopNeedsStates(w, p);
    forall j: nat
      ensures w.HasAP() ==> (Decides(w, p, j) <==> Event(w, p, j))
      ensures w.HasAP() && Decides(w, p, j) ==>
                (RealAt(w, p, j) <==> !Within(w, 2, p, j) || (UnderFsd(w, j) && !Parked(w, j)))
    {
      DecidesAre(w, p, j);
    }
    hide Decides, Event, RealAt, Within, Stops, Disengages, Driven;
    if Stops(w, p) {
      assert EndsInPark(w) <==> Parked(w, |w.r.points| - 1);
      FirstDecision(w, p);
    }
  }

  lemma StopNeedsStates(w: Walk, p: nat)
    requires w.Valid()
    ensures Stops(w, p) ==> w.HasAP() && Driven(w, p)
  {
  }

  lemma {:induction false} FirstDecision(w: Walk, p: nat)
    requires w.Valid() && w.HasAP() && forall j: nat :: Decides(w, p, j) <==> Event(w, p, j)
    ensures forall j: nat :: FirstEvent(w, p, j) <==> Decides(w, p, j) && forall k: nat :: k < j ==> !Decides(w, p, k)
  {
    hide Event, Decides;
    forall j: nat
      ensures FirstEvent(w, p, j) <==> Decides(w, p, j) && forall k: nat :: k < j ==> !Decides(w, p, k)
    {
      if FirstEvent(w, p, j) {
        forall k: nat | k < j
          ensures !Decides(w, p, k)
        {
          if Event(w, p, k) {
            EventIsLater(w, p, k);
          }
        }
      }
    }
  }

  /** The disengagements counted are the real ones. */
  lemma {:induction false} StopsAre(w: Walk)
    requires w.Valid()
    ensures RealDisengagements(w) == RealStops(w)
  {
    hide Real, RealStop;
    forall p: nat
      ensures RealStop(w, p) <==> Real(w, p)
    {
      StopIs(w, p);
    }
  }

  /** `e` is the last point before `i` at which FSD comes on. */
  ghost predicate LastStart(w: Walk, i: nat, e: nat)
    requires |w.valid| == |w.r.points|
  {
    e < i && Starts(w, e) && forall k: nat :: e < k < i ==> !Starts(w, k)
  }

  lemma {:induction false} LastEngageIs(w: Walk, i: nat)
    requires w.Valid()
    ensures LastEngage(w, i) == -1 ==> forall k: nat :: k < i ==> !Starts(w, k)
    ensures LastEngage(w, i) >= 0 ==> LastStart(w, i, LastEngage(w, i))
  {
    hide Starts, Engages;
    if i > 0 {
      StepsAre(w, i - 1);
      LastEngageIs(w, i - 1);
    }
  }

  lemma {:induction false} DownIs(w: Walk, j: nat)
    requires w.Valid()
    ensures Down(w, j) <==> Press(w, j)
  {
    NotBefore(w);
    assert Kept(w, j) <==> Driven(w, j);
    DrivenInside(w, j);
    LastEngageIs(w, j + 1);
    var e := LastEngage(w, j + 1);
    hide LastEngage, Kept, Driven, Starts, Dt;
    if Driven(w, j) && e >= 0 {
      GraceIs(w, e, j);
      assert LastStart(w, j + 1, e);
      OneLastStart(w, j, e);
    } else if Driven(w, j) {
      assert SinceEngage(w, e, j) == 0.0;
    }
    hide SinceEngage, LastStart;
  }

  lemma {:induction false} OneLastStart(w: Walk, j: nat, e: nat)
    requires |w.valid| == |w.r.points| && LastStart(w, j + 1, e)
    ensures (exists i: nat :: i <= j && Starts(w, i) && (forall k: nat :: i < k <= j ==> !Starts(w, k))
                              && (j - i) * 60 >= 3 * (|w.r.points| - 1)) <==>
            (j - e) * 60 >= 3 * (|w.r.points| - 1)
  {
    hide Starts;
  }

  lemma GraceIs(w: Walk, e: nat, j: nat)
    requires w.Valid() && |w.r.points| >= 2
    ensures SinceEngage(w, e, j) >= 3000.0 <==> (j - e) * 60 >= 3 * (|w.r.points| - 1)
  {
    PairTime(w);
    AtLeast(j - e, |w.r.points| - 1, Dt(w), 3);
    hide Dt;
  }

  lemma AtLeast(d: int, m: nat, t: real, s: nat)
    requires m > 0 && t * m as real == 60000.0
    ensures d as real * t >= s as real * 1000.0 <==> d * 60 >= s * m
  {
    var x := d as real * t;
    assert x * m as real == d as real * (t * m as real);
    assert (s * m) as real == s as real * m as real;
    var y := s as real * 1000.0;
    assert y * m as real == (s * m) as real * 1000.0;
    assert x >= y ==> x * m as real >= y * m as real;
    assert x < y ==> x * m as real < y * m as real;
  }

  lemma {:induction false} UpIs(w: Walk, i: nat)
    requires w.Valid()
    ensures Up(w, i) <==> Release(w, i)
    ensures StaysDown(w, i) <==> (Driven(w, i) && w.HasAP() ==> !Forgets(w, i)) && (Driven(w, i) ==> w.HasAP())
    ensures Up(w, i) ==> w.HasAP() && 1 <= i < |w.r.points| && (UnderFsd(w, i - 1) <==> !Engages(w, i))
  {
    NotBefore(w);
    assert Kept(w, i) <==> Driven(w, i);
    DrivenInside(w, i);
    StepsAre(w, i);
    hide Kept, Driven;
  }

  lemma {:induction false} PushIs(w: Walk, i: nat)
    requires w.Valid()
    ensures PushEnds(w, i) <==> Push(w, i)
  {
    UpIs(w, i);
    if Up(w, i) {
      forall k: nat
        ensures (Down(w, k) <==> Press(w, k)) && (StaysDown(w, k) <==> !Forgets(w, k))
      {
        DownIs(w, k);
        UpIs(w, k);
        ForgetsInside(w, k);
      }
      hide Up, Down, Press, Release, Engages, Forgets, StaysDown, UnderFsd;
    } else {
      hide Up, Down, Press, Release, Engages, Forgets, StaysDown, UnderFsd;
    }
  }

  lemma {:induction false} ForgetsInside(w: Walk, k: nat)
    requires w.Valid()
    ensures Forgets(w, k) ==> Driven(w, k) && w.HasAP()
  {
    NotBefore(w);
    assert Kept(w, k) <==> Driven(w, k);
    hide Kept, Driven;
  }

  /** The pushes counted are the ends of the pedal presses. */
  lemma {:induction false} PushesAre(w: Walk)
    requires w.Valid()
    ensures Pushes(w) == PushEndings(w)
  {
    hide Push, PushEnds;
    forall i: nat
      ensures PushEnds(w, i) <==> Push(w, i)
    {
      PushIs(w, i);
    }
  }

  // ----- the whole clip and its row -----------------------------------------

  /** The whole milliseconds between two points of a clip of `n` points. */
  function StepMs(n: nat): nat { if n >= 2 then 60000 / (n - 1) else 0 }

  /** Everything the walk adds up over a clip, from its data. */
  ghost predicate TotalsMean(w: Walk, t: Totals)
    requires |w.valid| == |w.r.points|
  {
    var n := |w.r.points|;
    && t.distance == LegSum(w, DrivenPairs(w), n) && t.assistedDist == LegSum(w, AssistedPairs(w), n)
    && t.fsdDist == LegSum(w, PairsIn(w, 1), n) && t.fsdMs == |PairsIn(w, 1)| * StepMs(n)
    && t.autosteerDist == LegSum(w, PairsIn(w, 2), n) && t.autosteerMs == |PairsIn(w, 2)| * StepMs(n)
    && t.taccDist == LegSum(w, PairsIn(w, 3), n) && t.taccMs == |PairsIn(w, 3)| * StepMs(n)
    && t.speedSum == ReadingSum(w, PlausiblePairs(w), n) && t.speedCount == |PlausiblePairs(w)|
    && Fastest(w, n, t.maxSpeed)
    && t.disengagements == |RealStops(w)| && t.pushes == |PushEndings(w)|
  }

  lemma AllBefore(w: Walk)
    requires |w.valid| == |w.r.points|
    ensures var n := |w.r.points|;
            && Before(PairsIn(w, 1), n) == PairsIn(w, 1) && Before(PairsIn(w, 2), n) == PairsIn(w, 2)
            && Before(PairsIn(w, 3), n) == PairsIn(w, 3) && Before(PlausiblePairs(w), n) == PlausiblePairs(w)
  {
    hide Driven, Measured;
  }

  /** The walk adds up exactly that. */
  lemma {:induction false} TotalsAre(w: Walk)
    requires w.Valid()
    ensures TotalsMean(w, ClipTotals(w))
  {
    hide LegSum, ReadingSum, PairsIn, PlausiblePairs, AssistedPairs, DrivenPairs, Before, Fastest, PairSum, RealStops,
         PushEndings, RealDisengagements, Pushes, Driven, Measured, Reading;
    StopsAre(w);
    PushesAre(w);
    var n := |w.r.points|;
    if n >= 2 {
      PairSumIs(w, n);
      AllBefore(w);
    } else {
      ShortClip(w);
      NoPairs(w);
    }
  }

  lemma NoPairs(w: Walk)
    requires |w.valid| == |w.r.points| < 2
    ensures PairsIn(w, 1) == {} && PairsIn(w, 2) == {} && PairsIn(w, 3) == {} && PlausiblePairs(w) == {}
    ensures RealStops(w) == {} && PushEndings(w) == {} && Fastest(w, |w.r.points|, 0.0)
    ensures LegSum(w, DrivenPairs(w), |w.r.points|) == 0.0 && LegSum(w, AssistedPairs(w), |w.r.points|) == 0.0
    ensures LegSum(w, PairsIn(w, 1), |w.r.points|) == 0.0 && LegSum(w, PairsIn(w, 2), |w.r.points|) == 0.0
    ensures LegSum(w, PairsIn(w, 3), |w.r.points|) == 0.0 && ReadingSum(w, PlausiblePairs(w), |w.r.points|) == 0.0
  {
    hide Driven, RealStop, PushEnds;
  }

  /** Outside the square of one degree around the origin. */
  ghost predicate OnMap(p: Point) { p.lat <= -1.0 || p.lat >= 1.0 || p.lng <= -1.0 || p.lng >= 1.0 }

  /** `p` is the first of the points that are on the map, if any. */
  ghost predicate IsFirst(points: seq<Point>, p: Option<Point>) {
    match p
    case None => forall i :: 0 <= i < |points| ==> !OnMap(points[i])
    case Some(q) => exists i :: 0 <= i < |points| && points[i] == q && OnMap(q)
                                && forall k :: 0 <= k < i ==> !OnMap(points[k])
  }

  ghost predicate IsLast(points: seq<Point>, p: Option<Point>) {
    match p
    case None => forall i :: 0 <= i < |points| ==> !OnMap(points[i])
    case Some(q) => exists i :: 0 <= i < |points| && points[i] == q && OnMap(q)
                                && forall k :: i < k < |points| ==> !OnMap(points[k])
  }

  /** What the sums in a cached row say about its clip. */
  ghost predicate SumsMean(w: Walk, a: RouteAggregates)
    requires |w.valid| == |w.r.points|
  {
    var n := |w.r.points|;
    && a.distance == LegSum(w, DrivenPairs(w), n) && a.assistedDist == LegSum(w, AssistedPairs(w), n)
    && a.fsdDist == LegSum(w, PairsIn(w, 1), n) && a.fsdMs == |PairsIn(w, 1)| * StepMs(n)
    && a.autosteerDist == LegSum(w, PairsIn(w, 2), n) && a.autosteerMs == |PairsIn(w, 2)| * StepMs(n)
    && a.taccDist == LegSum(w, PairsIn(w, 3), n) && a.taccMs == |PairsIn(w, 3)| * StepMs(n)
    && a.speedCount == |PlausiblePairs(w)| && Fastest(w, n, a.maxSpeed)
    && a.avgSpeed * a.speedCount as real == ReadingSum(w, PlausiblePairs(w), n)
    && (a.speedCount == 0 ==> a.avgSpeed == 0.0)
    && a.disengagements == |RealStops(w)| && a.pushes == |PushEndings(w)|
  }

  lemma {:induction false} NothingPlausible(w: Walk, k: nat)
    requires |w.valid| == |w.r.points| && k <= |w.r.points|
    ensures |PlausiblePairs(w)| == 0 ==> ReadingSum(w, PlausiblePairs(w), k) == 0.0
  {
    hide PlausiblePairs, Reading;
    if k > 1 {
      NothingPlausible(w, k - 1);
    }
  }

  lemma SumsOfRow(w: Walk, t: Totals, validPoints: nat, start: Option<Point>, end: Option<Point>)
    requires |w.valid| == |w.r.points| && TotalsMean(w, t)
    ensures SumsMean(w, Row(t, validPoints, start, end))
  {
    hide LegSum, ReadingSum, PairsIn, PlausiblePairs, AssistedPairs, DrivenPairs, Fastest, RealStops, PushEndings,
         StepMs;
    NothingPlausible(w, |w.r.points|);
  }

  lemma {:induction false} FirstIs(points: seq<Point>, valid: seq<bool>, i: nat)
    requires |valid| == |points| && forall k :: 0 <= k < |points| ==> (valid[k] <==> OnMap(points[k]))
    requires i <= |points| && forall k :: 0 <= k < i ==> !OnMap(points[k])
    ensures IsFirst(points, FirstValid(points, valid, i))
    decreases |points| - i
  {
    hide OnMap;
    if i < |points| && !valid[i] {
      FirstIs(points, valid, i + 1);
    }
  }

  lemma {:induction false} LastIs(points: seq<Point>, valid: seq<bool>, k: nat)
    requires |valid| == |points| && forall i :: 0 <= i < |points| ==> (valid[i] <==> OnMap(points[i]))
    requires k <= |points| && forall i :: k <= i < |points| ==> !OnMap(points[i])
    ensures IsLast(points, LastValid(points, valid, k))
  {
    hide OnMap;
    if k > 0 && !valid[k - 1] {
      LastIs(points, valid, k - 1);
    }
  }

  lemma {:induction false} CountIs(valid: seq<bool>, k: nat)
    requires k <= |valid|
    ensures CountValid(valid, k) == |set i: nat | i < k && valid[i]|
  {
    var s := set i: nat | i < k && valid[i];
    if k == 0 {
      assert s == {};
    } else {
      CountIs(valid, k - 1);
      hide CountValid;
      var t := set i: nat | i < k - 1 && valid[i];
      OneIn(t, k - 1, valid[k - 1], s);
    }
  }

  lemma OneIn(t: set<nat>, n: nat, here: bool, s: set<nat>)
    requires n !in t && forall i :: i in s <==> i in t || (here && i == n)
    ensures |s| == |t| + if here then 1 else 0
  {
    assert s == if here then t + {n} else t;
  }

  /** A row of any clip is what its points, speeds, states, gears and pedal positions say. */
  lemma {:induction false} RowIs(dist: Metric, r: Route)
    ensures var w := RawWalk(dist, r);
            && w.dist == dist && w.r.points == r.points && w.r.speeds == r.speeds && w.r.ap == r.ap
            && w.r.gears == r.gears && w.r.accel == r.accel && |w.valid| == |r.points|
            && (forall i :: 0 <= i < |r.points| ==> (w.valid[i] <==> OnMap(r.points[i])))
            && SumsMean(w, AggregatesOf(dist, r))
    ensures var points, a := r.points, AggregatesOf(dist, r);
            && a.validPoints == |set i | 0 <= i < |points| && OnMap(points[i])|
            && IsFirst(points, a.start) && IsLast(points, a.end)
  {
    var w := RawWalk(dist, r);
    var n := |r.points|;
    assert forall i :: 0 <= i < n ==> (w.valid[i] <==> OnMap(r.points[i]));
    FirstIs(r.points, w.valid, 0);
    LastIs(r.points, w.valid, n);
    CountIs(w.valid, n);
    assert (set i: nat | i < n && w.valid[i]) == set i | 0 <= i < n && OnMap(r.points[i]);
    hide SumsMean, ClipTotals, OnMap, IsFirst, IsLast, FirstValid, LastValid, CountValid;
    TotalsAre(w);
    SumsOfRow(w, ClipTotals(w), CountValid(w.valid, n), FirstValid(r.points, w.valid, 0),
              LastValid(r.points, w.valid, n));
    hide TotalsMean;
  }

  // ----- one more point -----------------------------------------------------

  /** `w2` is the walk `w` with one more point, both with measured speeds. */
  ghost predicate OneMore(w: Walk, w2: Walk) {
    && |w.valid| == |w.r.points| && |w2.valid| == |w2.r.points| == |w.r.points| + 1 && w.dist == w2.dist
    && |w.r.points| > 0 && Measured(w) && Measured(w2)
    && forall i :: 0 <= i < |w.r.points| ==>
         w.valid[i] == w2.valid[i] && w.r.points[i] == w2.r.points[i] && w.r.speeds[i] == w2.r.speeds[i]
  }

  lemma {:induction false} SamePair(w: Walk, w2: Walk, i: nat)
    requires OneMore(w, w2) && i < |w.r.points|
    ensures i in DrivenPairs(w) <==> i in DrivenPairs(w2)
    ensures i in PlausiblePairs(w) <==> i in PlausiblePairs(w2)
    ensures i >= 1 ==> Leg(w, i) == Leg(w2, i) && Reading(w, i) == Reading(w2, i)
  {
    hide Measured;
  }

  lemma {:induction false} SameSums(w: Walk, w2: Walk, k: nat)
    requires OneMore(w, w2) && k <= |w.r.points|
    ensures LegSum(w, DrivenPairs(w), k) == LegSum(w2, DrivenPairs(w2), k)
    ensures ReadingSum(w, PlausiblePairs(w), k) == ReadingSum(w2, PlausiblePairs(w2), k)
  {
    hide OneMore, DrivenPairs, PlausiblePairs, Leg, Reading;
    assert |w2.r.points| == |w.r.points| + 1 by { SizesOfOneMore(w, w2); }
    if k > 1 {
      SameSums(w, w2, k - 1);
      SamePair(w, w2, k - 1);
    }
  }

  lemma SizesOfOneMore(w: Walk, w2: Walk)
    requires OneMore(w, w2)
    ensures |w.valid| == |w.r.points| && |w2.valid| == |w2.r.points| == |w.r.points| + 1
  {
  }

  lemma {:induction false} SameSamples(w: Walk, w2: Walk, m: real)
    requires OneMore(w, w2)
    ensures var n := |w.r.points|;
            && |PlausiblePairs(w2)| == |PlausiblePairs(w)| + (if n in PlausiblePairs(w2) then 1 else 0)
            && (Fastest(w, n, m) ==> Fastest(w2, n, m))
  {
    var n := |w.r.points|;
    SizesOfOneMore(w, w2);
    forall i | 0 <= i < n
      ensures i in PlausiblePairs(w) <==> i in PlausiblePairs(w2)
      ensures i >= 1 ==> Reading(w, i) == Reading(w2, i)
    {
      SamePair(w, w2, i);
    }
    AllBefore(w);
    AllBefore(w2);
    BeforeGrows(PlausiblePairs(w2), n);
    hide OneMore, Reading;
    PairsInside(w);
    PairsInside(w2);
    hide PlausiblePairs;
    assert Before(PlausiblePairs(w), n) == Before(PlausiblePairs(w2), n);
  }

  lemma PairsInside(w: Walk)
    requires |w.valid| == |w.r.points|
    ensures forall i :: i in PlausiblePairs(w) ==> 1 <= i < |w.r.points|
  {
  }

  lemma OneFastest(w: Walk, k: nat, m: real, m2: real)
    requires |w.valid| == |w.r.points| && k <= |w.r.points| && Fastest(w, k, m) && Fastest(w, k, m2)
    ensures m == m2
  {
    hide PlausiblePairs, Reading;
  }

  /** What the last pair of a walk with measured speeds is. */
  lemma LastPair(w2: Walk, n: nat)
    requires |w2.valid| == |w2.r.points| == n + 1 && n >= 1 && Measured(w2)
    ensures n in DrivenPairs(w2) <==> w2.valid[n - 1] && w2.valid[n]
    ensures n in PlausiblePairs(w2) <==> w2.valid[n - 1] && w2.valid[n] && 0.0 <= w2.r.speeds[n] < 100.0
    ensures Reading(w2, n) == w2.r.speeds[n] && Leg(w2, n) == w2.dist(w2.r.points[n - 1], w2.r.points[n])
  {
    hide Measured;
  }

  lemma {:induction false} SumOfOneMore(w: Walk, w2: Walk)
    requires OneMore(w, w2)
    ensures var n := |w.r.points|;
            var on, v := w2.valid[n - 1] && w2.valid[n], w2.r.speeds[n];
            && LegSum(w2, DrivenPairs(w2), n + 1) ==
               LegSum(w, DrivenPairs(w), n) + (if on then w2.dist(w2.r.points[n - 1], w2.r.points[n]) else 0.0)
            && ReadingSum(w2, PlausiblePairs(w2), n + 1) ==
               ReadingSum(w, PlausiblePairs(w), n) + (if on && 0.0 <= v < 100.0 then v else 0.0)
            && |PlausiblePairs(w2)| == |PlausiblePairs(w)| + (if on && 0.0 <= v < 100.0 then 1 else 0)
  {
    var n := |w.r.points|;
    SizesOfOneMore(w, w2);
    MeasuredTwo(w, w2);
    SameSums(w, w2, n);
    SameSamples(w, w2, 0.0);
    LastPair(w2, n);
    SumSteps(w2, n);
    hide *;
  }

  lemma SumSteps(w: Walk, k: nat)
    requires |w.valid| == |w.r.points| && 1 <= k < |w.r.points|
    ensures LegSum(w, DrivenPairs(w), k + 1) ==
            LegSum(w, DrivenPairs(w), k) + if k in DrivenPairs(w) then Leg(w, k) else 0.0
    ensures ReadingSum(w, PlausiblePairs(w), k + 1) ==
            ReadingSum(w, PlausiblePairs(w), k) + if k in PlausiblePairs(w) then Reading(w, k) else 0.0
  {
    hide DrivenPairs, PlausiblePairs, Leg, Reading;
  }

  lemma {:induction false} MaxOfOneMore(w: Walk, w2: Walk, m: real, m2: real)
    requires OneMore(w, w2) && Fastest(w, |w.r.points|, m) && Fastest(w2, |w2.r.points|, m2)
    ensures var n := |w.r.points|;
            m2 == if w2.valid[n - 1] && w2.valid[n] && m < w2.r.speeds[n] < 100.0 then w2.r.speeds[n] else m
  {
    var n := |w.r.points|;
    SizesOfOneMore(w, w2);
    MeasuredTwo(w, w2);
    SameSamples(w, w2, m);
    LastPair(w2, n);
    MaxNonNegative(w, n, m);
    FastestGrows(w2, n, m);
    hide OneMore, Measured, DrivenPairs, PlausiblePairs, Reading, Leg, Fastest;
    var x := if n in PlausiblePairs(w2) && Reading(w2, n) > 0.0 then Reading(w2, n) else 0.0;
    OneFastest(w2, n + 1, m2, if x > m then x else m);
  }

  /** With measured speeds, one more point adds its distance from the last one when both are on the map, and its
      speed when besides it is in [0, 100); it adds nothing else. */
  lemma {:induction false} OneMorePoint(dist: Metric, r: Route, r2: Route, q: Point, v: real)
    requires r.points != [] && r2.points == r.points + [q]
    requires |r.speeds| == |r.points| && r2.speeds == r.speeds + [v]
    requires exists k :: 0 <= k < |r.points| && r.speeds[k] > 0.0
    ensures var last, a, b := r.points[|r.points| - 1], AggregatesOf(dist, r), AggregatesOf(dist, r2);
            var on := OnMap(last) && OnMap(q);
            && b.distance == a.distance + (if on then dist(last, q) else 0.0)
            && b.speedCount == a.speedCount + (if on && 0.0 <= v < 100.0 then 1 else 0)
            && b.avgSpeed * b.speedCount as real ==
               a.avgSpeed * a.speedCount as real + (if on && 0.0 <= v < 100.0 then v else 0.0)
            && b.maxSpeed == (if on && a.maxSpeed < v < 100.0 then v else a.maxSpeed)
            && b.validPoints == a.validPoints + if OnMap(q) then 1 else 0
  {
    hide *;
    var w, w2, n := RawWalk(dist, r), RawWalk(dist, r2), |r.points|;
    var a, b := AggregatesOf(dist, r), AggregatesOf(dist, r2);
    RowIs(dist, r);
    RowIs(dist, r2);
    ValidExtends(r.points, q);
    IsOneMore(w, w2, q, v);
    assert r2.points[n] == q && r2.points[n - 1] == r.points[n - 1] && r2.speeds[n] == v;
    SumOfOneMore(w, w2);
    SumsGive(w, a);
    SumsGive(w2, b);
    MaxOfOneMore(w, w2, a.maxSpeed, b.maxSpeed);
  }

  lemma IsOneMore(w: Walk, w2: Walk, q: Point, v: real)
    requires |w.valid| == |w.r.points| > 0 && |w2.valid| == |w2.r.points| && w.dist == w2.dist
    requires w2.r.points == w.r.points + [q] && |w.r.speeds| == |w.r.points| && w2.r.speeds == w.r.speeds + [v]
    requires exists k :: 0 <= k < |w.r.points| && w.r.speeds[k] > 0.0
    requires forall i :: 0 <= i < |w.valid| ==> (w.valid[i] <==> OnMap(w.r.points[i]))
    requires forall i :: 0 <= i < |w2.valid| ==> (w2.valid[i] <==> OnMap(w2.r.points[i]))
    ensures OneMore(w, w2)
  {
    hide OnMap;
    var k :| 0 <= k < |w.r.points| && w.r.speeds[k] > 0.0;
    assert w2.r.speeds[k] > 0.0;
  }

  lemma SumsGive(w: Walk, a: RouteAggregates)
    requires |w.valid| == |w.r.points| && SumsMean(w, a)
    ensures var n := |w.r.points|;
            && a.distance == LegSum(w, DrivenPairs(w), n) && a.speedCount == |PlausiblePairs(w)|
            && a.avgSpeed * a.speedCount as real == ReadingSum(w, PlausiblePairs(w), n) && Fastest(w, n, a.maxSpeed)
  {
    hide LegSum, ReadingSum, PairsIn, PlausiblePairs, AssistedPairs, DrivenPairs, Fastest, RealStops, PushEndings,
         StepMs;
  }

  lemma MaxNonNegative(w: Walk, k: nat, m: real)
    requires |w.valid| == |w.r.points| && k <= |w.r.points| && Fastest(w, k, m)
    ensures m >= 0.0
  {
  }

  lemma MeasuredTwo(w: Walk, w2: Walk)
    requires OneMore(w, w2)
    ensures Measured(w) && Measured(w2)
  {
  }

  lemma ValidExtends(points: seq<Point>, q: Point)
    ensures var more := points + [q];
            |set i | 0 <= i < |more| && OnMap(more[i])| ==
            |set i | 0 <= i < |points| && OnMap(points[i])| + if OnMap(q) then 1 else 0
  {
    hide OnMap;
    var more, n := points + [q], |points|;
    var s := set i | 0 <= i < |points| && OnMap(points[i]);
    assert (set i | 0 <= i < |more| && OnMap(more[i])) == if OnMap(q) then s + {n} else s;
  }

  // ----- two points ---------------------------------------------------------

  lemma {:induction false} PairsOfTwo(w: Walk, mode: int)
    requires |w.valid| == |w.r.points| == 2
    ensures PairsIn(w, mode) == if Driven(w, 1) && |w.r.ap| == 2 && w.r.ap[1] == mode then {1} else {}
    ensures DrivenPairs(w) == if Driven(w, 1) then {1} else {}
    ensures RealStops(w) == if Stops(w, 1) && !Parked(w, 1) then {1} else {}
    ensures LegSum(w, DrivenPairs(w), 2) == if Driven(w, 1) then Leg(w, 1) else 0.0
  {
    DrivenInside(w, 0);
    assert forall i: nat :: Driven(w, i) ==> i == 1 by {
      forall i: nat {
        DrivenInside(w, i);
      }
    }
    hide Driven, Leg, Stops;
    assert forall j: nat :: !Decides(w, 1, j);
  }

  /** A clip of two points on the map: its distance is that between them, measured or at no more than 70 m/s over
      the minute, which all belongs to the state of the second point; FSD going off there counts unless the car is
      parked. */
  lemma {:induction false} TwoPoints(dist: Metric, r: Route, p: Point, q: Point)
    requires r.points == [p, q] && OnMap(p) && OnMap(q)
    ensures var a := AggregatesOf(dist, r);
            var measured := |r.speeds| == 2 && (r.speeds[0] > 0.0 || r.speeds[1] > 0.0);
            var counts, states := measured || dist(p, q) / 60.0 <= 70.0, |r.ap| == 2;
            && a.distance == (if counts then dist(p, q) else 0.0)
            && a.fsdMs == (if counts && states && r.ap[1] == 1 then 60000 else 0)
            && a.autosteerMs == (if counts && states && r.ap[1] == 2 then 60000 else 0)
            && a.taccMs == (if counts && states && r.ap[1] == 3 then 60000 else 0)
            && a.disengagements ==
               if counts && states && r.ap[0] == 1 && r.ap[1] != 1 && !(|r.gears| == 2 && r.gears[1] == 0)
               then 1 else 0
  {
    var w, a := RawWalk(dist, r), AggregatesOf(dist, r);
    RowIs(dist, r);
    assert w.valid[0] && w.valid[1] && w.r.points[0] == p && w.r.points[1] == q;
    hide RawWalk, AggregatesOf, OnMap;
    PairsOfTwo(w, 1);
    PairsOfTwo(w, 2);
    PairsOfTwo(w, 3);
    EventsOfTwo(w);
    hide PairsIn, DrivenPairs, RealStops, LegSum, Fastest, PlausiblePairs, AssistedPairs, PushEndings, ReadingSum;
  }

  lemma EventsOfTwo(w: Walk)
    requires |w.valid| == |w.r.points| == 2 && w.valid[0] && w.valid[1]
    ensures var measured := |w.r.speeds| == 2 && (w.r.speeds[0] > 0.0 || w.r.speeds[1] > 0.0);
            && (Driven(w, 1) <==> measured || w.dist(w.r.points[0], w.r.points[1]) / 60.0 <= 70.0)
  {
  }
}
