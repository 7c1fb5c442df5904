/** The disengagement counter of ComputeAggregateStatsFromRoutes (server/drives/grouper.go), which
    looks ahead instead of keeping state, against the automaton of ComputeRouteAggregates. */
module Lookahead {
  import opened DriveTypes
  import opened PairWalk
  import opened FsdEvents

  /** No pair of the clip is skipped: every point is valid and nothing teleports. */
  ghost predicate NoSkip(w: Walk)
    requires w.Valid()
  {
    forall i: nat :: 1 <= i < w.N() ==> Kept(w, i)
  }

  /** Park shows at p itself or within two seconds after it. */
  ghost predicate ParkSoon(w: Walk, p: nat)
    requires w.Valid()
  {
    exists j: nat :: ParkInWindow(w, p, j)
  }

  /** This loop knows no null-island filter, only the teleport guard. */
  ghost predicate LookaheadCounts(w: Walk, p: nat)
    requires w.Valid()
  {
    && 1 <= p < w.N() && (HasSei(w) || GpsSpeed(w, p) <= 70.0)
    && w.HasAP() && w.r.ap[p - 1] == FSD && w.r.ap[p] != FSD && !ParkSoon(w, p)
  }

  ghost function LookaheadSet(w: Walk): set<nat>
    requires w.Valid()
  {
    set p | 1 <= p < w.N() && LookaheadCounts(w, p)
  }

  /** Milliseconds from the start of the clip to point k. */
  function TimeAt(w: Walk, k: nat): real
    requires w.N() >= 2
  {
    CLIP_MS as real * k as real / (w.N() - 1) as real
  }

  lemma ElapsedIs(w: Walk, p: nat, j: nat)
    requires w.N() >= 2
    ensures TimeAt(w, j) - TimeAt(w, p) == Elapsed(w, p, j)
  {
    var m := (w.N() - 1) as real;
    var dt := CLIP_MS as real / m;
    assert dt * m == CLIP_MS as real;
    Scale(dt, m, j as real);
    Scale(dt, m, p as real);
    assert Elapsed(w, p, j) == (j as real - p as real) * dt == j as real * dt - p as real * dt;
  }

  lemma Scale(dt: real, m: real, k: real)
    requires m > 0.0 && dt * m == CLIP_MS as real
    ensures CLIP_MS as real * k / m == k * dt
  {
    assert (k * dt) * m == k * (dt * m) == CLIP_MS as real * k;
  }

  lemma ElapsedGrows(w: Walk, p: nat, j: nat, k: nat)
    requires w.N() >= 2 && j <= k
    ensures Elapsed(w, p, j) <= Elapsed(w, p, k)
  {
    var dt := Dt(w);
    hide Dt;
    assert (k - j) as real * dt >= 0.0;
    assert (k - p) as real * dt == (j - p) as real * dt + (k - j) as real * dt;
  }

  method CountDisengagements(w: Walk) returns (count: nat)
    requires w.Valid() && w.N() >= 2
    ensures count == |LookaheadSet(w)|
  {
    hide HasSei, GpsSpeed, Dt, Elapsed, TimeAt;
    var n := w.N();
    var hasSei := SeiSpeedsPresent(w);
    count := 0;
    ghost var found: set<nat> := {};
    for i := 1 to n
      invariant found == set p | 1 <= p < i && LookaheadCounts(w, p)
      invariant count == |found|
    {
      if !hasSei && GpsSpeed(w, i) > 70.0 {
        continue;
      }
      if w.HasAP() && w.r.ap[i - 1] == FSD && w.r.ap[i] != FSD {
        var skip := ParkFollows(w, i);
        if !skip {
          assert LookaheadCounts(w, i);
          count := count + 1;
          found := found + {i};
        }
      }
    }
    assert found == LookaheadSet(w);
  }

  /** The inner loop: it stops at the first point more than two seconds away. */
  method ParkFollows(w: Walk, i: nat) returns (skip: bool)
    requires w.Valid() && 1 <= i < w.N()
    ensures skip == ParkSoon(w, i)
  {
    hide Dt, Elapsed, TimeAt;
    if !w.HasGears() {
      return false;
    }
    var tCur := TimeAt(w, i);
    for j := i to w.N()
      invariant forall k: nat :: i <= k < j ==> !ParkInWindow(w, i, k)
    {
      var tJ := TimeAt(w, j);
      ElapsedIs(w, i, j);
      if tJ - tCur > 2000.0 {
        forall k: nat | j <= k < w.N()
          ensures !ParkInWindow(w, i, k)
        {
          ElapsedGrows(w, i, j, k);
        }
        return false;
      }
      if w.r.gears[j] == PARK {
        assert ParkInWindow(w, i, j);
        return true;
      }
    }
    return false;
  }

  // ----- comparing the two counters -----------------------------------------

  /** On an unskipped clip: Park follows in time with no FSD in between, or the clip ends right there in Park. */
  ghost predicate ParkedByFsd(w: Walk, p: nat)
    requires w.Valid()
  {
    || (exists j: nat :: ParkBeforeReturn(w, p, j))
    || (p == w.N() - 1 && EndsInPark(w))
  }

  ghost predicate ParkBeforeReturn(w: Walk, p: nat, j: nat)
    requires w.Valid()
  {
    p < j && ParkInWindow(w, p, j) && w.HasAP() && forall k: nat :: p < k < j ==> w.r.ap[k] != FSD
  }

  /** The automaton's verdict in plain terms: a disengagement is real unless FSD parked the car. */
  lemma RealOnUnskippedClip(w: Walk, p: nat)
    requires w.Valid() && NoSkip(w)
    ensures Real(w, p) <==> Disengages(w, p) && !ParkedByFsd(w, p)
  {
    hide Dt, Elapsed, HasSei, GpsSpeed;
    if Disengages(w, p) {
      if j: nat :| ParkBeforeReturn(w, p, j) {
        hide Real, ParkedByFsd;
        ParkSettles(w, p, j);
      } else if j: nat :| Event(w, p, j) {
        EarliestEvent(w, p, j);
        var f: nat :| f <= j && FirstEvent(w, p, f);
        hide Real, ParkedByFsd;
        ReturnOrLate(w, p, f);
      } else {
        NothingHappens(w, p);
      }
    }
  }

  lemma ParkSettles(w: Walk, p: nat, j: nat)
    requires w.Valid() && NoSkip(w) && Disengages(w, p) && ParkBeforeReturn(w, p, j)
    ensures !Real(w, p) && ParkedByFsd(w, p)
  {
    hide Dt, Elapsed, HasSei, GpsSpeed;
    assert Event(w, p, j);
    EarliestEvent(w, p, j);
    var f: nat :| f <= j && FirstEvent(w, p, f);
    ElapsedGrows(w, p, f, j);
    assert !RealAt(w, p, f);
    forall k: nat | FirstEvent(w, p, k)
      ensures k == f
    {
      OneFirstEvent(w, p, f, k);
    }
  }

  lemma ReturnOrLate(w: Walk, p: nat, f: nat)
    requires w.Valid() && NoSkip(w) && Disengages(w, p) && FirstEvent(w, p, f)
    requires forall j: nat :: !ParkBeforeReturn(w, p, j)
    ensures Real(w, p) && !ParkedByFsd(w, p)
  {
    hide Dt, Elapsed, HasSei, GpsSpeed;
    EventIsLater(w, p, f);
    forall k: nat | p < k < f
      ensures w.r.ap[k] != FSD
    {
      assert !Event(w, p, k);
    }
    assert !ParkBeforeReturn(w, p, f);
    assert RealAt(w, p, f);
  }

  lemma NothingHappens(w: Walk, p: nat)
    requires w.Valid() && NoSkip(w) && Disengages(w, p) && forall j: nat :: !Event(w, p, j)
    ensures Real(w, p) <==> !ParkedByFsd(w, p)
  {
    hide Dt, HasSei, GpsSpeed;
    var last := w.N() - 1;
    if p < last {
      assert !Event(w, p, last);
      assert Elapsed(w, p, last) <= 2000.0;
    }
    forall j: nat
      ensures !ParkBeforeReturn(w, p, j)
    {
      assert !Event(w, p, j);
    }
  }

  /** Both counters count an index exactly when it disengages and its own Park test fails; the lookahead test is
      the weaker. */
  lemma LookaheadOnUnskippedClip(w: Walk, p: nat)
    requires w.Valid() && NoSkip(w)
    ensures p in LookaheadSet(w) <==> Disengages(w, p) && !ParkSoon(w, p)
    ensures ParkedByFsd(w, p) && Disengages(w, p) ==> ParkSoon(w, p)
  {
    hide Dt, HasSei, GpsSpeed;
    if p == w.N() - 1 && EndsInPark(w) && Disengages(w, p) {
      assert Elapsed(w, p, p) == 0.0;
      assert ParkInWindow(w, p, p);
    }
  }

  /** The lookahead counter never exceeds the automaton, and they agree exactly when every
      disengagement that sees Park soon was parked by FSD. */
  lemma LookaheadNeverExceeds(w: Walk)
    requires w.Valid() && NoSkip(w)
    ensures LookaheadSet(w) <= RealDisengagements(w)
    ensures |LookaheadSet(w)| <= |RealDisengagements(w)|
    ensures |LookaheadSet(w)| == |RealDisengagements(w)| <==>
            forall p: nat :: Disengages(w, p) && ParkSoon(w, p) ==> ParkedByFsd(w, p)
  {
    var l, r := LookaheadSet(w), RealDisengagements(w);
    forall p: nat
      ensures p in l <==> Disengages(w, p) && !ParkSoon(w, p)
      ensures p in r <==> Disengages(w, p) && !ParkedByFsd(w, p)
      ensures ParkedByFsd(w, p) && Disengages(w, p) ==> ParkSoon(w, p)
    {
      LookaheadOnUnskippedClip(w, p);
      RealOnUnskippedClip(w, p);
      DisengageIndex(w, p);
    }
    hide LookaheadSet, RealDisengagements, Disengages, ParkSoon, ParkedByFsd;
    SubsetSize(l, r);
  }

  lemma DisengageIndex(w: Walk, p: nat)
    requires w.Valid()
    ensures Disengages(w, p) ==> 1 <= p < w.N()
  {
  }

  lemma {:induction false} SubsetSize(a: set<nat>, b: set<nat>)
    requires a <= b
    ensures |a| <= |b| && (|a| == |b| <==> a == b)
  {
    assert b == a + (b - a);
    assert |b| == |a| + |b - a|;
    if |b - a| == 0 {
      assert b - a == {};
    }
  }

  /** A checkable reason to agree at p: its own gear is not Park and FSD stays off for two seconds. */
  lemma AgreesWithoutParkOrReturn(w: Walk, p: nat)
    requires w.Valid() && NoSkip(w) && Disengages(w, p)
    requires w.HasGears() ==> w.r.gears[p] != PARK
    requires forall j: nat :: p < j < w.N() && Elapsed(w, p, j) <= 2000.0 ==> w.r.ap[j] != FSD
    ensures p in LookaheadSet(w) <==> p in RealDisengagements(w)
  {
    hide Dt, HasSei, GpsSpeed;
    LookaheadOnUnskippedClip(w, p);
    RealOnUnskippedClip(w, p);
    if j: nat :| ParkInWindow(w, p, j) {
      assert p < j;
      forall k: nat | p < k < j
        ensures w.r.ap[k] != FSD
      {
        ElapsedGrows(w, p, k, j);
      }
      assert ParkBeforeReturn(w, p, j);
    }
  }

  /** The two counters are documented as equivalent; a three-point clip that is in Park just when FSD
      goes off is counted once by the automaton and not at all by the lookahead. */
  lemma CountersDiffer(dist: Metric, here: Point)
    requires !NullIsland(here)
    ensures var r := Route("", "", [here, here, here], [1, PARK, 1], [FSD, OFF, OFF], [9.0, 9.0, 9.0], [],
                           0, 0, [], "", "", 0.0);
            var w := Walk(r, NonNull(r.points), dist);
            NoSkip(w) && RealDisengagements(w) == {1} && LookaheadSet(w) == {}
  {
    var r := Route("", "", [here, here, here], [1, PARK, 1], [FSD, OFF, OFF], [9.0, 9.0, 9.0], [],
                   0, 0, [], "", "", 0.0);
    var w := Walk(r, NonNull(r.points), dist);
    assert HasSei(w) by { assert w.r.speeds[0] > 0.0; }
    assert Dt(w) == 30000.0;
    assert ParkInWindow(w, 1, 1);
    assert !ParkInWindow(w, 1, 2);
    forall p: nat
      ensures p in RealDisengagements(w) <==> p == 1
      ensures p !in LookaheadSet(w)
    {
      RealOnUnskippedClip(w, p);
    }
  }
}
