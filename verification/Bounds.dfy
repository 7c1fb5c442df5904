/** What the numbers of a clip and of a drive can be (server/drives/aggregate.go lines 79-196,
    server/drives/grouper_summaries.go lines 229-275 and 421-483). */
module Bounds {
  import opened DriveTypes
  import opened PairWalk
  import opened FsdEvents
  import opened Aggregate
  import opened DriveSummary

  /** Mode times are non-negative; each mode distance is part of the assisted distance, that of the total. */
  ghost predicate Shares(t: Totals) {
    && t.fsdMs >= 0 && t.autosteerMs >= 0 && t.taccMs >= 0
    && t.fsdDist >= 0.0 && t.autosteerDist >= 0.0 && t.taccDist >= 0.0
    && t.fsdDist + t.autosteerDist + t.taccDist <= t.assistedDist <= t.distance
  }

  function ModeMs(t: Totals): int { t.fsdMs + t.autosteerMs + t.taccMs }

  lemma PairShares(w: Walk, i: nat)
    requires w.Valid() && 1 <= i < w.N()
    ensures Shares(PairTotals(w, i)) && ModeMs(PairTotals(w, i)) <= Dt(w).Floor
  {
    ModesApart(w, i);
    hide SpeedSample, Kept, Dt, D, HasSei, GpsSpeed, InMode;
    if Kept(w, i) {
      assert D(w, i) >= 0.0 && Dt(w).Floor >= 0;
    }
  }

  lemma ModesApart(w: Walk, i: nat)
    requires 1 <= i < w.N()
    ensures InMode(w, i, FSD) || InMode(w, i, AUTOSTEER) || InMode(w, i, TACC) ==> w.HasAP() && w.r.ap[i] != OFF
    ensures !(InMode(w, i, FSD) && InMode(w, i, AUTOSTEER)) && !(InMode(w, i, FSD) && InMode(w, i, TACC))
    ensures !(InMode(w, i, AUTOSTEER) && InMode(w, i, TACC))
  {
  }

  lemma PlusShares(a: Totals, b: Totals)
    requires Shares(a) && Shares(b)
    ensures Shares(Plus(a, b)) && ModeMs(Plus(a, b)) == ModeMs(a) + ModeMs(b)
  {
  }

  lemma {:induction false} PairSumShares(w: Walk, k: nat)
    requires w.Valid() && 1 <= k <= w.N() && 2 <= w.N()
    ensures Shares(PairSum(w, k)) && ModeMs(PairSum(w, k)) <= (k - 1) * Dt(w).Floor
  {
    hide Shares, Plus, PairTotals, Dt, ModeMs;
    if k == 1 {
      ZeroShares();
    } else {
      PairSumShares(w, k - 1);
      PairShares(w, k - 1);
      PlusShares(PairSum(w, k - 1), PairTotals(w, k - 1));
    }
  }

  lemma ZeroShares()
    ensures Shares(ZERO) && ModeMs(ZERO) == 0
  {
  }

  lemma WholeClip(n: nat, dt: real)
    requires n >= 2 && dt == CLIP_MS as real / (n - 1) as real
    ensures (n - 1) * dt.Floor <= CLIP_MS
  {
    var m := (n - 1) as real;
    assert dt * m == CLIP_MS as real;
    var f := dt.Floor as real;
    assert f * m <= dt * m;
    assert ((n - 1) * dt.Floor) as real == m * f;
  }

  /** Per clip the mode times add up to at most a minute, and the shares hold. */
  lemma {:induction false} ClipBounds(w: Walk)
    requires w.Valid()
    ensures Shares(ClipTotals(w)) && ModeMs(ClipTotals(w)) <= CLIP_MS
  {
    hide PairSum, Real, Push;
    if w.N() >= 2 {
      PairSumShares(w, w.N());
      WholeClip(w.N(), Dt(w));
    } else {
      ShortClip(w);
    }
  }

  // ----- speeds -------------------------------------------------------------

  /** `m` is the largest plausible speed reading of the kept pairs before k, or 0 without any. */
  ghost predicate IsMaxSpeed(w: Walk, k: nat, m: real)
    requires w.Valid() && k <= w.N()
  {
    && (forall i: nat :: 1 <= i < k && Kept(w, i) && SpeedSample(w, i).Some? ==> SpeedSample(w, i).value <= m)
    && (m == 0.0 || exists i: nat :: 1 <= i < k && Kept(w, i) && SpeedSample(w, i) == Some(m))
  }

  lemma PairSpeed(w: Walk, i: nat)
    requires w.Valid() && 1 <= i < w.N()
    ensures PairTotals(w, i).maxSpeed == if Kept(w, i) && SpeedSample(w, i).Some? then SpeedSample(w, i).value else 0.0
    ensures SpeedSample(w, i).Some? ==> SpeedSample(w, i).value >= 0.0
  {
    hide InMode, Kept, D, HasSei;
    if !HasSei(w) {
      assert GpsSpeed(w, i) >= 0.0 by { QuotientSign(D(w, i), Dt(w) / 1000.0); }
    }
  }

  lemma QuotientSign(a: real, b: real)
    requires a >= 0.0 && b > 0.0
    ensures a / b >= 0.0
  {
    var q := a / b;
    assert q * b == a;
    assert q < 0.0 ==> q * b < 0.0;
  }

  lemma MaxOfSum(w: Walk, k: nat)
    requires w.Valid() && 1 < k <= w.N()
    ensures PairSum(w, k).maxSpeed == MaxReal(PairSum(w, k - 1).maxSpeed, PairTotals(w, k - 1).maxSpeed)
  {
    hide PairTotals;
  }

  /** The maximum speed really is the largest plausible reading. */
  lemma {:induction false} MaxSpeedIsMax(w: Walk, k: nat)
    requires w.Valid() && k <= w.N()
    ensures IsMaxSpeed(w, k, PairSum(w, k).maxSpeed)
  {
    if k > 1 {
      hide SpeedSample, Kept, PairTotals, PairSum;
      MaxSpeedIsMax(w, k - 1);
      PairSumHasNoCounts(w, k - 1);
      MaxOfSum(w, k);
      PairSpeed(w, k - 1);
    }
  }

  // ----- accelerator pushes -------------------------------------------------

  /** The grace period is measured from an engagement inside the clip: a clip that FSD drives from its
      first point on reports no accelerator push at all. */
  lemma {:induction false} NoPushWithoutEngagement(w: Walk)
    requires w.Valid() && forall k: nat :: !Engages(w, k)
    ensures ClipTotals(w).pushes == 0
  {
    forall i: nat
      ensures !Press(w, i)
    {
      NoEngagement(w, i + 1);
    }
    hide Press, Release, Engages, PairSum, RealDisengagements;
    assert Pushes(w) == {};
  }

  // ----- shares of a drive --------------------------------------------------

  lemma Nearest(share: real, part: real, total: real)
    requires total > 0.0 && part / total - 0.0005 <= share / 100.0 <= part / total + 0.0005
    ensures -0.05 * total <= share * total - 100.0 * part <= 0.05 * total
  {
    var q := part / total;
    assert q * total == part;
    var e := share - 100.0 * q;
    assert -0.05 <= e <= 0.05;
    assert e * total == share * total - 100.0 * (q * total);
    assert (e + 0.05) * total >= 0.0 && (0.05 - e) * total >= 0.0;
  }

  /** A rounded percentage of a part lies between 0 and 100, in tenths, at most half of one away from the exact
      percentage. */
  lemma ShareIsPercentage(part: real, total: real)
    requires 0.0 <= part <= total
    ensures 0.0 <= Share(part, total) <= 100.0 && (Share(part, total) * 10.0).Floor as real == Share(part, total) * 10.0
    ensures total > 0.0 ==> -0.05 * total <= Share(part, total) * total - 100.0 * part <= 0.05 * total
    ensures total == 0.0 ==> Share(part, total) == 0.0
  {
    if total > 0.0 {
      var q := part / total;
      assert q * total == part;
      var n := Round(q * 1000.0) as real;
      assert n - 0.5 <= q * 1000.0 <= n + 0.5;
      assert q > 1.0 ==> q * total > total;
      assert q < 0.0 ==> q * total < 0.0;
      assert 0.0 <= q <= 1.0;
      hide Round;
      assert 0.0 <= n <= 1000.0;
      assert Share(part, total) == n / 10.0;
      hide Share;
      Nearest(Share(part, total), part, total);
    }
  }

  lemma {:induction false} RowSumShares(rows: seq<RouteAggregates>, k: nat)
    requires k <= |rows| && forall i :: 0 <= i < |rows| ==> Shares(RowTotals(rows[i]))
    ensures Shares(RowSum(rows, k))
  {
    hide Shares, Plus, RowTotals;
    if k == 0 {
      ZeroShares();
    } else {
      RowSumShares(rows, k - 1);
      PlusShares(RowSum(rows, k - 1), RowTotals(rows[k - 1]));
    }
  }

  /** Every percentage of a drive summary lies in 0..100, jumps between clips included. */
  lemma DrivePercentages(dist: Metric, rs: seq<Route>)
    ensures var t := CachedDrive(dist, Rows(dist, rs)).totals;
            && Shares(t)
            && (forall part | part in {t.fsdDist, t.autosteerDist, t.taccDist, t.assistedDist} ::
                  0.0 <= part <= t.distance && 0.0 <= Share(part, t.distance) <= 100.0)
  {
    var rows := Rows(dist, rs);
    forall i | 0 <= i < |rows|
      ensures Shares(RowTotals(rows[i]))
    {
      hide Shares, RowTotals;
      RowKeepsTotals(dist, rs[i]);
      ClipBounds(RawWalk(dist, rs[i]));
    }
    RowSumShares(rows, |rows|);
    hide Share, RowSum;
    var t := CachedDrive(dist, rows).totals;
    assert Shares(t);
    ShareIsPercentage(t.fsdDist, t.distance);
    ShareIsPercentage(t.autosteerDist, t.distance);
    ShareIsPercentage(t.taccDist, t.distance);
    ShareIsPercentage(t.assistedDist, t.distance);
  }
}
