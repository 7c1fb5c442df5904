/** The walk over successive points of one clip.  The same loop stands in aggregate.go
    (lines 93-203) and in GroupSummaries (grouper.go lines 711-830); they differ in the
    mask of valid points and in where the running totals start. */
module PairWalk {
  import opened Bytes
  import opened DriveTypes

  /** A clip, the mask of its valid points, and the distance in use. */
  datatype Walk = Walk(r: Route, valid: seq<bool>, dist: Metric) {
    ghost predicate Valid() { |valid| == |r.points| }
    function N(): nat { |r.points| }
    predicate HasAP() { |r.ap| == N() }
    predicate HasGears() { |r.gears| == N() }
    predicate HasAccel() { |r.accel| == N() }
  }

  ghost predicate HasSei(w: Walk) {
    |w.r.speeds| == w.N() && exists k :: 0 <= k < w.N() && w.r.speeds[k] > 0.0
  }

  method SeiSpeedsPresent(w: Walk) returns (b: bool)
    ensures b == HasSei(w)
  {
    if |w.r.speeds| == w.N() {
      for k := 0 to w.N()
        invariant forall j :: 0 <= j < k ==> w.r.speeds[j] <= 0.0
      {
        if w.r.speeds[k] > 0.0 {
          return true;
        }
      }
    }
    return false;
  }

  /** The milliseconds between two points. */
  function Dt(w: Walk): (dt: real)
    requires w.N() >= 2
    ensures 0.0 < dt <= CLIP_MS as real
  {
    DtBounds(w.N());
    CLIP_MS as real / (w.N() - 1) as real
  }

  lemma DtBounds(n: nat)
    requires n >= 2
    ensures 0.0 < CLIP_MS as real / (n - 1) as real <= CLIP_MS as real
  {
    var m := (n - 1) as real;
    assert m >= 1.0;
    Quotient(CLIP_MS as real, m);
  }

  lemma Quotient(a: real, m: real)
    requires a > 0.0 && m >= 1.0
    ensures 0.0 < a / m <= a
  {
    var q := a / m;
    assert q * m == a;
    assert q <= 0.0 ==> q * m <= 0.0;
    assert q > a ==> q * m >= q;
  }

  function D(w: Walk, i: nat): (d: real)
    requires 1 <= i < w.N()
    ensures d >= 0.0
  {
    (w.dist)(w.r.points[i - 1], w.r.points[i])
  }

  function GpsSpeed(w: Walk, i: nat): real
    requires 1 <= i < w.N()
  {
    D(w, i) / (Dt(w) / 1000.0)
  }

  /** The pair (i-1, i) counts: both ends valid and no GPS teleport. */
  ghost predicate Kept(w: Walk, i: nat)
    requires w.Valid()
  {
    1 <= i < w.N() && w.valid[i - 1] && w.valid[i] && (HasSei(w) || GpsSpeed(w, i) <= 70.0)
  }

  // ----- sums ---------------------------------------------------------------

  datatype Totals = Totals(
    distance: real, speedSum: real, speedCount: nat, maxSpeed: real,
    fsdMs: int, autosteerMs: int, taccMs: int,
    fsdDist: real, autosteerDist: real, taccDist: real, assistedDist: real,
    disengagements: nat, pushes: nat)

  const ZERO := Totals(0.0, 0.0, 0, 0.0, 0, 0, 0, 0.0, 0.0, 0.0, 0.0, 0, 0)

  function MaxReal(a: real, b: real): real { if b > a then b else a }

  /** Adding up: sums add, maxima combine. */
  function Plus(a: Totals, b: Totals): Totals {
    Totals(a.distance + b.distance, a.speedSum + b.speedSum, a.speedCount + b.speedCount,
           MaxReal(a.maxSpeed, b.maxSpeed),
           a.fsdMs + b.fsdMs, a.autosteerMs + b.autosteerMs, a.taccMs + b.taccMs,
           a.fsdDist + b.fsdDist, a.autosteerDist + b.autosteerDist, a.taccDist + b.taccDist,
           a.assistedDist + b.assistedDist,
           a.disengagements + b.disengagements, a.pushes + b.pushes)
  }

  /** The speed reading of a kept pair, when it is plausible. */
  ghost function SpeedSample(w: Walk, i: nat): Option<real>
    requires w.Valid() && 1 <= i < w.N()
  {
    if HasSei(w)
    then (if 0.0 <= w.r.speeds[i] < 100.0 then Some(w.r.speeds[i]) else None)
    else (if GpsSpeed(w, i) < 70.0 then Some(GpsSpeed(w, i)) else None)
  }

  ghost function InMode(w: Walk, i: nat, mode: byte): bool
    requires 1 <= i < w.N()
  {
    w.HasAP() && w.r.ap[i] == mode
  }

  /** What one pair contributes. */
  ghost function PairTotals(w: Walk, i: nat): Totals
    requires w.Valid() && 1 <= i < w.N()
  {
    if !Kept(w, i) then ZERO else
    var s, d, ms := SpeedSample(w, i), D(w, i), Dt(w).Floor;
    var fsd, auto, tacc := InMode(w, i, FSD), InMode(w, i, AUTOSTEER), InMode(w, i, TACC);
    Totals(d, if s.Some? then s.value else 0.0, if s.Some? then 1 else 0,
           if s.Some? then MaxReal(0.0, s.value) else 0.0,
           if fsd then ms else 0, if auto then ms else 0, if tacc then ms else 0,
           if fsd then d else 0.0, if auto then d else 0.0, if tacc then d else 0.0,
           if w.HasAP() && w.r.ap[i] != OFF then d else 0.0, 0, 0)
  }

  /** The sum over the pairs that end before `k`. */
  ghost function PairSum(w: Walk, k: nat): Totals
    requires w.Valid() && k <= w.N()
  {
    if k <= 1 then ZERO else Plus(PairSum(w, k - 1), PairTotals(w, k - 1))
  }

  method AddPair(w: Walk, i: nat, hasSei: bool, t: Totals) returns (t': Totals)
    requires w.Valid() && 1 <= i < w.N() && hasSei == HasSei(w) && Kept(w, i) && t.maxSpeed >= 0.0
    ensures t' == Plus(t, PairTotals(w, i))
  {
    hide GpsSpeed, D, Dt;
    var d, dtMs := D(w, i), Dt(w);
    t' := t.(distance := t.distance + d);
    if hasSei {
      var speed := w.r.speeds[i];
      if speed >= 0.0 && speed < 100.0 {
        t' := t'.(speedSum := t'.speedSum + speed, speedCount := t'.speedCount + 1);
        if speed > t'.maxSpeed {
          t' := t'.(maxSpeed := speed);
        }
      }
    } else {
      var speed := GpsSpeed(w, i);
      if speed < 70.0 {
        t' := t'.(speedSum := t'.speedSum + speed, speedCount := t'.speedCount + 1);
        if speed > t'.maxSpeed {
          t' := t'.(maxSpeed := speed);
        }
      }
    }
    if w.HasAP() {
      var curAP := w.r.ap[i];
      if curAP != OFF {
        t' := t'.(assistedDist := t'.assistedDist + d);
        if curAP == FSD {
          t' := t'.(fsdMs := t'.fsdMs + dtMs.Floor, fsdDist := t'.fsdDist + d);
        } else if curAP == AUTOSTEER {
          t' := t'.(autosteerMs := t'.autosteerMs + dtMs.Floor, autosteerDist := t'.autosteerDist + d);
        } else if curAP == TACC {
          t' := t'.(taccMs := t'.taccMs + dtMs.Floor, taccDist := t'.taccDist + d);
        }
      }
    }
  }
}
