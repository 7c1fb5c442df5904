/** FSD disengagements and accelerator pushes: the online automaton of the pair walk
    against what it is meant to count. */
module FsdEvents {
  import opened DriveTypes
  import opened PairWalk

  // ----- disengagements, by looking ahead -----------------------------------

  /** FSD goes off at point i. */
  ghost predicate Disengages(w: Walk, i: nat)
    requires w.Valid()
  {
    Kept(w, i) && w.HasAP() && w.r.ap[i - 1] == FSD && w.r.ap[i] != FSD
  }

  function Elapsed(w: Walk, p: nat, j: nat): real
    requires w.N() >= 2
  {
    (j - p) as real * Dt(w)
  }

  ghost predicate ParkInWindow(w: Walk, p: nat, j: nat)
    requires w.Valid()
  {
    p <= j < w.N() && 2 <= w.N() && w.HasGears() && w.r.gears[j] == PARK && Elapsed(w, p, j) <= 2000.0
  }

  /** The disengagement at p would be a real one if it were settled at j. */
  ghost predicate RealAt(w: Walk, p: nat, j: nat)
    requires w.Valid()
  {
    && w.HasAP() && p <= j < w.N() && 2 <= w.N() && !ParkInWindow(w, p, j)
    && (Elapsed(w, p, j) > 2000.0 || w.r.ap[j] == FSD)
  }

  /** Point j settles the disengagement at p: Park in time, too late, FSD again, or another disengagement. */
  ghost predicate Event(w: Walk, p: nat, j: nat)
    requires w.Valid()
  {
    p < j && Kept(w, j) && w.HasAP() && (ParkInWindow(w, p, j) || RealAt(w, p, j) || Disengages(w, j))
  }

  ghost predicate FirstEvent(w: Walk, p: nat, j: nat)
    requires w.Valid()
  {
    Event(w, p, j) && forall k: nat :: p < k < j ==> !Event(w, p, k)
  }

  ghost predicate EndsInPark(w: Walk)
    requires w.Valid() && w.N() > 0
  {
    w.HasGears() && w.r.gears[w.N() - 1] == PARK
  }

  /** The specification: its first event makes the disengagement real, or there is none and the clip does not end
      in Park. */
  ghost predicate Real(w: Walk, p: nat)
    requires w.Valid()
  {
    && Disengages(w, p)
    && ((exists j: nat :: FirstEvent(w, p, j) && RealAt(w, p, j))
        || ((forall j: nat :: !Event(w, p, j)) && !EndsInPark(w)))
  }

  ghost function RealDisengagements(w: Walk): set<nat>
    requires w.Valid()
  {
    set p | 1 <= p < w.N() && Real(w, p)
  }

  // ----- accelerator pushes -------------------------------------------------

  ghost predicate Engages(w: Walk, i: nat)
    requires w.Valid()
  {
    Kept(w, i) && w.HasAP() && w.r.ap[i - 1] != FSD && w.r.ap[i] == FSD
  }

  /** The last engagement before point i in this clip, or -1. */
  ghost function LastEngage(w: Walk, i: nat): (e: int)
    requires w.Valid()
    ensures -1 <= e && (i > 0 ==> e < i)
  {
    if i == 0 then -1 else if Engages(w, i - 1) then i - 1 else LastEngage(w, i - 1)
  }

  lemma {:induction false} NoEngagement(w: Walk, i: nat)
    requires w.Valid() && forall k: nat :: !Engages(w, k)
    ensures LastEngage(w, i) == -1
  {
    hide Engages;
    if i > 0 {
      NoEngagement(w, i - 1);
    }
  }

  /** Pedal positions up to 1 are fractions, larger ones percentages. */
  function Percent(a: real): real { if a <= 1.0 then a * 100.0 else a }

  function SinceEngage(w: Walk, engagedAt: int, i: nat): real
    requires w.N() >= 2
  {
    if engagedAt >= 0 then (i - engagedAt) as real * Dt(w) else 0.0
  }

  /** The pedal is down under FSD, past the grace period after an engagement seen in this clip. */
  ghost predicate Press(w: Walk, i: nat)
    requires w.Valid()
  {
    && Kept(w, i) && w.HasAP() && w.HasAccel() && w.r.ap[i] == FSD
    && Percent(w.r.accel[i]) > 1.0 && SinceEngage(w, LastEngage(w, i + 1), i) >= 3000.0
  }

  ghost predicate Release(w: Walk, i: nat)
    requires w.Valid()
  {
    Kept(w, i) && w.HasAP() && w.HasAccel() && w.r.ap[i] == FSD && Percent(w.r.accel[i]) <= 0.0
  }

  /** Point i forgets a press: FSD is off, was just engaged, or the pedal came up. */
  ghost predicate Forgets(w: Walk, i: nat)
    requires w.Valid()
  {
    Kept(w, i) && w.HasAP() && (w.r.ap[i] != FSD || Engages(w, i) || Release(w, i))
  }

  /** A press before point i that nothing has forgotten since. */
  ghost predicate Armed(w: Walk, i: nat)
    requires w.Valid()
  {
    exists j: nat :: j < i && Press(w, j) && forall k: nat :: j < k < i ==> !Forgets(w, k)
  }

  ghost predicate Push(w: Walk, i: nat)
    requires w.Valid()
  {
    Release(w, i) && !Engages(w, i) && Armed(w, i)
  }

  ghost function Pushes(w: Walk): set<nat>
    requires w.Valid()
  {
    set i | 1 <= i < w.N() && Push(w, i)
  }

  // ----- the automaton ------------------------------------------------------

  datatype Pending = Pending(waiting: bool, idx: nat, count: nat)
  datatype Pedal = Pedal(inPress: bool, engageIdx: int, count: nat)

  /** The disengagements already settled as real before point i. */
  ghost function Settled(w: Walk, i: nat): set<nat>
    requires w.Valid()
  {
    set p: nat | p < i && SettledReal(w, p, i)
  }

  ghost predicate SettledReal(w: Walk, p: nat, i: nat)
    requires w.Valid()
  {
    Disengages(w, p) && exists j: nat :: j < i && FirstEvent(w, p, j) && RealAt(w, p, j)
  }

  ghost predicate SettledBy(w: Walk, p: nat, i: nat)
    requires w.Valid()
  {
    exists j: nat :: j < i && FirstEvent(w, p, j)
  }

  /** What the automaton knows about disengagements before it looks at point i. */
  ghost predicate DisengageInv(w: Walk, i: nat, s: Pending)
    requires w.Valid()
  {
    && s.count == |Settled(w, i)|
    && (s.waiting ==> s.idx < i && Disengages(w, s.idx) && !SettledBy(w, s.idx, i))
    && forall p: nat :: p < i && Disengages(w, p) && !(s.waiting && p == s.idx) ==> SettledBy(w, p, i)
  }

  /** What one point must do to the pending disengagement. */
  ghost predicate DisengageNext(w: Walk, i: nat, s: Pending, s': Pending)
    requires w.Valid()
  {
    && (s'.waiting <==> Disengages(w, i) || (s.waiting && !Event(w, s.idx, i)))
    && (s'.waiting ==> s'.idx == if Disengages(w, i) then i else s.idx)
    && s'.count == s.count + if s.waiting && Event(w, s.idx, i) && RealAt(w, s.idx, i) then 1 else 0
  }

  /** An unsettled disengagement is settled by its next event. */
  lemma NextEventIsFirst(w: Walk, p: nat, i: nat)
    requires w.Valid() && !SettledBy(w, p, i) && Event(w, p, i)
    ensures FirstEvent(w, p, i)
  {
    hide Event;
    if k: nat :| p < k < i && Event(w, p, k) {
      EarliestEvent(w, p, k);
    }
  }

  lemma {:induction false} EarliestEvent(w: Walk, p: nat, k: nat)
    requires w.Valid() && Event(w, p, k)
    ensures exists j: nat :: j <= k && FirstEvent(w, p, j)
    decreases k
  {
    hide Event;
    if j: nat :| p < j < k && Event(w, p, j) {
      EarliestEvent(w, p, j);
    } else {
      assert FirstEvent(w, p, k);
    }
  }

  lemma OneFirstEvent(w: Walk, p: nat, j: nat, k: nat)
    requires w.Valid() && FirstEvent(w, p, j) && FirstEvent(w, p, k)
    ensures j == k
  {
    EventIsLater(w, p, j);
    EventIsLater(w, p, k);
    hide Event;
  }

  lemma EventIsLater(w: Walk, p: nat, j: nat)
    requires w.Valid() && Event(w, p, j)
    ensures p < j < w.N() && w.HasAP()
  {
    hide ParkInWindow, RealAt, Disengages;
  }

  ghost predicate SettlesAt(w: Walk, i: nat, s: Pending)
    requires w.Valid()
  {
    s.waiting && Event(w, s.idx, i) && RealAt(w, s.idx, i)
  }

  lemma {:induction false} SettledMember(w: Walk, i: nat, s: Pending, p: nat)
    requires w.Valid() && DisengageInv(w, i, s)
    ensures p in Settled(w, i + 1) <==> p in Settled(w, i) || (SettlesAt(w, i, s) && p == s.idx)
  {
    hide Event, RealAt, Disengages;
    if p in Settled(w, i + 1) && p !in Settled(w, i) {
      var j: nat :| j < i + 1 && FirstEvent(w, p, j) && RealAt(w, p, j);
      EventIsLater(w, p, j);
      assert j == i;
      if SettledBy(w, p, i) {
        var k: nat :| k < i && FirstEvent(w, p, k);
        OneFirstEvent(w, p, j, k);
      }
    }
    if SettlesAt(w, i, s) {
      NextEventIsFirst(w, s.idx, i);
      assert SettledReal(w, s.idx, i + 1);
    }
  }

  lemma {:induction false} SettledGrows(w: Walk, i: nat, s: Pending)
    requires w.Valid() && DisengageInv(w, i, s)
    ensures s.waiting ==> s.idx !in Settled(w, i)
    ensures Settled(w, i + 1) == if SettlesAt(w, i, s) then Settled(w, i) + {s.idx} else Settled(w, i)
  {
    assert s.waiting ==> s.idx !in Settled(w, i) by {
      hide Event, RealAt, Disengages, FirstEvent;
    }
    hide Settled, SettlesAt;
    forall p: nat
      ensures p in Settled(w, i + 1) <==> p in Settled(w, i) || (SettlesAt(w, i, s) && p == s.idx)
    {
      SettledMember(w, i, s, p);
    }
  }

  lemma DisengageStep(w: Walk, i: nat, s: Pending, s': Pending)
    requires w.Valid() && DisengageInv(w, i, s) && DisengageNext(w, i, s, s')
    ensures DisengageInv(w, i + 1, s')
  {
    hide Event, RealAt, Disengages, Settled, FirstEvent;
    SettledGrows(w, i, s);
    if s.waiting && Event(w, s.idx, i) {
      NextEventIsFirst(w, s.idx, i);
      assert SettledBy(w, s.idx, i + 1);
    }
    if s'.waiting && SettledBy(w, s'.idx, i + 1) {
      var j: nat :| j < i + 1 && FirstEvent(w, s'.idx, j);
      FirstEventIsEvent(w, s'.idx, j);
      EventIsLater(w, s'.idx, j);
    }
    if Disengages(w, i) && s.waiting {
      DisengagementIsEvent(w, s.idx, i);
    }
  }

  lemma FirstEventIsEvent(w: Walk, p: nat, j: nat)
    requires w.Valid() && FirstEvent(w, p, j)
    ensures Event(w, p, j)
  {
  }

  lemma DisengagementIsEvent(w: Walk, p: nat, i: nat)
    requires w.Valid() && p < i && Disengages(w, i)
    ensures Event(w, p, i)
  {
    hide ParkInWindow, RealAt;
  }

  method TrackDisengage(w: Walk, i: nat, s: Pending) returns (s': Pending)
    requires w.Valid() && Kept(w, i) && w.HasAP() && (s.waiting ==> s.idx < i)
    ensures DisengageNext(w, i, s, s')
  {
    hide HasSei, GpsSpeed, Dt;
    var curAP, prevAP := w.r.ap[i], w.r.ap[i - 1];
    s' := s;
    if s.waiting {
      var timeSinceMs := Elapsed(w, s.idx, i);
      if w.HasGears() && w.r.gears[i] == PARK && timeSinceMs <= 2000.0 {
        s' := s'.(waiting := false);
      } else if timeSinceMs > 2000.0 || curAP == FSD {
        s' := s'.(waiting := false, count := s'.count + 1);
      }
    }
    if prevAP == FSD && curAP != FSD {
      s' := s'.(waiting := true, idx := i);
    }
  }

  /** At the end of the clip a pending disengagement counts unless the clip ends in Park;
      then the automaton has counted exactly the real ones. */
  lemma {:induction false} FlushCountsReal(w: Walk, s: Pending)
    requires w.Valid() && w.N() > 0 && DisengageInv(w, w.N(), s)
    ensures |RealDisengagements(w)| == s.count + if s.waiting && !EndsInPark(w) then 1 else 0
  {
    hide Event, RealAt, Disengages, FirstEvent, EndsInPark;
    forall p: nat
      ensures p in RealDisengagements(w) <==> p in Settled(w, w.N()) || (s.waiting && !EndsInPark(w) && p == s.idx)
    {
      RealIffSettledOrPending(w, s, p);
    }
    assert RealDisengagements(w) == Settled(w, w.N()) + if s.waiting && !EndsInPark(w) then {s.idx} else {};
  }

  lemma {:induction false} RealIffSettledOrPending(w: Walk, s: Pending, p: nat)
    requires w.Valid() && w.N() > 0 && DisengageInv(w, w.N(), s)
    ensures p in RealDisengagements(w) <==> p in Settled(w, w.N()) || (s.waiting && !EndsInPark(w) && p == s.idx)
  {
    hide Event, RealAt, EndsInPark;
    forall j: nat | FirstEvent(w, p, j)
      ensures j < w.N()
    {
      EventIsLater(w, p, j);
    }
    forall j: nat | Event(w, p, j)
      ensures SettledBy(w, p, w.N())
    {
      EarliestEvent(w, p, j);
    }
  }

  // ----- the pedal ----------------------------------------------------------

  ghost function PushesBefore(w: Walk, i: nat): set<nat>
    requires w.Valid()
  {
    set k: nat | k < i && Push(w, k)
  }

  ghost predicate PedalInv(w: Walk, i: nat, s: Pedal)
    requires w.Valid()
  {
    && s.engageIdx == LastEngage(w, i)
    && (s.inPress <==> Armed(w, i))
    && s.count == |PushesBefore(w, i)|
  }

  ghost predicate PedalNext(w: Walk, i: nat, s: Pedal, s': Pedal)
    requires w.Valid()
  {
    && s'.engageIdx == (if Engages(w, i) then i else s.engageIdx)
    && (s'.inPress <==> Press(w, i) || (s.inPress && !Forgets(w, i)))
    && s'.count == s.count + if s.inPress && Release(w, i) && !Engages(w, i) then 1 else 0
  }

  lemma {:induction false} PedalStep(w: Walk, i: nat, s: Pedal, s': Pedal)
    requires w.Valid() && PedalInv(w, i, s) && PedalNext(w, i, s, s')
    ensures PedalInv(w, i + 1, s')
  {
    hide Engages, Press, Release, Forgets, PushesBefore;
    if Press(w, i) {
      assert Armed(w, i + 1);
    } else if Armed(w, i) && !Forgets(w, i) {
      var j: nat :| j < i && Press(w, j) && forall k: nat :: j < k < i ==> !Forgets(w, k);
      assert forall k: nat :: j < k < i + 1 ==> !Forgets(w, k);
      assert Armed(w, i + 1);
    }
    if Armed(w, i + 1) && !Press(w, i) {
      var j: nat :| j < i + 1 && Press(w, j) && forall k: nat :: j < k < i + 1 ==> !Forgets(w, k);
      assert Armed(w, i);
    }
    PushesGrow(w, i);
  }

  lemma PushesGrow(w: Walk, i: nat)
    requires w.Valid()
    ensures i !in PushesBefore(w, i)
    ensures PushesBefore(w, i + 1) == if Push(w, i) then PushesBefore(w, i) + {i} else PushesBefore(w, i)
  {
    hide Push;
  }

  method TrackPedal(w: Walk, i: nat, s: Pedal) returns (s': Pedal)
    requires w.Valid() && Kept(w, i) && w.HasAP() && s.engageIdx == LastEngage(w, i)
    ensures PedalNext(w, i, s, s')
  {
    hide HasSei, GpsSpeed, Dt, Percent;
    var curAP, prevAP := w.r.ap[i], w.r.ap[i - 1];
    s' := s;
    if prevAP != FSD && curAP == FSD {
      s' := s'.(engageIdx := i, inPress := false);
    }
    if prevAP == FSD && curAP != FSD {
      s' := s'.(inPress := false);
    }
    if curAP == FSD && w.HasAccel() {
      var accelPct := Percent(w.r.accel[i]);
      var timeSinceEngageMs := SinceEngage(w, s'.engageIdx, i);
      if !s'.inPress && accelPct > 1.0 && timeSinceEngageMs >= 3000.0 {
        s' := s'.(inPress := true);
      } else if s'.inPress && accelPct <= 0.0 {
        s' := s'.(inPress := false, count := s'.count + 1);
      }
    } else if curAP != FSD {
      s' := s'.(inPress := false);
    }
  }
}
