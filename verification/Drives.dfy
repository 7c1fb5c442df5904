/** The drives of a database snapshot: the canonical partition of its clips, and the agreement
    of the list view with the detail view. */
module Drives {
  import opened DriveTypes
  import opened Grouping
  import opened DriveSplit

  ghost function SigSplits(pieces: seq<seq<Timed>>): seq<seq<Timed>> {
    if pieces == [] then [] else SigSplit(pieces[0]) + SigSplits(pieces[1..])
  }

  /** The drives of one time group. */
  ghost function GroupDrives(g: seq<Timed>): seq<seq<Timed>> {
    SigSplits(GearSplit(g))
  }

  ghost function AllDrives(timeGroups: seq<seq<Timed>>): seq<seq<Timed>> {
    if timeGroups == [] then [] else GroupDrives(timeGroups[0]) + AllDrives(timeGroups[1..])
  }

  /** The outcome of groupSummaryClips: `timed` is some ordered permutation of the readable,
      deduplicated rows, and the drives are cut from its time groups. */
  ghost predicate Grouped(clock: Clock, summaries: seq<Summary>, timed: seq<Timed>, timeGroups: seq<seq<Timed>>,
        drives: seq<seq<Timed>>) {
    && SortedFrom(timed, Candidates(clock, summaries))
    && TimeSplit(timed, timeGroups)
    && drives == AllDrives(timeGroups)
  }

  ghost predicate AreDrives(clock: Clock, summaries: seq<Summary>, drives: seq<seq<Timed>>) {
    exists timed, timeGroups :: Grouped(clock, summaries, timed, timeGroups, drives)
  }

  method GroupSummaryClips(clock: Clock, summaries: seq<Summary>) returns (groups: seq<seq<Timed>>)
    ensures AreDrives(clock, summaries, groups)
  {
    hide GroupDrives, SigSplits, TimeSplit, FirstRows, WithTime;
    var unique := Deduplicate(RowFile, summaries);
    var readable := ReadTimes(RowFile, clock, unique);
    var sorted := SortByTime(readable);
    groups := [];
    if |sorted| == 0 {
      assert TimeSplit<Summary>([], []) by { EmptySplit(); }
      assert Grouped(clock, summaries, [], [], []);
      return;
    }
    var tgs := SplitByTime(sorted);
    for i := 0 to |tgs|
      invariant groups + AllDrives(tgs[i..]) == AllDrives(tgs)
    {
      assert tgs[i..][1..] == tgs[i + 1..];
      assert tgs[i] != [] by { GroupNonEmpty(sorted, tgs, i); }
      var drives := DrivesOfGroup(tgs[i]);
      assert groups + (drives + AllDrives(tgs[i + 1..])) == (groups + drives) + AllDrives(tgs[i + 1..]);
      groups := groups + drives;
    }
    assert tgs[|tgs|..] == [];
    assert Grouped(clock, summaries, sorted, tgs, groups);
  }

  lemma EmptySplit()
    ensures TimeSplit<Summary>([], [])
  {
  }

  lemma GroupNonEmpty(timed: seq<Timed>, timeGroups: seq<seq<Timed>>, i: nat)
    requires TimeSplit(timed, timeGroups) && i < |timeGroups|
    ensures timeGroups[i] != []
  {
    assert Tight(timeGroups[i]);
  }

  method DrivesOfGroup(g: seq<Timed>) returns (drives: seq<seq<Timed>>)
    requires g != []
    ensures drives == GroupDrives(g)
  {
    hide GearSplit, SigSplit, KeptClips;
    var pieces := SplitByGear(g);
    GearSplitKeeps(g);
    drives := [];
    for k := 0 to |pieces|
      invariant drives + SigSplits(pieces[k..]) == SigSplits(pieces)
    {
      assert pieces[k..][1..] == pieces[k + 1..];
      var buckets := SplitBySignature(pieces[k]);
      assert drives + (buckets + SigSplits(pieces[k + 1..])) == (drives + buckets) + SigSplits(pieces[k + 1..]);
      drives := drives + buckets;
    }
    assert pieces[|pieces|..] == [];
  }

  // ----- what the drives are ------------------------------------------------

  ghost predicate GoodDrives(drives: seq<seq<Timed>>) {
    forall k :: 0 <= k < |drives| ==> drives[k] != [] && Ordered(drives[k])
  }

  lemma {:induction false} SigSplitsGood(pieces: seq<seq<Timed>>)
    requires forall k :: 0 <= k < |pieces| ==> Ordered(pieces[k])
    ensures GoodDrives(SigSplits(pieces))
    ensures multiset(Flatten(SigSplits(pieces))) == multiset(Flatten(pieces))
  {
    hide SigSplit, Ordered;
    if pieces != [] {
      SigSplitsGood(pieces[1..]);
      forall k: nat | k < |SigSplit(pieces[0])| {
        SigSplitShape(pieces[0], k);
      }
      SigSplitKeeps(pieces[0]);
      FlattenConcat(SigSplit(pieces[0]), SigSplits(pieces[1..]));
    }
  }

  lemma {:induction false} OrderedParts(groups: seq<seq<Timed>>)
    requires Ordered(Flatten(groups))
    ensures forall k :: 0 <= k < |groups| ==> Ordered(groups[k])
  {
    if groups != [] {
      var flat, rest := Flatten(groups), Flatten(groups[1..]);
      assert forall i :: 0 <= i < |groups[0]| ==> flat[i] == groups[0][i];
      assert forall i :: 0 <= i < |rest| ==> flat[|groups[0]| + i] == rest[i];
      OrderedParts(groups[1..]);
      assert forall k :: 1 <= k < |groups| ==> groups[k] == groups[1..][k - 1];
    }
  }

  lemma {:induction false} MovingMembers(g: seq<Timed>, c: Timed)
    ensures c in Moving(g) <==> c in g && !ParkDominant(c.s)
  {
    hide ParkDominant;
    if g != [] {
      MovingMembers(g[1..], c);
      InCons(g, c);
      MovingCons(g, c);
    }
  }

  lemma MovingCons(g: seq<Timed>, c: Timed)
    requires g != []
    ensures c in Moving(g) <==> (c == g[0] && !ParkDominant(c.s)) || c in Moving(g[1..])
  {
    hide ParkDominant;
  }

  lemma {:induction false} MovingOrder(g: seq<Timed>)
    requires Ordered(g)
    ensures Ordered(Moving(g))
  {
    if g != [] {
      MovingOrder(g[1..]);
      forall i | 0 <= i < |Moving(g[1..])|
        ensures g[0].ts <= Moving(g[1..])[i].ts
      {
        MovingMembers(g[1..], Moving(g[1..])[i]);
      }
      hide ParkDominant;
    }
  }

  lemma MovingOrdered(g: seq<Timed>)
    requires Ordered(g)
    ensures Ordered(Moving(g)) && forall c :: c in Moving(g) <==> c in g && !ParkDominant(c.s)
  {
    MovingOrder(g);
    hide ParkDominant, Moving, Ordered;
    forall c
      ensures c in Moving(g) <==> c in g && !ParkDominant(c.s)
    {
      MovingMembers(g, c);
    }
  }

  lemma InCons(g: seq<Timed>, c: Timed)
    requires g != []
    ensures c in g <==> c == g[0] || c in g[1..]
  {
    assert g == [g[0]] + g[1..];
  }

  ghost function AllKept(timeGroups: seq<seq<Timed>>): seq<Timed> {
    if timeGroups == [] then [] else KeptClips(timeGroups[0]) + AllKept(timeGroups[1..])
  }

  lemma {:induction false} GroupDrivesGood(g: seq<Timed>)
    requires g != [] && Ordered(g)
    ensures GoodDrives(GroupDrives(g)) && multiset(Flatten(GroupDrives(g))) == multiset(KeptClips(g))
  {
    hide GearSplit, SigSplits, Ordered, Moving;
    GearSplitKeeps(g);
    MovingOrdered(g);
    OrderedParts(GearSplit(g));
    SigSplitsGood(GearSplit(g));
  }

  lemma {:induction false} AllDrivesGood(timeGroups: seq<seq<Timed>>)
    requires forall k :: 0 <= k < |timeGroups| ==> timeGroups[k] != [] && Ordered(timeGroups[k])
    ensures GoodDrives(AllDrives(timeGroups))
    ensures multiset(Flatten(AllDrives(timeGroups))) == multiset(AllKept(timeGroups))
  {
    hide GroupDrives, KeptClips, Ordered;
    if timeGroups != [] {
      GroupDrivesGood(timeGroups[0]);
      AllDrivesGood(timeGroups[1..]);
      FlattenConcat(GroupDrives(timeGroups[0]), AllDrives(timeGroups[1..]));
    }
  }

  /** No normalised path occurs twice. */
  ghost predicate Distinct(s: seq<Timed>) {
    forall i, j :: 0 <= i < j < |s| ==> Normalize(s[i].s.file) != Normalize(s[j].s.file)
  }

  ghost predicate DistinctRows(u: seq<Summary>) {
    forall i, j :: 0 <= i < j < |u| ==> Normalize(u[i].file) != Normalize(u[j].file)
  }

  lemma InNorms(u: seq<Summary>, i: nat)
    requires i < |u|
    ensures Normalize(u[i].file) in Norms(RowFile, u)
  {
  }

  lemma {:induction false} FirstRowsDistinct(s: seq<Summary>, k: nat)
    requires k <= |s|
    ensures DistinctRows(FirstRows(RowFile, s, k)) && Norms(RowFile, FirstRows(RowFile, s, k)) == Norms(RowFile, s[..k])
  {
    hide Normalize, Norms;
    if k == 0 {
      assert s[..0] == [];
    } else {
      FirstRowsDistinct(s, k - 1);
      var u, x := FirstRows(RowFile, s, k - 1), s[k - 1];
      assert Norms(RowFile, s[..k]) == Norms(RowFile, s[..k - 1]) + {Normalize(x.file)} by {
        NormsGrow(RowFile, s, k - 1);
      }
      if Normalize(x.file) in Norms(RowFile, s[..k - 1]) {
        assert Norms(RowFile, s[..k - 1]) + {Normalize(x.file)} == Norms(RowFile, s[..k - 1]);
      } else {
        var v := u + [x];
        assert v[..|u|] == u && v[..|v|] == v;
        NormsGrow(RowFile, v, |u|);
        forall i: nat | i < |u| {
          InNorms(u, i);
        }
      }
    }
  }

  lemma {:induction false} WithTimeMembers(clock: Clock, u: seq<Summary>, c: Timed)
    ensures c in WithTime(RowFile, clock, u) <==> c.s in u && clock(c.s.file) == Some(c.ts)
  {
    if u != [] {
      var front, last := u[..|u| - 1], u[|u| - 1];
      assert u == front + [last];
      WithTimeMembers(clock, front, c);
    }
  }

  lemma {:induction false} WithTimeDistinct(clock: Clock, u: seq<Summary>)
    requires DistinctRows(u)
    ensures Distinct(WithTime(RowFile, clock, u))
  {
    hide Normalize, Distinct;
    if u == [] {
      NoneDistinct();
    } else {
      var front, last := u[..|u| - 1], u[|u| - 1];
      WithTimeDistinct(clock, front);
      var w := WithTime(RowFile, clock, front);
      assert forall i :: 0 <= i < |w| ==> Normalize(w[i].s.file) != Normalize(last.file) by { LastIsNew(clock, u); }
      var t := clock(last.file);
      if t.Some? {
        DistinctSnoc(w, At(last, t.value));
      }
    }
  }

  lemma {:induction false} LastIsNew(clock: Clock, u: seq<Summary>)
    requires u != [] && DistinctRows(u)
    ensures var w := WithTime(RowFile, clock, u[..|u| - 1]);
            forall i :: 0 <= i < |w| ==> Normalize(w[i].s.file) != Normalize(u[|u| - 1].file)
  {
    hide Normalize, WithTime;
    var front := u[..|u| - 1];
    var w := WithTime(RowFile, clock, front);
    forall i | 0 <= i < |w|
      ensures Normalize(w[i].s.file) != Normalize(u[|u| - 1].file)
    {
      WithTimeMembers(clock, front, w[i]);
      var j :| 0 <= j < |front| && front[j] == w[i].s;
      assert u[j] == front[j];
    }
  }

  lemma NoneDistinct()
    ensures Distinct([])
  {
  }

  lemma DistinctSnoc(w: seq<Timed>, c: Timed)
    requires Distinct(w) && forall i :: 0 <= i < |w| ==> Normalize(w[i].s.file) != Normalize(c.s.file)
    ensures Distinct(w + [c])
  {
    hide Normalize;
  }

  lemma {:induction false} DistinctOnce(s: seq<Timed>, c: Timed)
    requires Distinct(s)
    ensures multiset(s)[c] <= 1
  {
    hide Normalize;
    if s != [] {
      var front, last := s[..|s| - 1], s[|s| - 1];
      assert s == front + [last];
      assert forall i :: 0 <= i < |front| ==> front[i] == s[i] && front[i] != last;
      DistinctOnce(front, c);
    }
  }

  /** Distinct paths survive reordering and dropping. */
  lemma DistinctSub(s: seq<Timed>, t: seq<Timed>)
    requires Distinct(s) && multiset(t) <= multiset(s)
    ensures Distinct(t)
  {
    hide Normalize;
    forall i, j | 0 <= i < j < |t|
      ensures Normalize(t[i].s.file) != Normalize(t[j].s.file)
    {
      var a, b := t[i], t[j];
      assert a in multiset(t) && b in multiset(t);
      assert a in s && b in s;
      if a == b {
        DistinctOnce(s, a);
        TwiceCounts(t, i, j);
      } else {
        var x, y :| 0 <= x < |s| && 0 <= y < |s| && s[x] == a && s[y] == b;
      }
    }
  }

  lemma TwiceCounts(t: seq<Timed>, i: nat, j: nat)
    requires i < j < |t| && t[i] == t[j]
    ensures multiset(t)[t[i]] >= 2
  {
    assert t == t[..j] + t[j..];
    assert t[..j][i] == t[i] && t[j..][0] == t[j];
    assert t[i] in multiset(t[..j]) && t[j] in multiset(t[j..]);
  }

  lemma {:induction false} KeptWithin(timeGroups: seq<seq<Timed>>)
    ensures multiset(AllKept(timeGroups)) <= multiset(Flatten(timeGroups))
  {
    hide KeptClips;
    if timeGroups != [] {
      KeptWithin(timeGroups[1..]);
      KeptOfOne(timeGroups[0]);
    }
  }

  lemma KeptOfOne(g: seq<Timed>)
    ensures multiset(KeptClips(g)) <= multiset(g)
  {
    hide Moving;
    MovingWithin(g);
  }

  lemma {:induction false} MovingWithin(g: seq<Timed>)
    ensures multiset(Moving(g)) <= multiset(g)
  {
    hide ParkDominant;
    if g != [] {
      MovingWithin(g[1..]);
      assert g == [g[0]] + g[1..];
    }
  }

  /** The drives are non-empty, in time order, and share no normalised path; together they are the
      clips of the time groups less the parked ones of every group that moves at all. */
  lemma {:induction false} DrivesAreCanonical(clock: Clock, summaries: seq<Summary>, timed: seq<Timed>,
        timeGroups: seq<seq<Timed>>, drives: seq<seq<Timed>>)
    requires Grouped(clock, summaries, timed, timeGroups, drives)
    ensures GoodDrives(drives)
    ensures Distinct(timed) && Distinct(Flatten(drives))
    ensures multiset(Flatten(drives)) == multiset(AllKept(timeGroups))
  {
    hide AllDrives, AllKept, Flatten, Ordered, Normalize, FirstRows, WithTime, TimeSplit;
    FirstRowsDistinct(summaries, |summaries|);
    WithTimeDistinct(clock, FirstRows(RowFile, summaries, |summaries|));
    DistinctSub(Candidates(clock, summaries), timed);
    GroupsOrdered(timed, timeGroups);
    AllDrivesGood(timeGroups);
    KeptWithin(timeGroups);
    DistinctSub(timed, Flatten(drives));
  }

  lemma {:induction false} GroupsOrdered(timed: seq<Timed>, timeGroups: seq<seq<Timed>>)
    requires TimeSplit(timed, timeGroups) && Ordered(timed)
    ensures Flatten(timeGroups) == timed
    ensures forall k :: 0 <= k < |timeGroups| ==> timeGroups[k] != [] && Ordered(timeGroups[k])
  {
    OrderedParts(timeGroups);
    forall k | 0 <= k < |timeGroups|
      ensures timeGroups[k] != []
    {
      assert Tight(timeGroups[k]);
    }
  }

  /** A clip is dropped exactly when it is park-dominant and its time group holds a clip that is not. */
  lemma {:induction false} DroppedClips(clock: Clock, summaries: seq<Summary>, timed: seq<Timed>,
        timeGroups: seq<seq<Timed>>, drives: seq<seq<Timed>>, k: nat, c: Timed)
    requires Grouped(clock, summaries, timed, timeGroups, drives)
    requires k < |timeGroups| && c in timeGroups[k]
    ensures c !in Flatten(drives) <==>
            ParkDominant(c.s) && exists d :: d in timeGroups[k] && !ParkDominant(d.s)
  {
    hide AllDrives, AllKept, Flatten, Ordered, ParkDominant, FirstRows, WithTime, TimeSplit, Grouped;
    DrivesAreCanonical(clock, summaries, timed, timeGroups, drives);
    assert c in Flatten(drives) <==> c in multiset(Flatten(drives));
    assert c in AllKept(timeGroups) <==> c in multiset(AllKept(timeGroups));
    assert Distinct(Flatten(timeGroups)) && Ordered(Flatten(timeGroups)) by {
      SplitFacts(clock, summaries, timed, timeGroups, drives);
    }
    KeptMember(timeGroups, k, c);
  }

  lemma {:induction false} SplitFacts(clock: Clock, summaries: seq<Summary>, timed: seq<Timed>,
        timeGroups: seq<seq<Timed>>, drives: seq<seq<Timed>>)
    requires Grouped(clock, summaries, timed, timeGroups, drives) && Distinct(timed)
    ensures Distinct(Flatten(timeGroups)) && Ordered(Flatten(timeGroups))
  {
  }

  lemma {:induction false} KeptMember(timeGroups: seq<seq<Timed>>, k: nat, c: Timed)
    requires Distinct(Flatten(timeGroups)) && Ordered(Flatten(timeGroups)) && k < |timeGroups| && c in timeGroups[k]
    ensures c in AllKept(timeGroups) <==> !(ParkDominant(c.s) && exists d :: d in timeGroups[k] && !ParkDominant(d.s))
  {
    hide ParkDominant, Normalize;
    var first, rest := timeGroups[0], timeGroups[1..];
    var flat := Flatten(timeGroups);
    OrderedParts(timeGroups);
    MovingOrdered(first);
    if k == 0 {
      assert c !in Flatten(rest) by { NotInTail(timeGroups, c); }
      assert c !in AllKept(rest) by { KeptWithin(rest); NotKept(rest, c); }
      KeptIff(first, c);
    } else {
      assert rest[k - 1] == timeGroups[k];
      TailDistinct(first, Flatten(rest));
      KeptMember(rest, k - 1, c);
      assert c !in first by { NotInHead(timeGroups, k, c); }
      assert c !in KeptClips(first) by {
        KeptOfOne(first);
        assert c !in multiset(first);
        assert c !in multiset(KeptClips(first));
      }
    }
  }

  lemma KeptIff(g: seq<Timed>, c: Timed)
    requires c in g && Ordered(g)
    ensures c in KeptClips(g) <==> !(ParkDominant(c.s) && exists d :: d in g && !ParkDominant(d.s))
  {
    hide ParkDominant, Moving;
    MovingOrdered(g);
    if Moving(g) != [] {
      assert Moving(g)[0] in Moving(g);
    }
  }

  lemma NotKept(groups: seq<seq<Timed>>, c: Timed)
    requires c !in Flatten(groups) && multiset(AllKept(groups)) <= multiset(Flatten(groups))
    ensures c !in AllKept(groups)
  {
    hide AllKept, Flatten;
    assert c !in multiset(Flatten(groups));
    assert c !in multiset(AllKept(groups));
  }

  lemma TailDistinct(a: seq<Timed>, b: seq<Timed>)
    requires Distinct(a + b) && Ordered(a + b)
    ensures Distinct(b) && Ordered(b)
  {
    hide Normalize;
    assert forall i :: 0 <= i < |b| ==> b[i] == (a + b)[|a| + i];
  }

  lemma NotInTail(timeGroups: seq<seq<Timed>>, c: Timed)
    requires timeGroups != [] && Distinct(Flatten(timeGroups)) && c in timeGroups[0]
    ensures c !in Flatten(timeGroups[1..])
  {
    hide Normalize;
    var a, b, flat := timeGroups[0], Flatten(timeGroups[1..]), Flatten(timeGroups);
    var i :| 0 <= i < |a| && a[i] == c;
    assert flat[i] == c;
    forall j | 0 <= j < |b|
      ensures b[j] != c
    {
      assert flat[|a| + j] == b[j];
    }
  }

  lemma {:induction false} InFlatten(groups: seq<seq<Timed>>, k: nat, c: Timed)
    requires k < |groups| && c in groups[k]
    ensures c in Flatten(groups)
  {
    if k > 0 {
      assert groups[1..][k - 1] == groups[k];
      InFlatten(groups[1..], k - 1, c);
    }
  }

  lemma NotInHead(timeGroups: seq<seq<Timed>>, k: nat, c: Timed)
    requires 0 < k < |timeGroups| && Distinct(Flatten(timeGroups)) && c in timeGroups[k]
    ensures c !in timeGroups[0]
  {
    hide Normalize, Distinct;
    assert timeGroups[1..][k - 1] == timeGroups[k];
    InFlatten(timeGroups[1..], k - 1, c);
    if c in timeGroups[0] {
      NotInTail(timeGroups, c);
    }
  }
}
