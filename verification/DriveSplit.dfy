/** Cutting a time group into drives: at park-dominant clips, then by external signature
    (server/drives/grouper_summaries.go lines 72-190). */
module DriveSplit {
  import opened Gears
  import opened Grouping

  // ----- park-dominant clips ------------------------------------------------

  ghost predicate ParkDominant(s: Summary) {
    if s.gearRuns != []
    then Frames(s.gearRuns) != 0 && exists k :: 0 <= k < |s.gearRuns| && ParkGap(s.gearRuns[k], Frames(s.gearRuns))
    else s.rawFrames > 0 && s.rawPark > 0 && s.rawPark as real / s.rawFrames as real > 0.5
  }

  method ClipIsParkDominant(s: Summary) returns (b: bool)
    ensures b == ParkDominant(s)
  {
    hide ParkGap;
    if |s.gearRuns| > 0 {
      var total := SumFrames(s.gearRuns);
      if total == 0 {
        return false;
      }
      for k := 0 to |s.gearRuns|
        invariant forall j :: 0 <= j < k ==> !ParkGap(s.gearRuns[j], total)
      {
        if ParkGap(s.gearRuns[k], total) {
          return true;
        }
      }
      return false;
    }
    if s.rawFrames > 0 && s.rawPark > 0 {
      return s.rawPark as real / s.rawFrames as real > 0.5;
    }
    return false;
  }

  // ----- the gear split -----------------------------------------------------

  /** The maximal runs of clips that are not park-dominant, `current` being the run so far. */
  ghost function Pieces(g: seq<Timed>, current: seq<Timed>): seq<seq<Timed>> {
    var closed := if current == [] then [] else [current];
    if g == [] then closed
    else if ParkDominant(g[0].s) then closed + Pieces(g[1..], [])
    else Pieces(g[1..], current + [g[0]])
  }

  ghost function GearSplit(g: seq<Timed>): seq<seq<Timed>> {
    if |g| <= 1 || Pieces(g, []) == [] then [g] else Pieces(g, [])
  }

  method SplitByGear(g: seq<Timed>) returns (result: seq<seq<Timed>>)
    ensures result == GearSplit(g)
  {
    hide ParkDominant;
    if |g| <= 1 {
      return [g];
    }
    result := [];
    var current := [];
    for i := 0 to |g|
      invariant result + Pieces(g[i..], current) == Pieces(g, [])
    {
      assert g[i..][1..] == g[i + 1..];
      var parked := ClipIsParkDominant(g[i].s);
      if parked {
        if |current| > 0 {
          assert result + ([current] + Pieces(g[i + 1..], [])) == (result + [current]) + Pieces(g[i + 1..], []);
          result := result + [current];
          current := [];
        }
        continue;
      }
      current := current + [g[i]];
    }
    assert g[|g|..] == [];
    if |current| > 0 {
      result := result + [current];
    }
    if |result| == 0 {
      return [g];
    }
  }

  ghost function Moving(g: seq<Timed>): seq<Timed> {
    if g == [] then [] else (if ParkDominant(g[0].s) then [] else [g[0]]) + Moving(g[1..])
  }

  /** What a time group keeps: everything when it is all parked, else its clips that are not park-dominant. */
  ghost function KeptClips(g: seq<Timed>): seq<Timed> {
    if Moving(g) == [] then g else Moving(g)
  }

  lemma {:induction false} PiecesKeepMoving(g: seq<Timed>, current: seq<Timed>)
    ensures Flatten(Pieces(g, current)) == current + Moving(g)
    ensures forall k :: 0 <= k < |Pieces(g, current)| ==> Pieces(g, current)[k] != []
  {
    hide ParkDominant;
    var closed := if current == [] then [] else [current];
    FlattenOne(current);
    if g != [] {
      if ParkDominant(g[0].s) {
        PiecesKeepMoving(g[1..], []);
        FlattenConcat(closed, Pieces(g[1..], []));
      } else {
        PiecesKeepMoving(g[1..], current + [g[0]]);
        assert (current + [g[0]]) + Moving(g[1..]) == current + Moving(g);
      }
    }
  }

  /** How many park-dominant clips g starts with. */
  ghost function Lead(g: seq<Timed>): (n: nat)
    ensures n <= |g|
  {
    if g != [] && ParkDominant(g[0].s) then 1 + Lead(g[1..]) else 0
  }

  /** How many clips pass before the first park-dominant one. */
  ghost function Run(g: seq<Timed>): (n: nat)
    ensures n <= |g|
  {
    if g != [] && !ParkDominant(g[0].s) then 1 + Run(g[1..]) else 0
  }

  /** The pieces are the maximal runs between park-dominant clips: nothing else cuts them. */
  ghost predicate RunSplit(g: seq<Timed>, pieces: seq<seq<Timed>>)
    decreases |pieces|
  {
    var h := g[Lead(g)..];
    if pieces == [] then h == []
    else h != [] && pieces[0] == h[..Run(h)] && RunSplit(h[Run(h)..], pieces[1..])
  }

  lemma {:induction false} RunOfConcat(a: seq<Timed>, b: seq<Timed>)
    requires forall k :: 0 <= k < |a| ==> !ParkDominant(a[k].s)
    requires b == [] || ParkDominant(b[0].s)
    ensures Run(a + b) == |a| && (a != [] ==> Lead(a + b) == 0)
  {
    hide ParkDominant;
    if a == [] {
      assert a + b == b;
    } else {
      assert (a + b)[0] == a[0] && (a + b)[1..] == a[1..] + b;
      RunOfConcat(a[1..], b);
    }
  }

  lemma {:induction false} RunSplitFirst(a: seq<Timed>, b: seq<Timed>, pieces: seq<seq<Timed>>)
    requires a != [] && forall k :: 0 <= k < |a| ==> !ParkDominant(a[k].s)
    requires b == [] || ParkDominant(b[0].s)
    requires RunSplit(b, pieces)
    ensures RunSplit(a + b, [a] + pieces)
  {
    hide ParkDominant;
    RunOfConcat(a, b);
    var g := a + b;
    assert g[0..] == g && g[..|a|] == a && g[|a|..] == b;
    assert ([a] + pieces)[1..] == pieces;
  }

  lemma RunSplitAfterPark(g: seq<Timed>, pieces: seq<seq<Timed>>)
    requires g != [] && ParkDominant(g[0].s) && RunSplit(g[1..], pieces)
    ensures RunSplit(g, pieces)
  {
    hide ParkDominant;
    assert g[Lead(g)..] == g[1..][Lead(g[1..])..];
  }

  /** Cutting at parked clips yields the maximal runs. */
  lemma {:induction false} PiecesAreRuns(g: seq<Timed>, current: seq<Timed>)
    requires forall k :: 0 <= k < |current| ==> !ParkDominant(current[k].s)
    ensures RunSplit(current + g, Pieces(g, current))
    decreases |g|
  {
    hide ParkDominant, RunSplit;
    if g == [] || ParkDominant(g[0].s) {
      var rest := if g == [] then [] else Pieces(g[1..], []);
      assert RunSplit(g, rest) by {
        if g == [] {
          RunSplitNil();
        } else {
          PiecesAreRuns(g[1..], []);
          assert [] + g[1..] == g[1..];
          RunSplitAfterPark(g, rest);
        }
      }
      if current != [] {
        RunSplitFirst(current, g, rest);
        assert Pieces(g, current) == [current] + rest;
      } else {
        assert current + g == g;
        assert Pieces(g, current) == rest;
      }
    } else {
      PiecesAreRuns(g[1..], current + [g[0]]);
      assert current + [g[0]] + g[1..] == current + g;
    }
  }

  lemma RunSplitNil()
    ensures RunSplit([], [])
  {
  }

  /** The gear split keeps what a time group keeps, and its pieces are never empty. */
  lemma GearSplitKeeps(g: seq<Timed>)
    requires g != []
    ensures Flatten(GearSplit(g)) == KeptClips(g)
    ensures forall k :: 0 <= k < |GearSplit(g)| ==> GearSplit(g)[k] != []
  {
    hide ParkDominant, Pieces;
    PiecesKeepMoving(g, []);
    assert [] + Moving(g) == Moving(g);
    FlattenOne(g);
    if |g| == 1 {
      assert Moving(g[1..]) == [];
    }
    if Pieces(g, []) != [] {
      assert Pieces(g, [])[0] != [];
    }
  }

  // ----- the signature split ------------------------------------------------

  ghost function WithSig(g: seq<Timed>, sig: string): seq<Timed> {
    if g == [] then [] else
      WithSig(g[..|g| - 1], sig) + if g[|g| - 1].s.signature == sig then [g[|g| - 1]] else []
  }

  /** The signatures in order of first appearance. */
  ghost function Sigs(g: seq<Timed>): seq<string> {
    if g == [] then [] else
      var sigs, sig := Sigs(g[..|g| - 1]), g[|g| - 1].s.signature;
      if sig != "" && sig !in sigs then sigs + [sig] else sigs
  }

  ghost function Buckets(g: seq<Timed>, sigs: seq<string>): (b: seq<seq<Timed>>)
    ensures |b| == |sigs| && forall k :: 0 <= k < |sigs| ==> b[k] == WithSig(g, sigs[k])
  {
    seq(|sigs|, k requires 0 <= k < |sigs| => WithSig(g, sigs[k]))
  }

  ghost function SigSplit(g: seq<Timed>): seq<seq<Timed>> {
    (if WithSig(g, "") == [] then [] else [WithSig(g, "")]) + Buckets(g, Sigs(g))
  }

  lemma SnocSplit(g: seq<Timed>, x: Timed, sig: string)
    ensures WithSig(g + [x], sig) == WithSig(g, sig) + if x.s.signature == sig then [x] else []
    ensures Sigs(g + [x]) ==
            if x.s.signature != "" && x.s.signature !in Sigs(g) then Sigs(g) + [x.s.signature] else Sigs(g)
  {
    assert (g + [x])[..|g|] == g;
  }

  /** The first pass: clips without a signature, the signatures in order, and their buckets. */
  ghost predicate Bucketed(g: seq<Timed>, noSig: seq<Timed>, order: seq<string>, buckets: map<string, seq<Timed>>) {
    && noSig == WithSig(g, "") && order == Sigs(g)
    && forall sig :: (sig in buckets <==> sig in order) && (sig in buckets ==> buckets[sig] == WithSig(g, sig))
  }

  method SplitBySignature(g: seq<Timed>) returns (result: seq<seq<Timed>>)
    requires g != []
    ensures result == SigSplit(g)
  {
    hide WithSig, Sigs;
    var hasAny := false;
    for i := 0 to |g|
      invariant !hasAny ==> forall k :: 0 <= k < i ==> g[k].s.signature == ""
    {
      if g[i].s.signature != "" {
        hasAny := true;
      }
    }
    if |g| <= 1 || !hasAny {
      TrivialSplit(g);
      return [g];
    }
    var noSig, order, buckets := FillBuckets(g);
    result := [];
    if |noSig| > 0 {
      result := result + [noSig];
    }
    ghost var head := result;
    for k := 0 to |order|
      invariant result == head + Buckets(g, order)[..k]
    {
      assert Buckets(g, order)[..k + 1] == Buckets(g, order)[..k] + [buckets[order[k]]];
      result := result + [buckets[order[k]]];
    }
    assert Buckets(g, order)[..|order|] == Buckets(g, order);
  }

  lemma BucketedStep(g: seq<Timed>, c: Timed, noSig: seq<Timed>, order: seq<string>, buckets: map<string, seq<Timed>>)
    requires Bucketed(g, noSig, order, buckets)
    ensures var sig := c.s.signature;
            if sig == "" then Bucketed(g + [c], noSig + [c], order, buckets)
            else if sig !in buckets then Bucketed(g + [c], noSig, order + [sig], buckets[sig := [c]])
            else Bucketed(g + [c], noSig, order, buckets[sig := buckets[sig] + [c]])
  {
    hide WithSig, Sigs;
    SigsMeaning(g);
    forall t {
      SnocSplit(g, c, t);
    }
    var sig := c.s.signature;
    if sig != "" && sig !in buckets {
      assert WithSig(g, sig) == [];
    }
  }

  method FillBuckets(g: seq<Timed>) returns (noSig: seq<Timed>, order: seq<string>, buckets: map<string, seq<Timed>>)
    ensures Bucketed(g, noSig, order, buckets)
  {
    noSig, order, buckets := [], [], map[];
    for i := 0 to |g|
      invariant Bucketed(g[..i], noSig, order, buckets)
    {
      hide Bucketed;
      var c := g[i];
      var sig := c.s.signature;
      assert g[..i + 1] == g[..i] + [c];
      BucketedStep(g[..i], c, noSig, order, buckets);
      if sig == "" {
        noSig := noSig + [c];
      } else if sig !in buckets {
        order := order + [sig];
        buckets := buckets[sig := [c]];
      } else {
        buckets := buckets[sig := buckets[sig] + [c]];
      }
    }
    assert g[..|g|] == g;
  }

  /** A signature is listed exactly when some clip carries it, once, and never the empty one. */
  lemma {:induction false} SigsMeaning(g: seq<Timed>)
    ensures "" !in Sigs(g)
    ensures forall sig :: sig != "" ==> (sig in Sigs(g) <==> WithSig(g, sig) != [])
    ensures forall i, j :: 0 <= i < j < |Sigs(g)| ==> Sigs(g)[i] != Sigs(g)[j]
  {
    if g != [] {
      SigsMeaning(g[..|g| - 1]);
    }
  }

  lemma {:induction false} NoSigs(g: seq<Timed>)
    requires forall k :: 0 <= k < |g| ==> g[k].s.signature == ""
    ensures WithSig(g, "") == g && Sigs(g) == []
  {
    if g != [] {
      NoSigs(g[..|g| - 1]);
    }
  }

  lemma TrivialSplit(g: seq<Timed>)
    requires g != [] && (|g| == 1 || forall k :: 0 <= k < |g| ==> g[k].s.signature == "")
    ensures SigSplit(g) == [g]
  {
    hide WithSig, Sigs;
    if g[0].s.signature == "" {
      NoSigs(g);
    } else {
      SingleSig(g[0]);
      assert g == [g[0]];
    }
  }

  lemma SingleSig(c: Timed)
    requires c.s.signature != ""
    ensures SigSplit([c]) == [[c]]
  {
    var sig := c.s.signature;
    SnocSplit([], c, sig);
    SnocSplit([], c, "");
    assert [] + [c] == [c];
    hide WithSig, Sigs;
    assert Buckets([c], [sig]) == [[c]];
  }

  /** Bucketing loses and repeats nothing. */
  lemma {:induction false} SigSplitKeeps(g: seq<Timed>)
    ensures multiset(Flatten(SigSplit(g))) == multiset(g)
  {
    var noSig := WithSig(g, "");
    FlattenConcat(if noSig == [] then [] else [noSig], Buckets(g, Sigs(g)));
    FlattenOne(noSig);
    BucketsKeep(g);
  }

  lemma {:induction false} BucketsKeep(g: seq<Timed>)
    ensures multiset(WithSig(g, "")) + multiset(Flatten(Buckets(g, Sigs(g)))) == multiset(g)
  {
    if g == [] {
      assert Buckets(g, Sigs(g)) == [];
    } else {
      hide WithSig, Sigs, Flatten, Buckets;
      var front, x := g[..|g| - 1], g[|g| - 1];
      assert g == front + [x];
      BucketsKeep(front);
      BucketsStep(front, x);
    }
  }

  lemma {:induction false} BucketsStep(g: seq<Timed>, x: Timed)
    ensures multiset(WithSig(g + [x], "")) + multiset(Flatten(Buckets(g + [x], Sigs(g + [x])))) ==
            multiset(WithSig(g, "")) + multiset(Flatten(Buckets(g, Sigs(g)))) + multiset{x}
  {
    hide WithSig, Sigs, Flatten, Buckets;
    var sig := x.s.signature;
    SigsMeaning(g);
    BucketGrows(g, x, Sigs(g));
    SnocSplit(g, x, "");
    if sig != "" && sig !in Sigs(g) {
      SnocSplit(g, x, sig);
      assert WithSig(g + [x], sig) == [x];
      NewBucket(g + [x], Sigs(g), sig);
    }
  }

  lemma NewBucket(g: seq<Timed>, sigs: seq<string>, sig: string)
    ensures Flatten(Buckets(g, sigs + [sig])) == Flatten(Buckets(g, sigs)) + WithSig(g, sig)
  {
    hide WithSig;
    assert Buckets(g, sigs + [sig]) == Buckets(g, sigs) + [WithSig(g, sig)];
    FlattenConcat(Buckets(g, sigs), [WithSig(g, sig)]);
    FlattenOne(WithSig(g, sig));
  }

  lemma {:induction false} BucketGrows(g: seq<Timed>, x: Timed, sigs: seq<string>)
    requires forall i, j :: 0 <= i < j < |sigs| ==> sigs[i] != sigs[j]
    ensures multiset(Flatten(Buckets(g + [x], sigs))) ==
            multiset(Flatten(Buckets(g, sigs))) + if x.s.signature in sigs then multiset{x} else multiset{}
    decreases |sigs|
  {
    if sigs != [] {
      assert (g + [x])[..|g|] == g;
      assert Buckets(g + [x], sigs)[1..] == Buckets(g + [x], sigs[1..]);
      assert Buckets(g, sigs)[1..] == Buckets(g, sigs[1..]);
      BucketGrows(g, x, sigs[1..]);
      assert x.s.signature in sigs <==> x.s.signature == sigs[0] || x.s.signature in sigs[1..];
    }
  }

  lemma {:induction false} WithSigOrdered(g: seq<Timed>, sig: string)
    requires Ordered(g)
    ensures Ordered(WithSig(g, sig))
    ensures forall k :: 0 <= k < |WithSig(g, sig)| ==> WithSig(g, sig)[k] in g && WithSig(g, sig)[k].s.signature == sig
  {
    if g != [] {
      WithSigOrdered(g[..|g| - 1], sig);
    }
  }

  /** Every bucket is a drive: not empty, in time order, one signature throughout. */
  lemma SigSplitShape(g: seq<Timed>, k: nat)
    requires Ordered(g) && k < |SigSplit(g)|
    ensures SigSplit(g)[k] != [] && Ordered(SigSplit(g)[k])
    ensures forall i :: 0 <= i < |SigSplit(g)[k]| ==> SigSplit(g)[k][i].s.signature == SigSplit(g)[k][0].s.signature
  {
    SigsMeaning(g);
    var head := if WithSig(g, "") == [] then [] else [WithSig(g, "")];
    var sig := if k < |head| then "" else Sigs(g)[k - |head|];
    assert SigSplit(g)[k] == WithSig(g, sig);
    WithSigOrdered(g, sig);
    if k >= |head| {
      assert sig in Sigs(g);
    }
  }
}
