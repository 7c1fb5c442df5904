/** How cached clip rows are grouped into drives (server/drives/grouper_summaries.go). */
module Grouping {
  import opened DriveTypes
  import opened Aggregate

  datatype Summary = Summary(
    file: string, date: string, rawPark: int, rawFrames: int, gearRuns: seq<GearRun>,
    source: string, signature: string, row: RouteAggregates)

  /** parseFileTimestamp in milliseconds, None for the zero time; slash direction does not matter to it. */
  type Clock = f: string -> Option<int> | forall s :: f(s) == f(Normalize(s)) witness (s: string) => None

  /** A row with its timestamp. */
  datatype Stamped<T> = At(s: T, ts: int)
  type Timed = Stamped<Summary>

  const DRIVE_GAP_MS := 300000

  ghost function Flatten<T>(groups: seq<seq<T>>): seq<T> {
    if groups == [] then [] else groups[0] + Flatten(groups[1..])
  }

  lemma {:induction false} FlattenConcat<T>(a: seq<seq<T>>, b: seq<seq<T>>)
    ensures Flatten(a + b) == Flatten(a) + Flatten(b)
  {
    if a == [] {
      assert a + b == b;
    } else {
      assert (a + b)[0] == a[0] && (a + b)[1..] == a[1..] + b;
      FlattenConcat(a[1..], b);
    }
  }

  lemma FlattenOne<T>(g: seq<T>)
    ensures Flatten([g]) == g
  {
    assert ([g])[1..] == [];
  }

  // ----- deduplication and timestamps ---------------------------------------
  // Rows and raw clips are chosen by the same code; `name` gives the file of either.

  function RowFile(s: Summary): string { s.file }

  ghost function Norms<T>(name: T -> string, s: seq<T>): set<string> {
    set i | 0 <= i < |s| :: Normalize(name(s[i]))
  }

  /** The first element of every normalised path, in order. */
  ghost function FirstRows<T>(name: T -> string, s: seq<T>, k: nat): seq<T>
    requires k <= |s|
  {
    if k == 0 then []
    else if Normalize(name(s[k - 1])) in Norms(name, s[..k - 1]) then FirstRows(name, s, k - 1)
    else FirstRows(name, s, k - 1) + [s[k - 1]]
  }

  ghost function WithTime<T>(name: T -> string, clock: Clock, s: seq<T>): seq<Stamped<T>> {
    if s == [] then [] else
      var front, last := WithTime(name, clock, s[..|s| - 1]), s[|s| - 1];
      match clock(name(last)) case None => front case Some(t) => front + [At(last, t)]
  }

  /** What takes part: deduplicated, with a readable timestamp. */
  ghost function Chosen<T>(name: T -> string, clock: Clock, s: seq<T>): seq<Stamped<T>> {
    WithTime(name, clock, FirstRows(name, s, |s|))
  }

  ghost function Candidates(clock: Clock, s: seq<Summary>): seq<Timed> { Chosen(RowFile, clock, s) }

  method Deduplicate<T>(name: T -> string, s: seq<T>) returns (unique: seq<T>)
    ensures unique == FirstRows(name, s, |s|)
  {
    var seen := {};
    unique := [];
    for k := 0 to |s|
      invariant seen == Norms(name, s[..k]) && unique == FirstRows(name, s, k)
    {
      var norm := Normalize(name(s[k]));
      NormsGrow(name, s, k);
      if norm !in seen {
        seen := seen + {norm};
        unique := unique + [s[k]];
      }
    }
  }

  lemma NormsGrow<T>(name: T -> string, s: seq<T>, k: nat)
    requires k < |s|
    ensures Norms(name, s[..k + 1]) == Norms(name, s[..k]) + {Normalize(name(s[k]))}
  {
    hide Normalize;
    assert s[..k + 1] == s[..k] + [s[k]];
    forall x | x in Norms(name, s[..k + 1])
      ensures x in Norms(name, s[..k]) || x == Normalize(name(s[k]))
    {
      var i :| 0 <= i < k + 1 && x == Normalize(name(s[..k + 1][i]));
      if i < k {
        assert s[..k][i] == s[..k + 1][i];
      }
    }
    forall x | x in Norms(name, s[..k])
      ensures x in Norms(name, s[..k + 1])
    {
      var i :| 0 <= i < k && x == Normalize(name(s[..k][i]));
      assert s[..k + 1][i] == s[..k][i];
    }
    assert s[..k + 1][k] == s[k];
  }

  method ReadTimes<T>(name: T -> string, clock: Clock, s: seq<T>) returns (timed: seq<Stamped<T>>)
    ensures timed == WithTime(name, clock, s)
  {
    timed := [];
    for k := 0 to |s|
      invariant timed == WithTime(name, clock, s[..k])
    {
      assert s[..k + 1][..k] == s[..k];
      var t := clock(name(s[k]));
      if t.Some? {
        timed := timed + [At(s[k], t.value)];
      }
    }
    assert s[..|s|] == s;
  }

  // ----- sort.Slice ---------------------------------------------------------

  ghost predicate Ordered<T>(s: seq<Stamped<T>>) {
    forall i, j :: 0 <= i < j < |s| ==> s[i].ts <= s[j].ts
  }

  ghost predicate SortedFrom<T>(sorted: seq<Stamped<T>>, s: seq<Stamped<T>>) {
    Ordered(sorted) && multiset(sorted) == multiset(s)
  }

  /** The contract of the library sort: some ordered permutation, not necessarily a stable one.
      Nothing below uses more than this contract. */
  method SortByTime<T>(timed: seq<Stamped<T>>) returns (sorted: seq<Stamped<T>>)
    ensures SortedFrom(sorted, timed)
  {
    sorted := [];
    for k := 0 to |timed|
      invariant SortedFrom(sorted, timed[..k])
    {
      assert timed[..k + 1] == timed[..k] + [timed[k]];
      sorted := Insert(sorted, timed[k]);
    }
    assert timed[..|timed|] == timed;
  }

  method Insert<T>(s: seq<Stamped<T>>, x: Stamped<T>) returns (r: seq<Stamped<T>>)
    requires Ordered(s)
    ensures Ordered(r) && multiset(r) == multiset(s) + multiset{x}
  {
    var k := |s|;
    while k > 0 && s[k - 1].ts > x.ts
      invariant 0 <= k <= |s| && forall i :: k <= i < |s| ==> x.ts < s[i].ts
    {
      k := k - 1;
    }
    r := s[..k] + [x] + s[k..];
    InsertedOrdered(s, x, k);
    InsertedBag(s, x, k);
  }

  lemma InsertedBag<T>(s: seq<Stamped<T>>, x: Stamped<T>, k: nat)
    requires k <= |s|
    ensures multiset(s[..k] + [x] + s[k..]) == multiset(s) + multiset{x}
  {
    assert s == s[..k] + s[k..];
  }

  lemma InsertedOrdered<T>(s: seq<Stamped<T>>, x: Stamped<T>, k: nat)
    requires Ordered(s) && k <= |s|
    requires k > 0 ==> s[k - 1].ts <= x.ts
    requires forall i :: k <= i < |s| ==> x.ts < s[i].ts
    ensures Ordered(s[..k] + [x] + s[k..])
  {
    var r := s[..k] + [x] + s[k..];
    forall i, j | 0 <= i < j < |r|
      ensures r[i].ts <= r[j].ts
    {
      assert r[i] == if i < k then s[i] else if i == k then x else s[i - 1];
      assert r[j] == if j < k then s[j] else if j == k then x else s[j - 1];
    }
  }

  // ----- bags ---------------------------------------------------------------

  lemma BagWithout<T>(b: seq<T>, i: nat)
    requires i < |b|
    ensures multiset(b) == multiset(b[..i] + b[i + 1..]) + multiset{b[i]}
  {
    assert b == b[..i] + [b[i]] + b[i + 1..];
  }

  lemma Cancel<T>(a: multiset<T>, b: multiset<T>, x: T)
    requires a + multiset{x} == b + multiset{x}
    ensures a == b
  {
    assert a == (a + multiset{x}) - multiset{x};
    assert b == (b + multiset{x}) - multiset{x};
  }

  // ----- time groups --------------------------------------------------------

  /** Consecutive clips of a group are at most five minutes apart. */
  ghost predicate Tight<T>(g: seq<Stamped<T>>) {
    g != [] && forall i :: 0 < i < |g| ==> g[i].ts - g[i - 1].ts <= DRIVE_GAP_MS
  }

  /** The groups are tight, and more than five minutes lie between one and the next. */
  ghost predicate Apart<T>(groups: seq<seq<Stamped<T>>>) {
    && (forall k :: 0 <= k < |groups| ==> Tight(groups[k]))
    && (forall k :: 0 < k < |groups| ==> groups[k][0].ts - groups[k - 1][|groups[k - 1]| - 1].ts > DRIVE_GAP_MS)
  }

  ghost predicate TimeSplit<T>(timed: seq<Stamped<T>>, groups: seq<seq<Stamped<T>>>) {
    Apart(groups) && Flatten(groups) == timed
  }

  method SplitByTime<T>(timed: seq<Stamped<T>>) returns (groups: seq<seq<Stamped<T>>>)
    requires timed != []
    ensures TimeSplit(timed, groups)
  {
    groups := [];
    var current := [timed[0]];
    assert timed[..1] == Flatten<Stamped<T>>([]) + current;
    for i := 1 to |timed|
      invariant Tight(current) && current[|current| - 1] == timed[i - 1]
      invariant Apart(groups + [current])
      invariant Flatten(groups) + current == timed[..i]
    {
      hide Apart, Tight, Flatten;
      assert timed[..i + 1] == timed[..i] + [timed[i]];
      var gap := timed[i].ts - current[|current| - 1].ts;
      if gap > DRIVE_GAP_MS {
        FlattenConcat(groups, [current]);
        FlattenOne(current);
        StartGroup(groups, current, timed[i]);
        groups := groups + [current];
        current := [timed[i]];
      } else {
        assert Flatten(groups) + (current + [timed[i]]) == Flatten(groups) + current + [timed[i]];
        ExtendLast(groups, current, timed[i]);
        current := current + [timed[i]];
      }
    }
    assert timed[..|timed|] == timed;
    FlattenConcat(groups, [current]);
    FlattenOne(current);
    groups := groups + [current];
  }

  lemma StartGroup<T>(groups: seq<seq<Stamped<T>>>, current: seq<Stamped<T>>, x: Stamped<T>)
    requires current != [] && Apart(groups + [current]) && x.ts - current[|current| - 1].ts > DRIVE_GAP_MS
    ensures Apart(groups + [current] + [[x]]) && Tight([x])
  {
    var old', new' := groups + [current], groups + [current] + [[x]];
    assert forall k :: 0 <= k < |old'| ==> new'[k] == old'[k];
    assert new'[|old'|] == [x] && new'[|old'| - 1] == current;
  }

  lemma ExtendLast<T>(groups: seq<seq<Stamped<T>>>, current: seq<Stamped<T>>, x: Stamped<T>)
    requires current != [] && Apart(groups + [current]) && x.ts - current[|current| - 1].ts <= DRIVE_GAP_MS
    ensures Apart(groups + [current + [x]]) && Tight(current + [x])
  {
    var old', new' := groups + [current], groups + [current + [x]];
    assert old'[|groups|] == current;
    assert Tight(current);
    assert forall k :: 0 <= k < |groups| ==> new'[k] == old'[k];
  }

  /** There is only one such split. */
  lemma {:induction false} TimeSplitIsUnique<T>(timed: seq<Stamped<T>>, a: seq<seq<Stamped<T>>>,
        b: seq<seq<Stamped<T>>>)
    requires TimeSplit(timed, a) && TimeSplit(timed, b)
    ensures a == b
  {
    if a == [] || b == [] {
      assert a == [] == b;
    } else {
      if |a[0]| < |b[0]| {
        InnerGap(timed, b, |a[0]|);
        BoundaryGap(timed, a);
      } else if |b[0]| < |a[0]| {
        InnerGap(timed, a, |b[0]|);
        BoundaryGap(timed, b);
      }
      assert a[0] == timed[..|a[0]|] == b[0];
      assert Flatten(a[1..]) == timed[|a[0]|..] == Flatten(b[1..]);
      ApartTail(a);
      ApartTail(b);
      TimeSplitIsUnique(timed[|a[0]|..], a[1..], b[1..]);
      assert a == [a[0]] + a[1..] && b == [b[0]] + b[1..];
    }
  }

  lemma ApartTail<T>(a: seq<seq<Stamped<T>>>)
    requires Apart(a) && a != []
    ensures Apart(a[1..])
  {
    var t: seq<seq<Stamped<T>>> := a[1..];
    forall k | 0 < k < |t|
      ensures t[k][0].ts - t[k - 1][|t[k - 1]| - 1].ts > DRIVE_GAP_MS
    {
      assert t[k] == a[k + 1] && t[k - 1] == a[k];
    }
  }

  lemma BoundaryGap<T>(timed: seq<Stamped<T>>, a: seq<seq<Stamped<T>>>)
    requires TimeSplit(timed, a) && a != [] && |a[0]| < |timed|
    ensures timed[|a[0]|].ts - timed[|a[0]| - 1].ts > DRIVE_GAP_MS
  {
    var n := |a[0]|;
    assert timed[..n] == a[0] && timed[n..] == Flatten(a[1..]);
    assert timed[n - 1] == a[0][n - 1];
    assert a[1..][0] == a[1];
    assert timed[n] == timed[n..][0] == a[1][0];
  }

  lemma InnerGap<T>(timed: seq<Stamped<T>>, b: seq<seq<Stamped<T>>>, i: nat)
    requires TimeSplit(timed, b) && b != [] && 0 < i < |b[0]|
    ensures |b[0]| <= |timed| && timed[i].ts - timed[i - 1].ts <= DRIVE_GAP_MS
  {
    assert timed[i] == b[0][i] && timed[i - 1] == b[0][i - 1];
  }
}
