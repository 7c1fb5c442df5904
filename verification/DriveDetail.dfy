/** The detail view of a drive, built from the files of its clips (BuildDriveFromFiles in
    server/drives/grouper.go), against the entry of the drive list. */
module DriveDetail {
  import opened DriveTypes
  import opened Grouping
  import opened Drives

  /** What identifies a drive: its tags hang on the start time. */
  datatype Header = Header(start: int, end: int, clipCount: nat)

  /** The list entry of a drive. */
  ghost function ListHeader(g: seq<Timed>): Header
    requires g != []
  {
    Header(g[0].ts, g[|g| - 1].ts + CLIP_MS, |g|)
  }

  ghost function ClipFiles(g: seq<Timed>): set<string> {
    set i | 0 <= i < |g| :: Normalize(g[i].s.file)
  }

  method DriveClipFiles(g: seq<Timed>) returns (files: set<string>)
    ensures files == ClipFiles(g)
  {
    files := {};
    for i := 0 to |g|
      invariant files == ClipFiles(g[..i])
    {
      hide Normalize;
      files := files + {Normalize(g[i].s.file)};
      assert g[..i + 1] == g[..i] + [g[i]];
      assert g[..i + 1][i] == g[i];
      FilesGrow(g, i);
    }
    assert g[..|g|] == g;
  }

  lemma FilesGrow(g: seq<Timed>, k: nat)
    requires k < |g|
    ensures ClipFiles(g[..k + 1]) == ClipFiles(g[..k]) + {Normalize(g[k].s.file)}
  {
    hide Normalize;
    var a, b := g[..k], g[..k + 1];
    assert forall i :: 0 <= i < k ==> a[i] == b[i];
    assert b[k] == g[k];
  }

  /** The rows of the drive's files, with their times. */
  ghost function Matched(clock: Clock, routes: seq<Route>, files: set<string>): seq<Stamped<Route>> {
    if routes == [] then [] else
      var front, r := Matched(clock, routes[..|routes| - 1], files), routes[|routes| - 1];
      if Normalize(r.file) in files && clock(r.file).Some? then front + [At(r, clock(r.file).value)] else front
  }

  /** None is the answer `not found`.  The sort is any ordered permutation, so the result is pinned by its ends. */
  method BuildDriveFromFiles(clock: Clock, routes: seq<Route>, files: set<string>) returns (d: Option<Header>)
    ensures d == Option.None <==> Matched(clock, routes, files) == []
    ensures d.Some? ==> IsSpan(Matched(clock, routes, files), d.value)
  {
    hide Normalize;
    var timed := [];
    for k := 0 to |routes|
      invariant timed == Matched(clock, routes[..k], files)
    {
      assert routes[..k + 1][..k] == routes[..k];
      var r := routes[k];
      if Normalize(r.file) in files {
        var t := clock(r.file);
        if t.Some? {
          timed := timed + [At(r, t.value)];
        }
      }
    }
    assert routes[..|routes|] == routes;
    if |timed| == 0 {
      return None;
    }
    var sorted := SortByTime(timed);
    SortedSpan(sorted, timed);
    return Some(Header(sorted[0].ts, sorted[|sorted| - 1].ts + CLIP_MS, |sorted|));
  }

  /** The header of a set of rows: earliest start, latest end, their number. */
  ghost predicate IsSpan<T>(s: seq<Stamped<T>>, h: Header) {
    && h.clipCount == |s|
    && (forall i :: 0 <= i < |s| ==> h.start <= s[i].ts <= h.end - CLIP_MS)
    && (exists i :: 0 <= i < |s| && s[i].ts == h.start)
    && (exists i :: 0 <= i < |s| && s[i].ts == h.end - CLIP_MS)
  }

  lemma SortedSpan<T>(sorted: seq<Stamped<T>>, s: seq<Stamped<T>>)
    requires SortedFrom(sorted, s) && s != []
    ensures sorted != [] && IsSpan(s, Header(sorted[0].ts, sorted[|sorted| - 1].ts + CLIP_MS, |sorted|))
  {
    assert |multiset(sorted)| == |multiset(s)|;
    forall x
      ensures x in s <==> x in sorted
    {
      assert x in s <==> x in multiset(s);
      assert x in sorted <==> x in multiset(sorted);
    }
    assert sorted[0] in s && sorted[|sorted| - 1] in s;
    forall i | 0 <= i < |s|
      ensures sorted[0].ts <= s[i].ts <= sorted[|sorted| - 1].ts
    {
      assert s[i] in sorted;
    }
  }

  lemma {:induction false} MatchedMembers(clock: Clock, routes: seq<Route>, files: set<string>, c: Stamped<Route>)
    ensures c in Matched(clock, routes, files) <==>
            c.s in routes && Normalize(c.s.file) in files && clock(c.s.file) == Some(c.ts)
  {
    hide Normalize;
    if routes != [] {
      var front, r := routes[..|routes| - 1], routes[|routes| - 1];
      assert routes == front + [r];
      MatchedMembers(clock, front, files, c);
    }
  }

  // ----- agreement ----------------------------------------------------------

  /** A drive as the list view has it. */
  ghost predicate ListedDrive(clock: Clock, summaries: seq<Summary>, g: seq<Timed>) {
    && g != [] && Ordered(g) && Distinct(g)
    && forall c :: c in g ==> c.s in summaries && clock(c.s.file) == Some(c.ts)
  }

  /** One database snapshot: both views read rows of the same files. */
  ghost predicate SameFiles(summaries: seq<Summary>, routes: seq<Route>) {
    SummaryFiles(summaries) == RouteFiles(routes)
  }

  ghost function SummaryFiles(summaries: seq<Summary>): set<string> {
    set i | 0 <= i < |summaries| :: summaries[i].file
  }

  ghost function RouteFiles(routes: seq<Route>): set<string> {
    set i | 0 <= i < |routes| :: routes[i].file
  }

  predicate SamePath(a: Route, b: Route) { Normalize(a.file) == Normalize(b.file) }

  /** Some path of the drive belongs to two rows (with different slashes). */
  ghost predicate Repeats(routes: seq<Route>, files: set<string>) {
    exists i, j :: 0 <= i < j < |routes| && SamePath(routes[i], routes[j]) && Normalize(routes[j].file) in files
  }

  lemma {:induction false} DrivesAreListed(clock: Clock, summaries: seq<Summary>, timed: seq<Timed>,
        timeGroups: seq<seq<Timed>>, drives: seq<seq<Timed>>, k: nat)
    requires Grouped(clock, summaries, timed, timeGroups, drives) && k < |drives|
    ensures ListedDrive(clock, summaries, drives[k])
  {
    hide AllDrives, AllKept, Ordered, TimeSplit, FirstRows, WithTime;
    var g := drives[k];
    DrivesAreCanonical(clock, summaries, timed, timeGroups, drives);
    PartDistinct(drives, k);
    forall c | c in g
      ensures c.s in summaries && clock(c.s.file) == Some(c.ts)
    {
      InFlatten(drives, k, c);
      assert c in multiset(Flatten(drives));
      KeptWithin(timeGroups);
      assert Flatten(timeGroups) == timed by { FlattenIs(timed, timeGroups); }
      assert c in multiset(timed) && c in multiset(Candidates(clock, summaries));
      WithTimeMembers(clock, FirstRows(RowFile, summaries, |summaries|), c);
      FirstRowsFrom(summaries, |summaries|, c.s);
    }
  }

  lemma FlattenIs(timed: seq<Timed>, timeGroups: seq<seq<Timed>>)
    requires TimeSplit(timed, timeGroups)
    ensures Flatten(timeGroups) == timed
  {
  }

  lemma {:induction false} FirstRowsFrom(s: seq<Summary>, k: nat, x: Summary)
    requires k <= |s|
    ensures x in FirstRows(RowFile, s, k) ==> x in s
  {
    hide Norms, Normalize;
    if k > 0 {
      FirstRowsFrom(s, k - 1, x);
    }
  }

  lemma {:induction false} PartDistinct(groups: seq<seq<Timed>>, k: nat)
    requires Distinct(Flatten(groups)) && k < |groups|
    ensures Distinct(groups[k])
  {
    hide Normalize;
    var head, rest := groups[0], Flatten(groups[1..]);
    assert forall i :: 0 <= i < |head| ==> Flatten(groups)[i] == head[i];
    assert forall i :: 0 <= i < |rest| ==> Flatten(groups)[|head| + i] == rest[i];
    if k > 0 {
      PartDistinct(groups[1..], k - 1);
    }
  }

  /** A matched row shares the timestamp of the clip with its path. */
  lemma {:induction false} MatchedHasClip(clock: Clock, summaries: seq<Summary>, routes: seq<Route>, g: seq<Timed>,
        r: Route)
    requires ListedDrive(clock, summaries, g) && Normalize(r.file) in ClipFiles(g)
    ensures exists i :: 0 <= i < |g| && clock(r.file) == Some(g[i].ts) && Normalize(g[i].s.file) == Normalize(r.file)
  {
    hide Normalize, Ordered, Distinct;
    var i :| 0 <= i < |g| && Normalize(g[i].s.file) == Normalize(r.file);
    assert g[i] in g;
    assert clock(r.file) == clock(Normalize(r.file)) == clock(g[i].s.file);
  }

  lemma InFiles(g: seq<Timed>, i: nat)
    requires i < |g|
    ensures Normalize(g[i].s.file) in ClipFiles(g)
  {
  }

  lemma SnapshotRow(summaries: seq<Summary>, routes: seq<Route>, s: Summary) returns (r: Route)
    requires SameFiles(summaries, routes) && s in summaries
    ensures r in routes && r.file == s.file
  {
    var i :| 0 <= i < |summaries| && summaries[i] == s;
    assert summaries[i].file in SummaryFiles(summaries);
    var j :| 0 <= j < |routes| && routes[j].file == s.file;
    r := routes[j];
  }

  /** Every clip of the drive is matched by some row of the snapshot. */
  lemma {:induction false} ClipIsMatched(clock: Clock, summaries: seq<Summary>, routes: seq<Route>, g: seq<Timed>,
        i: nat) returns (r: Route)
    requires ListedDrive(clock, summaries, g) && SameFiles(summaries, routes) && i < |g|
    ensures Normalize(r.file) == Normalize(g[i].s.file) && At(r, g[i].ts) in Matched(clock, routes, ClipFiles(g))
  {
    hide Normalize, Ordered, Distinct, ClipFiles, SameFiles, Matched;
    assert g[i] in g;
    r := SnapshotRow(summaries, routes, g[i].s);
    InFiles(g, i);
    MatchedMembers(clock, routes, ClipFiles(g), At(r, g[i].ts));
  }

  ghost function Names(m: seq<Stamped<Route>>): (q: seq<string>)
    ensures |q| == |m| && forall i :: 0 <= i < |m| ==> q[i] == Normalize(m[i].s.file)
  {
    seq(|m|, i requires 0 <= i < |m| => Normalize(m[i].s.file))
  }

  ghost predicate NoDup(q: seq<string>) {
    forall i, j :: 0 <= i < j < |q| ==> q[i] != q[j]
  }

  lemma {:induction false} SetSize(q: seq<string>)
    ensures |set x | x in q| <= |q| && (|set x | x in q| == |q| <==> NoDup(q))
  {
    if q != [] {
      var front, last := q[..|q| - 1], q[|q| - 1];
      assert q == front + [last];
      SetSize(front);
      var f := set x | x in front;
      assert (set x | x in q) == f + {last};
      if last in front {
        assert f + {last} == f;
        var i :| 0 <= i < |front| && front[i] == last;
        assert q[i] == q[|q| - 1];
      } else {
        NoDupSnoc(front, last);
      }
    }
  }

  lemma NoDupSnoc(q: seq<string>, x: string)
    ensures NoDup(q + [x]) <==> NoDup(q) && x !in q
  {
    var r := q + [x];
    assert forall i :: 0 <= i < |q| ==> r[i] == q[i];
    if NoDup(q) && x !in q {
      assert NoDup(r);
    }
    if NoDup(r) {
      assert forall i :: 0 <= i < |q| ==> r[i] != r[|q|];
    }
  }

  lemma {:induction false} NamesOfMatched(clock: Clock, routes: seq<Route>, files: set<string>)
    requires forall r :: r in routes && Normalize(r.file) in files ==> clock(r.file).Some?
    ensures NoDup(Names(Matched(clock, routes, files))) <==> !Repeats(routes, files)
  {
    hide Normalize, NoDup, Repeats;
    if routes == [] {
      EmptyNoDup();
      NoRepeats(files);
    } else {
      var front, r := routes[..|routes| - 1], routes[|routes| - 1];
      assert routes == front + [r];
      NamesOfMatched(clock, front, files);
      RepeatsSnoc(front, r, files);
      var m := Matched(clock, front, files);
      if Normalize(r.file) in files {
        NoDupSnoc(Names(m), Normalize(r.file));
        NamesSnoc(m, At(r, clock(r.file).value));
        NameMatched(clock, front, files, Normalize(r.file));
      }
    }
  }

  lemma NoRepeats(files: set<string>)
    ensures !Repeats([], files)
  {
  }

  lemma NamesSnoc(m: seq<Stamped<Route>>, c: Stamped<Route>)
    ensures Names(m + [c]) == Names(m) + [Normalize(c.s.file)]
  {
    hide Normalize;
  }

  lemma EmptyNoDup()
    ensures NoDup([])
  {
  }

  lemma {:induction false} NameMatched(clock: Clock, routes: seq<Route>, files: set<string>, n: string)
    requires n in files
    requires forall r :: r in routes && Normalize(r.file) in files ==> clock(r.file).Some?
    ensures n in Names(Matched(clock, routes, files)) <==>
            exists i :: 0 <= i < |routes| && Normalize(routes[i].file) == n
  {
    hide Normalize, Matched;
    var m := Matched(clock, routes, files);
    if n in Names(m) {
      var i :| 0 <= i < |m| && Names(m)[i] == n;
      MatchedMembers(clock, routes, files, m[i]);
    }
    if i :| 0 <= i < |routes| && Normalize(routes[i].file) == n {
      assert routes[i] in routes;
      var c := At(routes[i], clock(routes[i].file).value);
      MatchedMembers(clock, routes, files, c);
      NameOf(m, c);
    }
  }

  lemma RepeatsSnoc(routes: seq<Route>, r: Route, files: set<string>)
    ensures Repeats(routes + [r], files) <==>
            Repeats(routes, files)
            || (Normalize(r.file) in files && exists i :: 0 <= i < |routes| && SamePath(routes[i], r))
  {
    hide Normalize;
    var all := routes + [r];
    assert forall i :: 0 <= i < |routes| ==> all[i] == routes[i];
    assert all[|routes|] == r;
    if Repeats(routes, files) {
      var i, j :| 0 <= i < j < |routes| && SamePath(routes[i], routes[j]) && Normalize(routes[j].file) in files;
      assert SamePath(all[i], all[j]);
    }
    if i :| 0 <= i < |routes| && Normalize(routes[i].file) == Normalize(r.file) && Normalize(r.file) in files {
      assert SamePath(all[i], all[|routes|]);
    }
  }

  /** The detail view has the start and end of the list entry, so it finds the same tags; it has the same
      clip count exactly when no path of the drive belongs to two rows of the snapshot. */
  lemma {:induction false} ListAndDetailAgree(clock: Clock, summaries: seq<Summary>, routes: seq<Route>,
        g: seq<Timed>, h: Header)
    requires ListedDrive(clock, summaries, g) && SameFiles(summaries, routes)
    requires IsSpan(Matched(clock, routes, ClipFiles(g)), h)
    ensures h.start == ListHeader(g).start && h.end == ListHeader(g).end
    ensures h.clipCount == ListHeader(g).clipCount <==> !Repeats(routes, ClipFiles(g))
  {
    hide Normalize, Distinct, SameFiles, Matched, Repeats, ClipFiles;
    SpanTimes(clock, summaries, routes, g, h);
    CountsCompare(clock, summaries, routes, g);
  }

  lemma DetailIsFound(clock: Clock, summaries: seq<Summary>, routes: seq<Route>, g: seq<Timed>)
    requires ListedDrive(clock, summaries, g) && SameFiles(summaries, routes)
    ensures Matched(clock, routes, ClipFiles(g)) != []
  {
    hide Normalize, Distinct, SameFiles, Matched, ClipFiles;
    var r := ClipIsMatched(clock, summaries, routes, g, 0);
  }

  lemma {:induction false} SpanTimes(clock: Clock, summaries: seq<Summary>, routes: seq<Route>, g: seq<Timed>,
        h: Header)
    requires ListedDrive(clock, summaries, g) && SameFiles(summaries, routes)
    requires IsSpan(Matched(clock, routes, ClipFiles(g)), h)
    ensures h.start == g[0].ts && h.end == g[|g| - 1].ts + CLIP_MS
  {
    hide Normalize, Distinct, SameFiles, Matched, ClipFiles;
    var m := Matched(clock, routes, ClipFiles(g));
    forall i: nat | i < |g|
      ensures h.start <= g[i].ts <= h.end - CLIP_MS
    {
      var r := ClipIsMatched(clock, summaries, routes, g, i);
    }
    forall j | 0 <= j < |m|
      ensures g[0].ts <= m[j].ts <= g[|g| - 1].ts
    {
      MatchedMembers(clock, routes, ClipFiles(g), m[j]);
      MatchedHasClip(clock, summaries, routes, g, m[j].s);
    }
  }

  lemma {:induction false} CountsCompare(clock: Clock, summaries: seq<Summary>, routes: seq<Route>, g: seq<Timed>)
    requires ListedDrive(clock, summaries, g) && SameFiles(summaries, routes)
    ensures |Matched(clock, routes, ClipFiles(g))| == |g| <==> !Repeats(routes, ClipFiles(g))
  {
    hide Normalize, SameFiles, Matched, Repeats, Ordered, ClipFiles;
    var files := ClipFiles(g);
    var m := Matched(clock, routes, files);
    NamesCover(clock, summaries, routes, g);
    SetSize(Names(m));
    FilesSize(g);
    forall r | r in routes && Normalize(r.file) in files
      ensures clock(r.file).Some?
    {
      MatchedHasClip(clock, summaries, routes, g, r);
    }
    NamesOfMatched(clock, routes, files);
  }

  lemma NamesCover(clock: Clock, summaries: seq<Summary>, routes: seq<Route>, g: seq<Timed>)
    requires ListedDrive(clock, summaries, g) && SameFiles(summaries, routes)
    ensures (set x | x in Names(Matched(clock, routes, ClipFiles(g)))) == ClipFiles(g)
  {
    hide Normalize, SameFiles, Matched, Ordered, Distinct, ListedDrive;
    var files := ClipFiles(g);
    var m := Matched(clock, routes, files);
    forall x | x in Names(m)
      ensures x in files
    {
      var j :| 0 <= j < |m| && Names(m)[j] == x;
      MatchedMembers(clock, routes, files, m[j]);
    }
    forall x | x in files
      ensures x in Names(m)
    {
      var i: nat :| i < |g| && Normalize(g[i].s.file) == x;
      var r := ClipIsMatched(clock, summaries, routes, g, i);
      NameOf(m, At(r, g[i].ts));
    }
  }

  lemma NameOf(m: seq<Stamped<Route>>, c: Stamped<Route>)
    requires c in m
    ensures Normalize(c.s.file) in Names(m)
  {
    hide Normalize;
    var j :| 0 <= j < |m| && m[j] == c;
    assert Names(m)[j] == Normalize(c.s.file);
  }

  lemma FilesSize(g: seq<Timed>)
    requires Distinct(g)
    ensures |ClipFiles(g)| == |g|
  {
    hide Normalize;
    var q := seq(|g|, i requires 0 <= i < |g| => Normalize(g[i].s.file));
    assert forall i :: 0 <= i < |g| ==> q[i] == Normalize(g[i].s.file);
    SetSize(q);
    forall x
      ensures x in q <==> x in ClipFiles(g)
    {
      if x in ClipFiles(g) {
        var i :| 0 <= i < |g| && Normalize(g[i].s.file) == x;
        assert q[i] == x;
      }
    }
    assert (set x | x in q) == ClipFiles(g);
  }
}
