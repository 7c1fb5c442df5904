/** What an imported document leaves in the database, in terms of its sections: which documents are accepted, and
    which files, rows and tags are there afterwards (server/drives/import.go lines 71-414). */
module ImportedContent {
  import opened Bytes
  import opened DriveTypes
  import opened PairWalk
  import opened Aggregate
  import opened Blob
  import opened ClipRow
  import opened Store
  import opened Import
  import opened StoredBytes

  // ----- the document -------------------------------------------------------

  /** All route records of the first `k` sections, in order. */
  ghost function RecordsIn(sections: seq<Section>, k: nat): seq<RouteRecord>
    requires k <= |sections|
  {
    if k == 0 then []
    else RecordsIn(sections, k - 1) + if sections[k - 1].Routes? then sections[k - 1].records else []
  }

  /** A section lists the path `f`, as it is stored. */
  ghost predicate Lists(s: Section, f: string) {
    s.ProcessedFiles? && exists j :: 0 <= j < |s.paths| && f == Normalize(s.paths[j])
  }

  /** A section tags the drive `key` with `t`; empty tags count for nothing. */
  ghost predicate Tags(s: Section, key: string, t: string) {
    s.DriveTags? && t != "" && exists j :: 0 <= j < |s.entries| && s.entries[j].0 == key && t in s.entries[j].1
  }

  /** `r` is the last record whose path is `f`. */
  ghost predicate LastFor(records: seq<RouteRecord>, f: string, r: RouteRecord) {
    exists i :: 0 <= i < |records| && records[i] == r && Normalize(r.file) == f
                && forall j :: i < j < |records| ==> Normalize(records[j].file) != f
  }

  ghost predicate NoneFor(records: seq<RouteRecord>, f: string) {
    forall i :: 0 <= i < |records| ==> Normalize(records[i].file) != f
  }

  // ----- writes -------------------------------------------------------------

  /** The records that writes carry, in order. */
  ghost function RecordsOf(ws: seq<Write>): seq<RouteRecord> {
    if ws == [] then [] else
      RecordsOf(ws[..|ws| - 1]) + if ws[|ws| - 1].RouteRow? then [ws[|ws| - 1].r] else []
  }

  lemma {:induction false} RecordsConcat(a: seq<Write>, b: seq<Write>)
    ensures RecordsOf(a + b) == RecordsOf(a) + RecordsOf(b)
  {
    if b == [] {
      assert a + b == a;
    } else {
      var n := |b| - 1;
      assert (a + b)[..|a + b| - 1] == a + b[..n];
      RecordsConcat(a, b[..n]);
    }
  }

  lemma {:induction false} LastRecordIs(ws: seq<Write>, f: string)
    ensures match LastRecord(ws, f)
            case Some(r) => LastFor(RecordsOf(ws), f, r)
            case None => NoneFor(RecordsOf(ws), f)
  {
    hide Normalize;
    if ws != [] {
      var front, w := ws[..|ws| - 1], ws[|ws| - 1];
      LastRecordIs(front, f);
      var all, before := RecordsOf(ws), RecordsOf(front);
      if w.RouteRow? && Normalize(w.r.file) == f {
        assert all[|all| - 1] == w.r;
      } else if LastRecord(front, f).Some? {
        var r := LastRecord(front, f).value;
        var i :| 0 <= i < |before| && before[i] == r && Normalize(r.file) == f
                 && forall j :: i < j < |before| ==> Normalize(before[j].file) != f;
        assert all[i] == r;
      }
    }
  }

  // ----- sections -----------------------------------------------------------

  lemma {:induction false} FilesWritten(paths: seq<string>)
    ensures OnlyFiles(FileWrites(paths)) && |FileWrites(paths)| == |paths|
    ensures forall j :: 0 <= j < |paths| ==> FileWrites(paths)[j].path == Normalize(paths[j])
  {
    hide Normalize;
    if paths != [] {
      FilesWritten(paths[..|paths| - 1]);
    }
  }

  lemma {:induction false} RoutesWritten(records: seq<RouteRecord>)
    ensures OnlyRoutes(RouteWrites(records)) && RecordsOf(RouteWrites(records)) == records
  {
    if records != [] {
      var n := |records| - 1;
      RoutesWritten(records[..n]);
      assert RouteWrites(records)[..n] == RouteWrites(records[..n]) by { RouteLength(records[..n]); }
      RouteLength(records[..n]);
      assert records == records[..n] + [records[n]];
    }
  }

  lemma {:induction false} RouteLength(records: seq<RouteRecord>)
    ensures |RouteWrites(records)| == |records|
  {
    if records != [] {
      RouteLength(records[..|records| - 1]);
    }
  }

  lemma {:induction false} KeysWritten(key: string, tags: seq<string>)
    ensures OnlyTags(KeyWrites(key, tags))
    ensures forall k, t :: Tag(k, t) in KeyWrites(key, tags) <==> k == key && t != "" && t in tags
  {
    if tags != [] {
      var front, last := tags[..|tags| - 1], tags[|tags| - 1];
      KeysWritten(key, front);
      assert forall t :: t in tags <==> t in front || t == last;
    }
  }

  ghost predicate Given(entries: seq<(string, seq<string>)>, k: string, t: string) {
    exists j :: 0 <= j < |entries| && entries[j].0 == k && t in entries[j].1
  }

  lemma GivenSnoc(front: seq<(string, seq<string>)>, last: (string, seq<string>), k: string, t: string)
    ensures Given(front + [last], k, t) <==> Given(front, k, t) || (last.0 == k && t in last.1)
  {
    var entries := front + [last];
    if j :| 0 <= j < |entries| && entries[j].0 == k && t in entries[j].1 {
      assert j < |front| ==> front[j].0 == k && t in front[j].1;
    }
    if j :| 0 <= j < |front| && front[j].0 == k && t in front[j].1 {
      assert entries[j] == front[j];
    }
    assert entries[|front|] == last;
  }

  lemma {:induction false} TagsWritten(entries: seq<(string, seq<string>)>)
    ensures OnlyTags(TagWrites(entries))
    ensures forall k, t :: Tag(k, t) in TagWrites(entries) <==> t != "" && Given(entries, k, t)
  {
    if entries != [] {
      var front, last := entries[..|entries| - 1], entries[|entries| - 1];
      assert entries == front + [last];
      TagsWritten(front);
      KeysWritten(last.0, last.1);
      hide Given, KeyWrites;
      forall k, t
        ensures Given(entries, k, t) <==> Given(front, k, t) || (last.0 == k && t in last.1)
      {
        GivenSnoc(front, last, k, t);
      }
    }
  }

  /** What the writes of one section mark, carry and tag. */
  lemma {:induction false} SectionMeans(s: Section)
    ensures var ws := SectionWrites(s);
            && RecordsOf(ws) == (if s.Routes? then s.records else [])
            && (forall f :: File(f) in ws <==> Lists(s, f))
            && (forall k, t :: Tag(k, t) in ws <==> Tags(s, k, t))
  {
    hide Normalize, FileWrites, RouteWrites, TagWrites;
    match s
    case ProcessedFiles(paths, _) =>
      FilesWritten(paths);
      NoRecords(FileWrites(paths));
      forall f
        ensures File(f) in FileWrites(paths) <==> Lists(s, f)
      {
      }
    case Routes(records, _) => RoutesWritten(records);
    case DriveTags(entries, _) =>
      TagsWritten(entries);
      NoRecords(TagWrites(entries));
    case Other(_) =>
  }

  lemma {:induction false} NoRecords(ws: seq<Write>)
    requires OnlyFiles(ws) || OnlyTags(ws)
    ensures RecordsOf(ws) == []
  {
    if ws != [] {
      NoRecords(ws[..|ws| - 1]);
    }
  }

  // ----- the plan -----------------------------------------------------------

  ghost predicate AllEnd(sections: seq<Section>, k: nat)
    requires k <= |sections|
  {
    forall i :: 0 <= i < k ==> sections[i].ends
  }

  ghost predicate Listed(sections: seq<Section>, k: nat, f: string)
    requires k <= |sections|
  {
    exists i :: 0 <= i < k && Lists(sections[i], f)
  }

  ghost predicate Tagged(sections: seq<Section>, k: nat, key: string, t: string)
    requires k <= |sections|
  {
    exists i :: 0 <= i < k && Tags(sections[i], key, t)
  }

  lemma OneMoreSection(sections: seq<Section>, k: nat)
    requires 0 < k <= |sections|
    ensures forall f :: Listed(sections, k, f) <==> Listed(sections, k - 1, f) || Lists(sections[k - 1], f)
    ensures forall q, t :: Tagged(sections, k, q, t) <==> Tagged(sections, k - 1, q, t) || Tags(sections[k - 1], q, t)
    ensures AllEnd(sections, k) <==> AllEnd(sections, k - 1) && sections[k - 1].ends
  {
    hide Lists, Tags;
  }

  lemma {:induction false} PlanMeans(sections: seq<Section>, k: nat)
    requires k <= |sections|
    ensures var p := Planned(sections, k);
            && (p.ok <==> AllEnd(sections, k))
            && (p.ok ==>
                  && RecordsOf(p.writes) == RecordsIn(sections, k)
                  && (forall f :: File(f) in p.writes <==> Listed(sections, k, f))
                  && (forall q, t :: Tag(q, t) in p.writes <==> Tagged(sections, k, q, t)))
  {
    hide Lists, Tags, SectionWrites;
    if k > 0 {
      PlanMeans(sections, k - 1);
      OneMoreSection(sections, k);
      hide Listed, Tagged, AllEnd;
      SectionMeans(sections[k - 1]);
      var p := Planned(sections, k - 1);
      if p.ok {
        RecordsConcat(p.writes, SectionWrites(sections[k - 1]));
      }
    }
  }

  // ----- the content --------------------------------------------------------

  ghost predicate AllHavePoints(records: seq<RouteRecord>) {
    forall i :: 0 <= i < |records| ==> records[i].points.Some?
  }

  lemma {:induction false} FailsAre(ws: seq<Write>)
    ensures AllHavePoints(RecordsOf(ws)) <==> forall i :: 0 <= i < |ws| ==> !Fails(ws[i])
  {
    if ws != [] {
      var front, w := ws[..|ws| - 1], ws[|ws| - 1];
      FailsAre(front);
      var all, before := RecordsOf(ws), RecordsOf(front);
      assert forall i :: 0 <= i < |before| ==> all[i] == before[i];
      assert forall i :: 0 <= i < |front| ==> ws[i] == front[i];
      if w.RouteRow? {
        assert all[|before|] == w.r;
      }
    }
  }

  /** A document is accepted exactly when it is complete and every route in it has points. */
  lemma {:induction false} AcceptedExactly(doc: Document)
    ensures var n := |doc.sections|;
            Effective(doc).ok <==>
            doc.opens && AllEnd(doc.sections, n) && doc.closes && AllHavePoints(RecordsIn(doc.sections, n))
    ensures Effective(doc).ok ==> Effective(doc).writes == Planned(doc.sections, |doc.sections|).writes
  {
    var p := Planned(doc.sections, |doc.sections|);
    PlanMeans(doc.sections, |doc.sections|);
    FailsAre(p.writes);
    hide Planned, RecordsIn, RecordsOf, AllHavePoints, Fails, AllEnd;
    if forall i :: 0 <= i < |p.writes| ==> !Fails(p.writes[i]) {
      NoFailure(p.writes);
    }
  }

  /** What the row of the path `f` is afterwards. */
  ghost predicate RowAfter(env: Env, before: Content, after: Content, records: seq<RouteRecord>, f: string) {
    || (NoneFor(records, f) && (f in after.routes <==> f in before.routes)
        && (f in before.routes ==> after.routes[f] == before.routes[f]))
    || (f in after.routes && exists r :: LastFor(records, f, r) && r.points.Some? && after.routes[f] == NewRow(env, r))
  }

  lemma {:induction false} MarkedIs(ws: seq<Write>, f: string)
    ensures f in Marks(ws) <==> File(f) in ws || !NoneFor(RecordsOf(ws), f)
  {
    hide Normalize;
    if ws != [] {
      var front, w := ws[..|ws| - 1], ws[|ws| - 1];
      assert ws == front + [w];
      MarkedIs(front, f);
      MarksSnoc(front, w);
      hide Marks;
      NoneForSnoc(RecordsOf(front), if w.RouteRow? then [w.r] else [], f);
    }
  }

  lemma NoneForSnoc(a: seq<RouteRecord>, b: seq<RouteRecord>, f: string)
    requires |b| <= 1
    ensures NoneFor(a + b, f) <==> NoneFor(a, f) && (b != [] ==> Normalize(b[0].file) != f)
  {
    hide Normalize;
    var c := a + b;
    assert forall i :: 0 <= i < |a| ==> c[i] == a[i];
    if b != [] {
      assert c[|a|] == b[0];
    }
  }

  lemma {:induction false} PairIs(ws: seq<Write>, k: string, t: string)
    ensures (k, t) in TagPairs(ws) <==> Tag(k, t) in ws
  {
  }

  /** What an accepted document leaves: besides what was there, the listed paths and the paths of its routes are
      processed, the tags are those given, and the row of a path is that of the last record for it. */
  lemma {:induction false} ImportMeans(env: Env, db: Content, doc: Document)
    requires Effective(doc).ok && Sound(Effective(doc).writes)
    ensures var after, n := Run(env, db, Effective(doc).writes), |doc.sections|;
            var records := RecordsIn(doc.sections, n);
            && (forall f :: f in after.processed <==>
                            f in db.processed || Listed(doc.sections, n, f) || !NoneFor(records, f))
            && (forall k, t :: (k, t) in after.tags <==>
                               (k, t) in db.tags || Tagged(doc.sections, n, k, t))
            && forall f :: RowAfter(env, db, after, records, f)
  {
    AcceptedExactly(doc);
    var ws, n := Effective(doc).writes, |doc.sections|;
    PlanMeans(doc.sections, n);
    hide Effective, Planned, Sound, Run, Listed, Tagged, RecordsIn, RecordsOf, Marks, TagPairs, LastFor, NoneFor,
         NewRow, AllEnd, AllHavePoints;
    RunMeans(env, db, ws);
    var after := Run(env, db, ws);
    forall f
      ensures f in Marks(ws) <==> File(f) in ws || !NoneFor(RecordsOf(ws), f)
      ensures RowAfter(env, db, after, RecordsOf(ws), f)
    {
      MarkedIs(ws, f);
      LastRecordIs(ws, f);
      assert Import.RowIs(env, db, after, ws, f);
    }
    hide RowAfter, Import.RowIs;
    forall k, t
      ensures (k, t) in TagPairs(ws) <==> Tag(k, t) in ws
    {
      PairIs(ws, k, t);
    }
  }

  /** The row of an imported record: aggregates of its floats, blobs that hold it byte by byte, the default source for
      none, and NULL for an empty signature and a percentage of zero. */
  lemma {:induction false} NewRowIs(env: Env, r: RouteRecord)
    requires r.points.Some?
    ensures var row, w := NewRow(env, r), RawWalk(env.dist, AsRoute(env, r));
            && row.agg.Some? && WalkOf(env, r, w) && SumsMean(w, row.agg.value)
            && PointsAre(row.cols.points, r.points.value) && row.cols.gears == r.gears && row.cols.ap == r.ap
            && (r.speeds.Some? <==> row.cols.speeds.Some?) && (r.accel.Some? <==> row.cols.accel.Some?)
            && (r.speeds.Some? ==> FloatsAre(row.cols.speeds.value, r.speeds.value))
            && (r.accel.Some? ==> FloatsAre(row.cols.accel.value, r.accel.value))
            && row.cols.source == (if r.source == "" then "sei" else r.source)
            && row.cols.signature == (if r.signature == "" then None else Some(r.signature))
            && row.cols.tessie == if r.tessie % 0x8000_0000_0000_0000 == 0 then None else Some(r.tessie)
  {
    AggregatedIs(env, r);
    hide AggregatesOf, RawWalk, SumsMean, WalkOf, PointsAre, FloatsAre, RunsAre, AsRoute, PointsBlob, PackFloats,
         PackRuns, Decode;
    DecodeOfNewColumns("", r);
    DecodeReads("", NewColumns(r));
  }

  // ----- the counts ---------------------------------------------------------

  /** Write `i` is a route whose path is new: not marked before the import, nor by a write before it. */
  ghost predicate MarksNew(marked: set<string>, ws: seq<Write>, i: nat) {
    && i < |ws| && ws[i].RouteRow? && Normalize(ws[i].r.file) !in marked
    && forall j :: 0 <= j < i ==>
         (ws[j].File? ==> ws[j].path != Normalize(ws[i].r.file))
         && (ws[j].RouteRow? ==> Normalize(ws[j].r.file) != Normalize(ws[i].r.file))
  }

  ghost function FilePlaces(marked: set<string>, ws: seq<Write>): set<nat> {
    set i: nat | i < |ws| && (ws[i].File? || MarksNew(marked, ws, i))
  }

  ghost function TagPlaces(ws: seq<Write>): set<nat> { set i: nat | i < |ws| && ws[i].Tag? }

  lemma {:induction false} NotMarked(ws: seq<Write>, f: string)
    ensures f !in Marks(ws) <==>
            forall j :: 0 <= j < |ws| ==>
              (ws[j].File? ==> ws[j].path != f) && (ws[j].RouteRow? ==> Normalize(ws[j].r.file) != f)
  {
    hide Normalize;
    forall j | 0 <= j < |ws| && !ws[j].Tag?
      ensures (if ws[j].File? then ws[j].path else Normalize(ws[j].r.file)) in Marks(ws)
    {
    }
  }

  lemma {:induction false} CountSnoc(s: set<nat>, n: nat, here: bool, all: set<nat>)
    requires n !in s && all == if here then s + {n} else s
    ensures |all| == |s| + if here then 1 else 0
  {
  }

  /** The counts an import reports: every listed path and every route whose path is new counts as a processed file, and
      every tag written as a tag. */
  lemma {:induction false} CountsMean(marked: set<string>, ws: seq<Write>)
    ensures FileCount(marked, ws) == |FilePlaces(marked, ws)| && TagCount(ws) == |TagPlaces(ws)|
  {
    hide MarksNew, Marks, Normalize, FilePlaces, TagPlaces;
    if ws == [] {
      NoPlaces(marked);
    } else {
      var n := |ws| - 1;
      CountsMean(marked, ws[..n]);
      PlacesGrow(marked, ws);
      CountSnoc(FilePlaces(marked, ws[..n]), n, ws[n].File? || MarksNew(marked, ws, n), FilePlaces(marked, ws));
      CountSnoc(TagPlaces(ws[..n]), n, ws[n].Tag?, TagPlaces(ws));
      if ws[n].RouteRow? {
        LastMarks(marked, ws);
      } else {
        NoRoute(marked, ws, n);
      }
    }
  }

  lemma NoPlaces(marked: set<string>)
    ensures FilePlaces(marked, []) == {} && TagPlaces([]) == {}
  {
  }

  lemma NoRoute(marked: set<string>, ws: seq<Write>, n: nat)
    requires n < |ws| && !ws[n].RouteRow?
    ensures !MarksNew(marked, ws, n)
  {
  }

  lemma PlacesGrow(marked: set<string>, ws: seq<Write>)
    requires ws != []
    ensures var n := |ws| - 1;
            var files, tags := FilePlaces(marked, ws[..n]), TagPlaces(ws[..n]);
            && n !in files && n !in tags
            && FilePlaces(marked, ws) == (if ws[n].File? || MarksNew(marked, ws, n) then files + {n} else files)
            && TagPlaces(ws) == if ws[n].Tag? then tags + {n} else tags
  {
    var n := |ws| - 1;
    forall i | 0 <= i < n
      ensures MarksNew(marked, ws, i) <==> MarksNew(marked, ws[..n], i)
    {
      SameBefore(marked, ws, n, i);
    }
    hide MarksNew;
    assert forall i :: 0 <= i < n ==> ws[..n][i] == ws[i];
  }

  lemma SameBefore(marked: set<string>, ws: seq<Write>, n: nat, i: nat)
    requires i < n <= |ws|
    ensures MarksNew(marked, ws, i) <==> MarksNew(marked, ws[..n], i)
  {
    hide Normalize;
    assert forall j :: 0 <= j <= i ==> ws[..n][j] == ws[j];
  }

  lemma LastMarks(marked: set<string>, ws: seq<Write>)
    requires ws != [] && ws[|ws| - 1].RouteRow?
    ensures var n, f := |ws| - 1, Normalize(ws[|ws| - 1].r.file);
            MarksNew(marked, ws, n) <==> f !in marked && f !in Marks(ws[..n])
  {
    var n, f := |ws| - 1, Normalize(ws[|ws| - 1].r.file);
    NotMarked(ws[..n], f);
    hide Normalize, Marks;
    assert forall j :: 0 <= j < n ==> ws[..n][j] == ws[j];
  }
}
