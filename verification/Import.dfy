/** Importing a drive-data document in one transaction (server/drives/import.go).
    A document is the decoded token stream, cut where decoding fails. */
module Import {
  import opened DriveTypes
  import opened Aggregate
  import opened Store

  // ----- documents and their writes -----------------------------------------

  /** A top-level key with its value; `ends` is false when decoding fails after the listed elements. */
  datatype Section =
    | ProcessedFiles(paths: seq<string>, ends: bool)
    | Routes(records: seq<RouteRecord>, ends: bool)
    | DriveTags(entries: seq<(string, seq<string>)>, ends: bool)
    | Other(ends: bool)

  /** `opens` and `closes` say whether the object starts and stops as it should, without trailing data. */
  datatype Document = Document(opens: bool, sections: seq<Section>, closes: bool)

  datatype Write = File(path: string) | RouteRow(r: RouteRecord) | Tag(key: string, tag: string)

  ghost function FileWrites(paths: seq<string>): seq<Write> {
    if paths == [] then [] else FileWrites(paths[..|paths| - 1]) + [File(Normalize(paths[|paths| - 1]))]
  }

  ghost function RouteWrites(records: seq<RouteRecord>): seq<Write> {
    if records == [] then [] else RouteWrites(records[..|records| - 1]) + [RouteRow(records[|records| - 1])]
  }

  /** Empty tags are skipped. */
  ghost function KeyWrites(key: string, tags: seq<string>): seq<Write> {
    if tags == [] then []
    else if tags[|tags| - 1] == "" then KeyWrites(key, tags[..|tags| - 1])
    else KeyWrites(key, tags[..|tags| - 1]) + [Tag(key, tags[|tags| - 1])]
  }

  ghost function TagWrites(entries: seq<(string, seq<string>)>): seq<Write> {
    if entries == [] then [] else
      var last := entries[|entries| - 1];
      TagWrites(entries[..|entries| - 1]) + KeyWrites(last.0, last.1)
  }

  ghost function SectionWrites(s: Section): seq<Write> {
    match s
    case ProcessedFiles(paths, _) => FileWrites(paths)
    case Routes(records, _) => RouteWrites(records)
    case DriveTags(entries, _) => TagWrites(entries)
    case Other(_) => []
  }

  /** The writes before the first failure, and whether there is none. */
  datatype Plan = Plan(writes: seq<Write>, ok: bool)

  ghost function Planned(sections: seq<Section>, k: nat): Plan
    requires k <= |sections|
  {
    if k == 0 then Plan([], true) else
      var p := Planned(sections, k - 1);
      if p.ok then Plan(p.writes + SectionWrites(sections[k - 1]), sections[k - 1].ends) else p
  }

  /** A route without points violates the NOT NULL constraint of the points column. */
  predicate Fails(w: Write) { w.RouteRow? && w.r.points.None? }

  ghost function FirstFailure(ws: seq<Write>): (i: nat)
    ensures i <= |ws| && (i < |ws| ==> Fails(ws[i])) && forall j :: 0 <= j < i ==> !Fails(ws[j])
  {
    if ws == [] then 0 else
      var i := FirstFailure(ws[..|ws| - 1]);
      if i < |ws| - 1 then i else if Fails(ws[|ws| - 1]) then |ws| - 1 else |ws|
  }

  ghost function Effective(doc: Document): Plan {
    if !doc.opens then Plan([], false) else
      var p := Planned(doc.sections, |doc.sections|);
      var i := FirstFailure(p.writes);
      if i < |p.writes| then Plan(p.writes[..i], false) else Plan(p.writes, p.ok && doc.closes)
  }

  // ----- applying writes ----------------------------------------------------

  ghost function NewRow(env: Env, r: RouteRecord): Row
    requires r.points.Some?
  {
    Row(NewColumns(r), Some(Aggregated(env, r)))
  }

  ghost function Apply(env: Env, db: Content, w: Write): Content
    requires !Fails(w)
  {
    match w
    case File(path) => db.(processed := db.processed + {path})
    case RouteRow(r) =>
      var n := Normalize(r.file);
      db.(routes := db.routes[n := NewRow(env, r)], processed := db.processed + {n})
    case Tag(key, tag) => db.(tags := db.tags + {(key, tag)})
  }

  ghost predicate Sound(ws: seq<Write>) {
    forall i :: 0 <= i < |ws| ==> !Fails(ws[i])
  }

  ghost function Run(env: Env, db: Content, ws: seq<Write>): Content
    requires Sound(ws)
  {
    if ws == [] then db else Apply(env, Run(env, db, ws[..|ws| - 1]), ws[|ws| - 1])
  }

  lemma {:induction false} RunConcat(env: Env, db: Content, a: seq<Write>, b: seq<Write>)
    requires Sound(a) && Sound(b)
    ensures Sound(a + b) && Run(env, db, a + b) == Run(env, Run(env, db, a), b)
  {
    hide Apply, Fails;
    if b == [] {
      assert a + b == a;
    } else {
      assert (a + b)[..|a + b| - 1] == a + b[..|b| - 1];
      RunConcat(env, db, a, b[..|b| - 1]);
    }
  }

  lemma RunOne(env: Env, db: Content, w: Write)
    requires !Fails(w)
    ensures Run(env, db, [w]) == Apply(env, db, w)
  {
    hide Apply, Fails;
    assert [w][..0] == [];
    assert Run(env, db, []) == db;
  }

  // ----- what a list of writes means ----------------------------------------

  /** The last record written for a normalised path. */
  ghost function LastRecord(ws: seq<Write>, file: string): Option<RouteRecord> {
    if ws == [] then None
    else
      var w := ws[|ws| - 1];
      if w.RouteRow? && Normalize(w.r.file) == file then Some(w.r) else LastRecord(ws[..|ws| - 1], file)
  }

  ghost function Marks(ws: seq<Write>): set<string> {
    set i | 0 <= i < |ws| && !ws[i].Tag? :: if ws[i].File? then ws[i].path else Normalize(ws[i].r.file)
  }

  ghost function TagPairs(ws: seq<Write>): set<(string, string)> {
    set i | 0 <= i < |ws| && ws[i].Tag? :: (ws[i].key, ws[i].tag)
  }

  ghost predicate RowIs(env: Env, before: Content, after: Content, ws: seq<Write>, file: string) {
    match LastRecord(ws, file)
    case Some(r) => r.points.Some? && file in after.routes && after.routes[file] == NewRow(env, r)
    case None =>
      && (file in after.routes <==> file in before.routes)
      && (file in before.routes ==> after.routes[file] == before.routes[file])
  }

  lemma {:induction false} RunRow(env: Env, db: Content, ws: seq<Write>, file: string)
    requires Sound(ws)
    ensures RowIs(env, db, Run(env, db, ws), ws, file)
  {
    hide NewRow, Normalize;
    if ws != [] {
      RunRow(env, db, ws[..|ws| - 1], file);
    }
  }

  lemma {:induction false} RunSets(env: Env, db: Content, ws: seq<Write>)
    requires Sound(ws)
    ensures Run(env, db, ws).processed == db.processed + Marks(ws) && Run(env, db, ws).tags == db.tags + TagPairs(ws)
  {
    hide NewRow, Normalize;
    if ws == [] {
      assert Marks(ws) == {} && TagPairs(ws) == {};
    } else {
      var front, w := ws[..|ws| - 1], ws[|ws| - 1];
      RunSets(env, db, front);
      assert ws == front + [w];
      MarksSnoc(front, w);
      hide Marks, TagPairs;
    }
  }

  /** Last write wins for routes; marks and tags only accumulate. */
  lemma RunMeans(env: Env, db: Content, ws: seq<Write>)
    requires Sound(ws)
    ensures var after := Run(env, db, ws);
            && (forall file :: RowIs(env, db, after, ws, file))
            && after.processed == db.processed + Marks(ws)
            && after.tags == db.tags + TagPairs(ws)
  {
    hide RowIs, Run, Marks, TagPairs;
    RunSets(env, db, ws);
    forall file
      ensures RowIs(env, db, Run(env, db, ws), ws, file)
    {
      RunRow(env, db, ws, file);
    }
  }

  lemma MarksSnoc(front: seq<Write>, w: Write)
    ensures TagPairs(front + [w]) == TagPairs(front) + (if w.Tag? then {(w.key, w.tag)} else {})
    ensures Marks(front + [w]) ==
            Marks(front) + (if w.Tag? then {} else {if w.File? then w.path else Normalize(w.r.file)})
  {
    hide Normalize;
    var ws := front + [w];
    assert ws[|front|] == w;
    assert forall i :: 0 <= i < |front| ==> ws[i] == front[i];
  }

  /** Importing keeps populated rows consistent and clips tracked, and creates no NULL row. */
  lemma {:induction false} RunKeeps(env: Env, db: Content, ws: seq<Write>)
    requires Sound(ws)
    ensures Consistent(env, db) ==> Consistent(env, Run(env, db, ws))
    ensures Tracked(db) ==> Tracked(Run(env, db, ws))
    ensures NullRows(Run(env, db, ws)) <= NullRows(db)
  {
    if ws != [] {
      var front, w := ws[..|ws| - 1], ws[|ws| - 1];
      RunKeeps(env, db, front);
      hide Compute, Aggregated, NewColumns, Normalize, Run;
      assert Run(env, db, ws) == Apply(env, Run(env, db, front), w) by { RunLast(env, db, ws); }
      if w.RouteRow? {
        NewRowIsConsistent(env, Normalize(w.r.file), w.r);
      }
    }
  }

  lemma RunLast(env: Env, db: Content, ws: seq<Write>)
    requires Sound(ws) && ws != []
    ensures Run(env, db, ws) == Apply(env, Run(env, db, ws[..|ws| - 1]), ws[|ws| - 1])
  {
  }

  // ----- streaming a section ------------------------------------------------

  /** `n` writes of a section were made, up to its end or its first failure. */
  ghost predicate Streamed(s: Section, n: nat, ok: bool) {
    var ws := SectionWrites(s);
    && n <= |ws| && (forall i :: 0 <= i < n ==> !Fails(ws[i]))
    && (if ok then n == |ws| && s.ends else if n < |ws| then Fails(ws[n]) else !s.ends)
  }

  /** Up to here every section ended. */
  ghost predicate SoFar(doc: Document, k: nat, done: seq<Write>) {
    k <= |doc.sections| && Planned(doc.sections, k) == Plan(done, true) && Sound(done)
  }

  lemma NextSection(doc: Document, k: nat, done: seq<Write>, n: nat)
    requires k < |doc.sections| && SoFar(doc, k, done) && Streamed(doc.sections[k], n, true)
    ensures SoFar(doc, k + 1, done + SectionWrites(doc.sections[k]))
  {
  }

  lemma {:induction false} PlanPrefix(sections: seq<Section>, k: nat, m: nat)
    requires k <= m <= |sections|
    ensures var a, b := Planned(sections, k), Planned(sections, m);
            |a.writes| <= |b.writes| && b.writes[..|a.writes|] == a.writes && (!a.ok ==> b == a)
  {
    hide SectionWrites;
    if k < m {
      PlanPrefix(sections, k, m - 1);
    }
  }

  lemma FailureAt(ws: seq<Write>, i: nat)
    requires i < |ws| && Fails(ws[i]) && forall j :: 0 <= j < i ==> !Fails(ws[j])
    ensures FirstFailure(ws) == i
  {
  }

  lemma NoFailure(ws: seq<Write>)
    requires Sound(ws)
    ensures FirstFailure(ws) == |ws|
  {
  }

  /** A section that fails decides the outcome. */
  lemma SectionFails(doc: Document, k: nat, done: seq<Write>, n: nat)
    requires doc.opens && k < |doc.sections| && SoFar(doc, k, done) && Streamed(doc.sections[k], n, false)
    ensures Effective(doc) == Plan(done + SectionWrites(doc.sections[k])[..n], false) && Sound(Effective(doc).writes)
  {
    var ws := SectionWrites(doc.sections[k]);
    hide SectionWrites, Fails;
    PlanPrefix(doc.sections, k + 1, |doc.sections|);
    var all := Planned(doc.sections, |doc.sections|).writes;
    assert all[..|done + ws|] == done + ws;
    if n < |ws| {
      assert all[|done| + n] == (done + ws)[|done| + n] == ws[n];
      forall j | 0 <= j < |done| + n
        ensures !Fails(all[j])
      {
        assert all[j] == (done + ws)[j];
      }
      FailureAt(all, |done| + n);
      assert all[..|done| + n] == done + ws[..n];
    } else {
      assert all == done + ws;
      NoFailure(all);
      assert ws[..n] == ws;
    }
  }

  /** All sections ended. */
  lemma AllSections(doc: Document, done: seq<Write>)
    requires doc.opens && SoFar(doc, |doc.sections|, done)
    ensures Effective(doc) == Plan(done, doc.closes)
  {
    NoFailure(done);
  }

  // ----- statistics ---------------------------------------------------------

  datatype ImportStats = ImportStats(routes: nat, processedFiles: nat, driveTags: nat)

  /** Rows of processed_files that a list of writes attempts by itself or creates on the side. */
  ghost function FileCount(marked: set<string>, ws: seq<Write>): nat {
    if ws == [] then 0 else
      var front, w := ws[..|ws| - 1], ws[|ws| - 1];
      var counts := w.File? || (w.RouteRow? && Normalize(w.r.file) !in marked + Marks(front));
      FileCount(marked, front) + if counts then 1 else 0
  }

  ghost function TagCount(ws: seq<Write>): nat {
    if ws == [] then 0 else TagCount(ws[..|ws| - 1]) + if ws[|ws| - 1].Tag? then 1 else 0
  }

  ghost function RouteCount(ws: seq<Write>): nat {
    if ws == [] then 0 else RouteCount(ws[..|ws| - 1]) + if ws[|ws| - 1].RouteRow? then 1 else 0
  }

  /** The size of the last routes section before k: stats.Routes is assigned, not added to. */
  ghost function LastRoutes(sections: seq<Section>, k: nat): nat
    requires k <= |sections|
  {
    if k == 0 then 0
    else if sections[k - 1].Routes? then |sections[k - 1].records|
    else LastRoutes(sections, k - 1)
  }

  lemma {:induction false} CountsConcat(marked: set<string>, a: seq<Write>, b: seq<Write>)
    ensures TagCount(a + b) == TagCount(a) + TagCount(b) && RouteCount(a + b) == RouteCount(a) + RouteCount(b)
    ensures FileCount(marked, a + b) == FileCount(marked, a) + FileCount(marked + Marks(a), b)
  {
    hide Normalize, Marks;
    if b == [] {
      assert a + b == a;
    } else {
      var front := b[..|b| - 1];
      assert (a + b)[..|a + b| - 1] == a + front;
      CountsConcat(marked, a, front);
      MarksConcat(a, front);
      assert marked + (Marks(a) + Marks(front)) == (marked + Marks(a)) + Marks(front);
    }
  }

  lemma {:induction false} MarksConcat(a: seq<Write>, b: seq<Write>)
    ensures Marks(a + b) == Marks(a) + Marks(b)
  {
    hide Normalize;
    if b == [] {
      assert a + b == a && Marks(b) == {};
    } else {
      var front, w := b[..|b| - 1], b[|b| - 1];
      assert a + b == (a + front) + [w] && b == front + [w];
      MarksConcat(a, front);
      MarksSnoc(a + front, w);
      MarksSnoc(front, w);
      hide Marks;
    }
  }

  ghost predicate OnlyFiles(ws: seq<Write>) { forall i :: 0 <= i < |ws| ==> ws[i].File? }
  ghost predicate OnlyRoutes(ws: seq<Write>) { forall i :: 0 <= i < |ws| ==> ws[i].RouteRow? }
  ghost predicate OnlyTags(ws: seq<Write>) { forall i :: 0 <= i < |ws| ==> ws[i].Tag? }

  lemma {:induction false} CountsOfKind(marked: set<string>, ws: seq<Write>)
    ensures OnlyFiles(ws) ==> FileCount(marked, ws) == |ws| && RouteCount(ws) == 0 == TagCount(ws)
    ensures OnlyRoutes(ws) ==> RouteCount(ws) == |ws| && TagCount(ws) == 0
    ensures OnlyTags(ws) ==> TagCount(ws) == |ws| && RouteCount(ws) == 0 == FileCount(marked, ws)
  {
    hide Normalize, Marks;
    if ws != [] {
      CountsOfKind(marked, ws[..|ws| - 1]);
    }
  }

  ghost function AllRoutes(sections: seq<Section>, k: nat): nat
    requires k <= |sections|
  {
    if k == 0 then 0 else AllRoutes(sections, k - 1) + if sections[k - 1].Routes? then |sections[k - 1].records| else 0
  }

  lemma {:induction false} RoutesPlanned(sections: seq<Section>, k: nat)
    requires k <= |sections| && forall i :: 0 <= i < |sections| ==> sections[i].ends
    ensures Planned(sections, k).ok && RouteCount(Planned(sections, k).writes) == AllRoutes(sections, k)
  {
    if k > 0 {
      var s, before := sections[k - 1], Planned(sections, k - 1).writes;
      RoutesPlanned(sections, k - 1);
      CountsConcat({}, before, SectionWrites(s));
      SectionKind(s);
      CountsOfKind({}, SectionWrites(s));
      hide RouteCount, FileCount, TagCount, SectionWrites;
    }
  }

  /** No routes section after one that lists routes. */
  ghost predicate OneRoutesSection(sections: seq<Section>, k: nat)
    requires k <= |sections|
  {
    forall i, j :: 0 <= i < j < k && sections[i].Routes? && sections[j].Routes? ==> sections[i].records == []
  }

  ghost predicate NoRoutes(sections: seq<Section>, k: nat)
    requires k <= |sections|
  {
    forall i :: 0 <= i < k && sections[i].Routes? ==> sections[i].records == []
  }

  /** The reported number of routes is the number written exactly when routes come in one section. */
  lemma {:induction false} LastRoutesIsAll(sections: seq<Section>, k: nat)
    requires k <= |sections|
    ensures LastRoutes(sections, k) <= AllRoutes(sections, k)
    ensures LastRoutes(sections, k) == AllRoutes(sections, k) <==> OneRoutesSection(sections, k)
    ensures AllRoutes(sections, k) == 0 <==> NoRoutes(sections, k)
  {
    if k > 0 {
      LastRoutesIsAll(sections, k - 1);
      var s := sections[k - 1];
      if s.Routes? {
        assert OneRoutesSection(sections, k) <==> NoRoutes(sections, k - 1);
      } else {
        assert OneRoutesSection(sections, k) <==> OneRoutesSection(sections, k - 1);
      }
    }
  }

  lemma SectionKind(s: Section)
    ensures var ws := SectionWrites(s);
            && (s.ProcessedFiles? ==> OnlyFiles(ws) && |ws| == |s.paths|)
            && (s.Routes? ==> OnlyRoutes(ws) && |ws| == |s.records|)
            && (s.DriveTags? ==> OnlyTags(ws)) && (s.Other? ==> ws == [])
  {
    match s
    case ProcessedFiles(paths, _) => FileKind(paths);
    case Routes(records, _) => RouteWritesAt(records);
    case DriveTags(entries, _) => TagKind(entries);
    case Other(_) =>
  }

  lemma {:induction false} FileKind(paths: seq<string>)
    ensures OnlyFiles(FileWrites(paths)) && |FileWrites(paths)| == |paths|
  {
    hide Normalize;
    if paths != [] {
      FileKind(paths[..|paths| - 1]);
    }
  }

  lemma {:induction false} KeyKind(key: string, tags: seq<string>)
    ensures OnlyTags(KeyWrites(key, tags))
  {
    if tags != [] {
      KeyKind(key, tags[..|tags| - 1]);
    }
  }

  lemma {:induction false} TagKind(entries: seq<(string, seq<string>)>)
    ensures OnlyTags(TagWrites(entries))
  {
    hide KeyWrites;
    if entries != [] {
      TagKind(entries[..|entries| - 1]);
      KeyKind(entries[|entries| - 1].0, entries[|entries| - 1].1);
    }
  }

  // ----- the import ---------------------------------------------------------

  method StreamProcessedFiles(env: Env, tx0: Content, s: Section) returns (tx: Content, count: nat, ok: bool)
    requires s.ProcessedFiles?
    ensures Streamed(s, |SectionWrites(s)|, ok) && tx == Run(env, tx0, SectionWrites(s))
    ensures count == |s.paths|
  {
    hide Normalize;
    tx, count := tx0, 0;
    for k := 0 to |s.paths|
      invariant Sound(FileWrites(s.paths[..k])) && tx == Run(env, tx0, FileWrites(s.paths[..k])) && count == k
    {
      var norm := Normalize(s.paths[k]);
      assert s.paths[..k + 1][..k] == s.paths[..k];
      assert FileWrites(s.paths[..k + 1]) == FileWrites(s.paths[..k]) + [File(norm)];
      RunConcat(env, tx0, FileWrites(s.paths[..k]), [File(norm)]);
      RunOne(env, tx, File(norm));
      tx := tx.(processed := tx.processed + {norm});
      count := count + 1;
    }
    assert s.paths[..|s.paths|] == s.paths;
    ok := s.ends;
  }

  lemma {:induction false} RouteWritesAt(records: seq<RouteRecord>)
    ensures |RouteWrites(records)| == |records|
    ensures forall i :: 0 <= i < |records| ==> RouteWrites(records)[i] == RouteRow(records[i])
  {
    if records != [] {
      RouteWritesAt(records[..|records| - 1]);
    }
  }

  method WriteRoute(env: Env, tx0: Content, r: RouteRecord) returns (tx: Content, newFile: bool)
    requires r.points.Some?
    ensures tx == Apply(env, tx0, RouteRow(r)) && newFile == (Normalize(r.file) !in tx0.processed)
  {
    hide Normalize, NewColumns, AggregatesOf;
    var norm := Normalize(r.file);
    var cols := PackColumns(r);
    var agg := ComputeRouteAggregates(env.dist, AsRoute(env, r));
    newFile := norm !in tx0.processed;
    tx := tx0.(routes := tx0.routes[norm := Row(cols, Some(agg))], processed := tx0.processed + {norm});
  }

  method StreamRoutes(env: Env, tx0: Content, s: Section) returns (tx: Content, count: nat, files: nat, ok: bool)
    requires s.Routes?
    ensures count <= |SectionWrites(s)| && Streamed(s, count, ok) && Sound(SectionWrites(s)[..count])
    ensures tx == Run(env, tx0, SectionWrites(s)[..count])
    ensures files == FileCount(tx0.processed, SectionWrites(s)[..count])
  {
    hide Normalize, NewRow, RouteWrites, Apply, Run, Marks;
    RouteWritesAt(s.records);
    ghost var ws := SectionWrites(s);
    tx, count, files := tx0, 0, 0;
    assert Run(env, tx0, ws[..0]) == tx0 by { RunNone(env, tx0, ws); }
    for k := 0 to |s.records|
      invariant Sound(ws[..k]) && tx == Run(env, tx0, ws[..k]) && count == k
      invariant files == FileCount(tx0.processed, ws[..k])
    {
      if s.records[k].points.None? {
        ok := false;
        return;
      }
      assert ws[..k + 1] == ws[..k] + [ws[k]];
      RunConcat(env, tx0, ws[..k], [ws[k]]);
      RunOne(env, tx, ws[k]);
      RunSets(env, tx0, ws[..k]);
      assert ws[..k + 1][..k] == ws[..k];
      var newFile;
      tx, newFile := WriteRoute(env, tx, s.records[k]);
      count := count + 1;
      if newFile {
        files := files + 1;
      }
    }
    assert ws[..|ws|] == ws;
    ok := s.ends;
  }

  lemma RunNone(env: Env, db: Content, ws: seq<Write>)
    ensures Sound(ws[..0]) && Run(env, db, ws[..0]) == db
  {
  }

  method StreamDriveTags(env: Env, tx0: Content, s: Section) returns (tx: Content, count: nat, ok: bool)
    requires s.DriveTags?
    ensures Streamed(s, |SectionWrites(s)|, ok) && tx == Run(env, tx0, SectionWrites(s))
    ensures count == |SectionWrites(s)|
  {
    hide Run, Apply;
    tx, count := tx0, 0;
    assert Run(env, tx0, []) == tx0 by { RunNone(env, tx0, []); }
    for k := 0 to |s.entries|
      invariant Sound(TagWrites(s.entries[..k])) && tx == Run(env, tx0, TagWrites(s.entries[..k]))
      invariant count == |TagWrites(s.entries[..k])|
    {
      var key, tags := s.entries[k].0, s.entries[k].1;
      ghost var done := TagWrites(s.entries[..k]);
      assert s.entries[..k + 1][..k] == s.entries[..k];
      var more;
      tx, more := StreamKey(env, tx, key, tags);
      RunConcat(env, tx0, done, KeyWrites(key, tags));
      count := count + more;
    }
    assert s.entries[..|s.entries|] == s.entries;
    ok := s.ends;
  }

  method StreamKey(env: Env, tx0: Content, key: string, tags: seq<string>) returns (tx: Content, count: nat)
    ensures Sound(KeyWrites(key, tags)) && tx == Run(env, tx0, KeyWrites(key, tags)) && count == |KeyWrites(key, tags)|
  {
    hide NewRow, Normalize, Run;
    tx, count := tx0, 0;
    RunNone(env, tx0, []);
    for k := 0 to |tags|
      invariant Sound(KeyWrites(key, tags[..k])) && tx == Run(env, tx0, KeyWrites(key, tags[..k]))
      invariant count == |KeyWrites(key, tags[..k])|
    {
      assert tags[..k + 1][..k] == tags[..k];
      if tags[k] == "" {
        continue;
      }
      RunConcat(env, tx0, KeyWrites(key, tags[..k]), [Tag(key, tags[k])]);
      RunOne(env, tx, Tag(key, tags[k]));
      tx := tx.(tags := tx.tags + {(key, tags[k])});
      count := count + 1;
    }
    assert tags[..|tags|] == tags;
  }

  /** One section inside the transaction: its writes up to its end or its first failure. */
  method StreamSection(env: Env, tx0: Content, s: Section, stats0: ImportStats)
    returns (tx: Content, stats: ImportStats, ok: bool, ghost n: nat)
    ensures n <= |SectionWrites(s)| && Streamed(s, n, ok) && Sound(SectionWrites(s)[..n])
    ensures tx == Run(env, tx0, SectionWrites(s)[..n])
    ensures ok ==> var ws := SectionWrites(s);
                   stats == ImportStats(if s.Routes? then |s.records| else stats0.routes,
                                        stats0.processedFiles + FileCount(tx0.processed, ws),
                                        stats0.driveTags + TagCount(ws))
  {
    hide Run, FileCount, TagCount, RouteCount;
    ghost var ws := SectionWrites(s);
    assert ws[..|ws|] == ws;
    SectionKind(s);
    CountsOfKind(tx0.processed, ws);
    stats := stats0;
    var count;
    match s {
      case ProcessedFiles(_, _) =>
        tx, count, ok := StreamProcessedFiles(env, tx0, s);
        n := |ws|;
        stats := stats.(processedFiles := stats.processedFiles + count);
      case Routes(_, _) =>
        var files;
        tx, count, files, ok := StreamRoutes(env, tx0, s);
        n := count;
        stats := stats.(routes := count, processedFiles := stats.processedFiles + files);
      case DriveTags(_, _) =>
        tx, count, ok := StreamDriveTags(env, tx0, s);
        n := |ws|;
        stats := stats.(driveTags := stats.driveTags + count);
      case Other(ends) =>
        tx, ok, n := tx0, ends, 0;
        RunNone(env, tx0, ws);
    }
  }

  /** All or nothing: the document's writes in order, or an unchanged database. */
  method ImportJson(env: Env, d: Database, doc: Document, commits: bool) returns (stats: ImportStats, ok: bool)
    modifies d
    ensures Sound(Effective(doc).writes) && ok == (Effective(doc).ok && commits)
    ensures d.db == if ok then Run(env, old(d.db), Effective(doc).writes) else old(d.db)
    ensures ok ==> stats == ImportStats(LastRoutes(doc.sections, |doc.sections|),
                                        FileCount(old(d.db.processed), Effective(doc).writes),
                                        TagCount(Effective(doc).writes))
  {
    hide Run, Effective, Streamed, SoFar, SectionWrites, FileCount, TagCount, Marks;
    var tx := d.db;
    ghost var done := [];
    stats := ImportStats(0, 0, 0);
    if !doc.opens {
      NotOpen(doc);
      return stats, false;
    }
    StartPlan(env, d.db, doc);
    for k := 0 to |doc.sections|
      invariant SoFar(doc, k, done) && Sound(done) && tx == Run(env, old(d.db), done) && d.db == old(d.db)
      invariant stats == ImportStats(LastRoutes(doc.sections, k), FileCount(old(d.db.processed), done), TagCount(done))
    {
      ghost var n;
      ghost var ws := SectionWrites(doc.sections[k]);
      RunSets(env, old(d.db), done);
      CountsConcat(old(d.db.processed), done, ws);
      tx, stats, ok, n := StreamSection(env, tx, doc.sections[k], stats);
      if !ok {
        SectionFails(doc, k, done, n);
        return;
      }
      WholeSection(doc.sections[k], n);
      NextSection(doc, k, done, n);
      RunConcat(env, old(d.db), done, ws);
      done := done + ws;
    }
    AllSections(doc, done);
    if !doc.closes || !commits {
      return stats, false;
    }
    d.db := tx;
    ok := true;
  }

  lemma NotOpen(doc: Document)
    requires !doc.opens
    ensures Effective(doc) == Plan([], false)
  {
  }

  lemma StartPlan(env: Env, db: Content, doc: Document)
    ensures SoFar(doc, 0, []) && Sound([]) && Run(env, db, []) == db
    ensures FileCount(db.processed, []) == 0 == TagCount([])
  {
  }

  lemma WholeSection(s: Section, n: nat)
    requires Streamed(s, n, true)
    ensures SectionWrites(s)[..n] == SectionWrites(s)
  {
  }
}
