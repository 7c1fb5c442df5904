/** Exporting the database as a drive-data document (server/drives/export.go), and restoring it.
    The document is what a reader of the JSON text decodes. */
module Export {
  import opened Bytes
  import opened DriveTypes
  import opened Aggregate
  import opened Blob
  import opened Store
  import opened Backfill
  import opened Import

  // ----- a record through JSON ----------------------------------------------

  predicate Finite64(bits: uint64) { bits / 0x10_0000_0000_0000 % 0x800 != 0x7FF }
  predicate Finite32(bits: uint32) { bits / 0x80_0000 % 0x100 != 0xFF }

  /** JSON has no NaN and no infinities. */
  predicate AllFinite(r: RouteRecord) {
    && (forall i :: 0 <= i < |OrNil(r.points)| ==> Finite64(OrNil(r.points)[i].lat) && Finite64(OrNil(r.points)[i].lon))
    && (forall i :: 0 <= i < |OrNil(r.speeds)| ==> Finite32(OrNil(r.speeds)[i]))
    && (forall i :: 0 <= i < |OrNil(r.accel)| ==> Finite32(OrNil(r.accel)[i]))
    && Finite64(r.tessie)
  }

  /** omitempty: an empty slice is left out and read back as nil. */
  function OmitEmpty<T(==)>(s: Option<seq<T>>): Option<seq<T>> {
    if s == Some([]) then None else s
  }

  function Emitted(r: RouteRecord): RouteRecord {
    r.(gears := OmitEmpty(r.gears), ap := OmitEmpty(r.ap), speeds := OmitEmpty(r.speeds), accel := OmitEmpty(r.accel),
       runs := OmitEmpty(r.runs), tessie := if IsZero(r.tessie) then 0 else r.tessie)
  }

  /** What the document holds for a row; Bad when a blob does not decode or a float cannot be written. */
  ghost function Emits(file: string, c: Columns): Result<RouteRecord> {
    match Decode(file, c)
    case Bad => Bad
    case Ok(r) => if AllFinite(r) then Ok(Emitted(r)) else Bad
  }

  // ----- the document -------------------------------------------------------

  /** A query result: every element once, in some order. */
  ghost predicate Listing<T(!new)>(s: seq<T>, all: set<T>) {
    (forall x :: x in s <==> x in all) && forall i, j :: 0 <= i < j < |s| ==> s[i] != s[j]
  }

  type Entry = (string, seq<string>)

  ghost function PairsOf(entries: seq<Entry>): set<(string, string)> {
    if entries == [] then {} else
      var last := entries[|entries| - 1];
      PairsOf(entries[..|entries| - 1]) + set t | t in last.1 :: (last.0, t)
  }

  /** The keys of a JSON object. */
  ghost predicate DistinctKeys(entries: seq<Entry>) {
    forall i, j :: 0 <= i < j < |entries| ==> entries[i].0 != entries[j].0
  }

  ghost predicate Emission(db: Content, names: seq<string>, records: seq<RouteRecord>) {
    && |records| == |names|
    && forall i :: 0 <= i < |names| ==>
         names[i] in db.routes && Emits(names[i], db.routes[names[i]].cols) == Ok(records[i])
  }

  function Assemble(files: seq<string>, records: seq<RouteRecord>, entries: seq<Entry>): Document {
    var tags := if entries == [] then [] else [DriveTags(entries, true)];
    Document(true, [ProcessedFiles(files, true), Routes(records, true)] + tags, true)
  }

  ghost predicate Exported(db: Content, files: seq<string>, names: seq<string>, records: seq<RouteRecord>,
        entries: seq<Entry>, doc: Document) {
    && Listing(files, db.processed) && Listing(names, db.routes.Keys)
    && Emission(db, names, records)
    && PairsOf(entries) == db.tags && DistinctKeys(entries)
    && doc == Assemble(files, records, entries)
  }

  ghost predicate Exportable(db: Content) {
    forall f :: f in db.routes ==> Emits(f, db.routes[f].cols).Ok?
  }

  method ExportJson(db: Content, files: seq<string>, names: seq<string>, tagRows: seq<(string, string)>)
    returns (doc: Result<Document>, ghost records: seq<RouteRecord>, ghost entries: seq<Entry>)
    requires Listing(files, db.processed) && Listing(names, db.routes.Keys) && Listing(tagRows, db.tags)
    ensures doc.Ok? <==> Exportable(db)
    ensures doc.Ok? ==> Exported(db, files, names, records, entries, doc.value)
  {
    hide Emits, PairsOf, DistinctKeys;
    var rs := WriteRoutesArray(db, names);
    if rs.None? {
      return Bad, [], [];
    }
    var tags := WriteDriveTags(tagRows);
    records, entries := rs.value, tags;
    assert (set p | p in tagRows) == db.tags;
    assert Exportable(db) by { AllEmitted(db, names, rs.value); }
    doc := Ok(Assemble(files, rs.value, tags));
  }

  lemma AllEmitted(db: Content, names: seq<string>, records: seq<RouteRecord>)
    requires Listing(names, db.routes.Keys) && Emission(db, names, records)
    ensures Exportable(db)
  {
    hide Emits;
    forall f | f in db.routes
      ensures Emits(f, db.routes[f].cols).Ok?
    {
      assert f in names;
      var i :| 0 <= i < |names| && names[i] == f;
    }
  }

  method WriteRoutesArray(db: Content, names: seq<string>) returns (records: Option<seq<RouteRecord>>)
    requires forall f :: f in names ==> f in db.routes
    ensures records.Some? ==> Emission(db, names, records.value)
    ensures records.None? ==> !Exportable(db)
  {
    hide Decode, AllFinite, Emitted;
    var done := [];
    for k := 0 to |names|
      invariant Emission(db, names[..k], done)
    {
      var f := names[k];
      var r := DecodeRow(f, db.routes[f].cols);
      if r.Bad? {
        return None;
      }
      if !AllFinite(r.value) {
        return None;
      }
      done := done + [Emitted(r.value)];
    }
    assert names[..|names|] == names;
    return Some(done);
  }

  // ----- tags by key --------------------------------------------------------

  ghost function TagsFor(rows: seq<(string, string)>, key: string): seq<string> {
    if rows == [] then []
    else if rows[|rows| - 1].0 == key then TagsFor(rows[..|rows| - 1], key) + [rows[|rows| - 1].1]
    else TagsFor(rows[..|rows| - 1], key)
  }

  lemma {:induction false} TagsForMeans(rows: seq<(string, string)>, key: string, t: string)
    ensures t in TagsFor(rows, key) <==> (key, t) in rows
  {
    if rows != [] {
      var front, last := rows[..|rows| - 1], rows[|rows| - 1];
      TagsForMeans(front, key, t);
      assert rows == front + [last];
      assert (key, t) in rows <==> (key, t) in front || (key, t) == last;
    }
  }

  /** The keys in order of first appearance, and the tags seen for each. */
  ghost predicate Grouping(rows: seq<(string, string)>, keyOrder: seq<string>, byKey: map<string, seq<string>>) {
    && (forall i, j :: 0 <= i < j < |keyOrder| ==> keyOrder[i] != keyOrder[j])
    && (forall key :: key in byKey <==> key in keyOrder)
    && (forall key :: key in byKey ==> byKey[key] == TagsFor(rows, key))
    && (forall key :: key !in byKey ==> TagsFor(rows, key) == [])
  }

  lemma GroupingStep(rows: seq<(string, string)>, k: nat, keyOrder: seq<string>, byKey: map<string, seq<string>>)
    requires k < |rows| && Grouping(rows[..k], keyOrder, byKey)
    ensures var key, tag := rows[k].0, rows[k].1;
            if key in byKey then Grouping(rows[..k + 1], keyOrder, byKey[key := byKey[key] + [tag]])
            else Grouping(rows[..k + 1], keyOrder + [key], byKey[key := [tag]])
  {
    assert rows[..k + 1][..k] == rows[..k];
  }

  method WriteDriveTags(rows: seq<(string, string)>) returns (entries: seq<Entry>)
    ensures PairsOf(entries) == (set p | p in rows) && DistinctKeys(entries)
  {
    hide TagsFor, PairsOf;
    var keyOrder, byKey := [], map[];
    assert Grouping(rows[..0], keyOrder, byKey) by { NoRows(rows); }
    for k := 0 to |rows|
      invariant Grouping(rows[..k], keyOrder, byKey)
    {
      GroupingStep(rows, k, keyOrder, byKey);
      var key, tag := rows[k].0, rows[k].1;
      if key in byKey {
        byKey := byKey[key := byKey[key] + [tag]];
      } else {
        keyOrder, byKey := keyOrder + [key], byKey[key := [tag]];
      }
    }
    assert rows[..|rows|] == rows;
    entries := [];
    for i := 0 to |keyOrder|
      invariant |entries| == i && forall j :: 0 <= j < i ==> entries[j] == (keyOrder[j], byKey[keyOrder[j]])
    {
      entries := entries + [(keyOrder[i], byKey[keyOrder[i]])];
    }
    GroupedPairs(rows, keyOrder, byKey, entries);
  }

  lemma NoRows(rows: seq<(string, string)>)
    ensures Grouping(rows[..0], [], map[])
  {
  }

  lemma {:induction false} PairsOfMeans(entries: seq<Entry>, p: (string, string))
    ensures p in PairsOf(entries) <==> exists i :: 0 <= i < |entries| && entries[i].0 == p.0 && p.1 in entries[i].1
  {
    if entries != [] {
      PairsOfMeans(entries[..|entries| - 1], p);
    }
  }

  lemma GroupedPairs(rows: seq<(string, string)>, keyOrder: seq<string>, byKey: map<string, seq<string>>,
        entries: seq<Entry>)
    requires Grouping(rows, keyOrder, byKey) && |entries| == |keyOrder|
    requires forall j :: 0 <= j < |entries| ==> keyOrder[j] in byKey && entries[j] == (keyOrder[j], byKey[keyOrder[j]])
    ensures PairsOf(entries) == (set p | p in rows)
  {
    hide TagsFor, PairsOf;
    forall p: (string, string)
      ensures p in PairsOf(entries) <==> p in rows
    {
      PairsOfMeans(entries, p);
      TagsForMeans(rows, p.0, p.1);
      if p in rows {
        assert p.0 in byKey;
        var i :| 0 <= i < |keyOrder| && keyOrder[i] == p.0;
        assert entries[i].0 == p.0;
      }
    }
  }

  // ----- a row, out and back ------------------------------------------------

  ghost predicate Portable(c: Columns) {
    && c.gears != Some([]) && c.ap != Some([]) && c.speeds != Some([]) && c.accel != Some([]) && c.runs != Some([])
    && c.source != "" && c.signature != Some("") && (c.tessie.Some? ==> !IsZero(c.tessie.value))
  }

  lemma FloatsAgain(blob: Option<seq<byte>>)
    requires Nullable(blob, ReadFloat32s).Ok?
    ensures Packed(OmitEmpty(Nullable(blob, ReadFloat32s).value), PackFloats) == blob <==> blob != Some([])
  {
    if blob.Some? {
      BlobsRoundTrip(blob.value);
      assert Float32sBlob([]) == [];
      assert ReadFloat32s([]) == Ok([]);
      hide Float32sBlob, ReadFloat32s;
    }
  }

  lemma RunsAgain(blob: Option<seq<byte>>)
    requires Nullable(blob, ReadGearRuns).Ok?
    ensures Packed(OmitEmpty(Nullable(blob, ReadGearRuns).value), PackRuns) == blob <==> blob != Some([])
  {
    if blob.Some? {
      BlobsRoundTrip(blob.value);
      assert GearRunsBlob([]) == [];
      assert ReadGearRuns([]) == Ok([]);
      hide GearRunsBlob, ReadGearRuns;
    }
  }

  /** The columns come back exactly when they are portable. */
  lemma ColumnsComeBack(file: string, c: Columns)
    requires Emits(file, c).Ok?
    ensures Emits(file, c).value.file == file && Emits(file, c).value.points.Some?
    ensures NewColumns(Emits(file, c).value) == c <==> Portable(c)
  {
    hide AllFinite, Packed, Nullable, PointsBlob, ReadPoints;
    BlobsRoundTrip(c.points);
    FloatsAgain(c.speeds);
    FloatsAgain(c.accel);
    RunsAgain(c.runs);
  }

  lemma AggregatesComeBack(env: Env, file: string, c: Columns)
    requires Emits(file, c).Ok?
    ensures Compute(env, file, c) == Ok(Aggregated(env, Emits(file, c).value))
  {
    hide AllFinite, Nullable, ReadPoints, AggregatesOf, Points, Floats;
    var r := Decode(file, c).value;
    assert AsRoute(env, Emitted(r)) == AsRoute(env, r);
  }

  /** A row is restored as it was exactly when it is portable and holds the aggregates of its blobs. */
  ghost predicate Survives(env: Env, file: string, row: Row) {
    Portable(row.cols) && Compute(env, file, row.cols).Ok? && row.agg == Some(Compute(env, file, row.cols).value)
  }

  lemma {:induction false} RowComesBack(env: Env, file: string, row: Row)
    requires Emits(file, row.cols).Ok?
    ensures Emits(file, row.cols).value.points.Some?
    ensures Import.NewRow(env, Emits(file, row.cols).value) == row <==> Survives(env, file, row)
  {
    hide Emits, Portable, Compute, NewColumns, Aggregated;
    ColumnsComeBack(file, row.cols);
    AggregatesComeBack(env, file, row.cols);
  }

  // ----- export, then restore -----------------------------------------------

  ghost predicate NormalPaths(db: Content) {
    (forall f :: f in db.routes ==> Normalize(f) == f) && forall f :: f in db.processed ==> Normalize(f) == f
  }

  lemma PlanOfExport(files: seq<string>, records: seq<RouteRecord>, entries: seq<Entry>)
    requires forall i :: 0 <= i < |records| ==> records[i].points.Some?
    ensures Effective(Assemble(files, records, entries)) ==
            Plan(FileWrites(files) + RouteWrites(records) + TagWrites(entries), true)
    ensures Sound(FileWrites(files) + RouteWrites(records) + TagWrites(entries))
  {
    var doc := Assemble(files, records, entries);
    var ws := FileWrites(files) + RouteWrites(records) + TagWrites(entries);
    FileKind(files);
    RouteWritesAt(records);
    TagKind(entries);
    hide FileWrites, RouteWrites, TagWrites;
    assert Planned(doc.sections, 0) == Plan([], true);
    assert [] + FileWrites(files) == FileWrites(files);
    assert Planned(doc.sections, 1) == Plan(FileWrites(files), true);
    assert Planned(doc.sections, 2) == Plan(FileWrites(files) + RouteWrites(records), true);
    if entries == [] {
      NoTags();
      assert ws == FileWrites(files) + RouteWrites(records);
    } else {
      assert Planned(doc.sections, 3) == Plan(ws, true);
    }
    NoFailure(ws);
  }

  lemma NoTags()
    ensures TagWrites([]) == []
  {
  }

  lemma {:induction false} LastRecordConcat(a: seq<Write>, b: seq<Write>, file: string)
    ensures LastRecord(a + b, file) == if LastRecord(b, file).Some? then LastRecord(b, file) else LastRecord(a, file)
  {
    hide Normalize;
    if b == [] {
      assert a + b == a;
    } else {
      assert (a + b)[..|a + b| - 1] == a + b[..|b| - 1];
      LastRecordConcat(a, b[..|b| - 1], file);
    }
  }

  lemma {:induction false} NoRecord(ws: seq<Write>, file: string)
    requires forall i :: 0 <= i < |ws| ==> !ws[i].RouteRow?
    ensures LastRecord(ws, file) == None
  {
    if ws != [] {
      NoRecord(ws[..|ws| - 1], file);
    }
  }

  /** Distinct normal names: the last record of a path is its only one. */
  lemma {:induction false} OnlyRecord(names: seq<string>, records: seq<RouteRecord>, file: string)
    requires |names| == |records| && forall i :: 0 <= i < |names| ==> Normalize(records[i].file) == names[i]
    requires forall i, j :: 0 <= i < j < |names| ==> names[i] != names[j]
    ensures LastRecord(RouteWrites(records), file).None? ==> file !in names
    ensures LastRecord(RouteWrites(records), file).Some? ==>
              exists i :: 0 <= i < |names| && names[i] == file &&
                LastRecord(RouteWrites(records), file) == Some(records[i])
  {
    hide Normalize;
    if names != [] {
      var k := |names| - 1;
      OnlyRecord(names[..k], records[..k], file);
      var ws := RouteWrites(records[..k]);
      assert (ws + [RouteRow(records[k])])[..|ws|] == ws;
      assert names == names[..k] + [names[k]];
    }
  }

  lemma {:induction false} MarksOfFiles(files: seq<string>)
    requires forall i :: 0 <= i < |files| ==> Normalize(files[i]) == files[i]
    ensures Marks(FileWrites(files)) == set f | f in files
  {
    hide Normalize;
    if files == [] {
      assert Marks(FileWrites(files)) == {};
    } else {
      var front, last := files[..|files| - 1], files[|files| - 1];
      MarksOfFiles(front);
      MarksSnoc(FileWrites(front), File(Normalize(last)));
      hide Marks;
      assert files == front + [last];
    }
  }

  lemma {:induction false} MarksOfRoutes(names: seq<string>, records: seq<RouteRecord>)
    requires |names| == |records| && forall i :: 0 <= i < |names| ==> Normalize(records[i].file) == names[i]
    ensures Marks(RouteWrites(records)) == set f | f in names
  {
    hide Normalize;
    if names == [] {
      assert Marks(RouteWrites(records)) == {};
    } else {
      var k := |names| - 1;
      MarksOfRoutes(names[..k], records[..k]);
      MarksSnoc(RouteWrites(records[..k]), RouteRow(records[k]));
      hide Marks;
      assert names == names[..k] + [names[k]];
    }
  }

  lemma MarksOfTags(ws: seq<Write>)
    requires OnlyTags(ws)
    ensures Marks(ws) == {}
  {
  }

  lemma {:induction false} TagPairsConcat(a: seq<Write>, b: seq<Write>)
    ensures TagPairs(a + b) == TagPairs(a) + TagPairs(b)
  {
    if b == [] {
      assert a + b == a && TagPairs(b) == {};
    } else {
      var front, w := b[..|b| - 1], b[|b| - 1];
      assert a + b == (a + front) + [w] && b == front + [w];
      TagPairsConcat(a, front);
      MarksSnoc(a + front, w);
      MarksSnoc(front, w);
      hide Marks, TagPairs;
    }
  }

  lemma {:induction false} PairsOfKey(key: string, tags: seq<string>)
    ensures TagPairs(KeyWrites(key, tags)) == set t | t in tags && t != "" :: (key, t)
  {
    if tags == [] {
      assert TagPairs(KeyWrites(key, tags)) == {};
    } else {
      var front, last := tags[..|tags| - 1], tags[|tags| - 1];
      PairsOfKey(key, front);
      MarksSnoc(KeyWrites(key, front), Tag(key, last));
      hide Marks, TagPairs;
      assert tags == front + [last];
    }
  }

  ghost function Tagged(pairs: set<(string, string)>): set<(string, string)> {
    set p | p in pairs && p.1 != ""
  }

  lemma {:induction false} PairsOfTagWrites(entries: seq<Entry>)
    ensures TagPairs(TagWrites(entries)) == Tagged(PairsOf(entries))
  {
    hide KeyWrites;
    if entries == [] {
      assert TagPairs(TagWrites(entries)) == {};
    } else {
      var front, last := entries[..|entries| - 1], entries[|entries| - 1];
      PairsOfTagWrites(front);
      PairsOfKey(last.0, last.1);
      TagPairsConcat(TagWrites(front), KeyWrites(last.0, last.1));
      hide Marks, TagPairs;
      assert Tagged(PairsOf(entries)) == Tagged(PairsOf(front)) + set t | t in last.1 && t != "" :: (last.0, t);
    }
  }

  lemma NoPairs(ws: seq<Write>)
    requires forall i :: 0 <= i < |ws| ==> !ws[i].Tag?
    ensures TagPairs(ws) == {}
  {
  }

  lemma RecordsAreNormal(db: Content, names: seq<string>, records: seq<RouteRecord>)
    requires NormalPaths(db) && Emission(db, names, records)
    ensures forall i :: 0 <= i < |names| ==> records[i].points.Some? && Normalize(records[i].file) == names[i]
  {
    hide Emits, Normalize;
    forall i | 0 <= i < |names|
      ensures records[i].points.Some? && Normalize(records[i].file) == names[i]
    {
      ColumnsComeBack(names[i], db.routes[names[i]].cols);
    }
  }

  ghost function Restoration(env: Env, doc: Document): Content
    requires Sound(Effective(doc).writes)
  {
    Run(env, EMPTY_DB, Effective(doc).writes)
  }

  lemma RestoredSets(env: Env, db: Content, files: seq<string>, names: seq<string>, records: seq<RouteRecord>,
        entries: seq<Entry>, doc: Document)
    requires Exported(db, files, names, records, entries, doc) && NormalPaths(db)
    ensures Effective(doc).ok && Sound(Effective(doc).writes)
    ensures Restoration(env, doc).processed == db.processed + db.routes.Keys
    ensures Restoration(env, doc).tags == Tagged(db.tags)
  {
    hide Normalize, Emits, Run, Marks, TagPairs, FileWrites, RouteWrites, TagWrites, Effective, PairsOf, Tagged;
    RecordsAreNormal(db, names, records);
    PlanOfExport(files, records, entries);
    var fw, rw, tw := FileWrites(files), RouteWrites(records), TagWrites(entries);
    RunSets(env, EMPTY_DB, fw + rw + tw);
    MarksConcat(fw + rw, tw);
    MarksConcat(fw, rw);
    MarksOfFiles(files);
    MarksOfRoutes(names, records);
    TagKind(entries);
    MarksOfTags(tw);
    FileKind(files);
    RouteWritesAt(records);
    TagPairsConcat(fw + rw, tw);
    NoPairs(fw + rw);
    PairsOfTagWrites(entries);
    assert (set f | f in files) == db.processed;
    assert (set f | f in names) == db.routes.Keys;
  }

  lemma {:induction false} RestoredRow(env: Env, db: Content, files: seq<string>, names: seq<string>,
        records: seq<RouteRecord>, entries: seq<Entry>, doc: Document, file: string)
    requires Exported(db, files, names, records, entries, doc) && NormalPaths(db) && Sound(Effective(doc).writes)
    ensures var after := Restoration(env, doc);
            && (file in after.routes <==> file in db.routes)
            && (file in db.routes ==> (after.routes[file] == db.routes[file] <==> Survives(env, file, db.routes[file])))
  {
    hide Normalize, Emits, Run, Marks, FileWrites, RouteWrites, TagWrites, Effective, PairsOf;
    hide LastRecord, NewRow, Survives;
    RecordsAreNormal(db, names, records);
    PlanOfExport(files, records, entries);
    var fw, rw, tw := FileWrites(files), RouteWrites(records), TagWrites(entries);
    RunRow(env, EMPTY_DB, fw + rw + tw, file);
    LastRecordConcat(fw + rw, tw, file);
    LastRecordConcat(fw, rw, file);
    TagKind(entries);
    FileKind(files);
    NoRecord(tw, file);
    NoRecord(fw, file);
    OnlyRecord(names, records, file);
    if file in db.routes {
      assert file in names;
      RowComesBack(env, file, db.routes[file]);
    }
  }

  /** Restoring an export: routes come back exactly when they survive JSON and hold their own aggregates, tags
      without the empty ones, and the processed files gain the files of the routes. */
  lemma ExportThenRestore(env: Env, db: Content, files: seq<string>, names: seq<string>, records: seq<RouteRecord>,
        entries: seq<Entry>, doc: Document)
    requires Exported(db, files, names, records, entries, doc) && NormalPaths(db)
    ensures Effective(doc).ok && Sound(Effective(doc).writes)
    ensures var after := Restoration(env, doc);
            && after.processed == db.processed + db.routes.Keys
            && (after.tags == db.tags <==> forall p :: p in db.tags ==> p.1 != "")
            && (after.routes == db.routes <==> forall f :: f in db.routes ==> Survives(env, f, db.routes[f]))
  {
    hide Exported, NormalPaths, Run, Effective, Survives;
    RestoredSets(env, db, files, names, records, entries, doc);
    TaggedAll(db.tags);
    hide Tagged;
    forall f
      ensures var after := Restoration(env, doc);
              && (f in after.routes <==> f in db.routes)
              && (f in db.routes ==> (after.routes[f] == db.routes[f] <==> Survives(env, f, db.routes[f])))
    {
      RestoredRow(env, db, files, names, records, entries, doc, f);
    }
    SameMap(env, Restoration(env, doc), db);
  }

  lemma TaggedAll(tags: set<(string, string)>)
    ensures Tagged(tags) == tags <==> forall p :: p in tags ==> p.1 != ""
  {
  }

  lemma SameMap(env: Env, after: Content, db: Content)
    requires forall f :: (f in after.routes <==> f in db.routes) &&
                         (f in db.routes ==> (after.routes[f] == db.routes[f] <==> Survives(env, f, db.routes[f])))
    ensures after.routes == db.routes <==> forall f :: f in db.routes ==> Survives(env, f, db.routes[f])
  {
    hide Survives;
    if forall f :: f in db.routes ==> Survives(env, f, db.routes[f]) {
      assert after.routes.Keys == db.routes.Keys;
    }
  }
}
