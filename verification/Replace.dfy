/** Replacing the database from a document in batches of 200 writes (server/drives/replace.go).
    A crash keeps what was committed; everything else is gone. */
module Replace {
  import opened DriveTypes
  import opened Store
  import opened Import

  /** The contents committed by the full batches of a list of writes. */
  ghost predicate FullBatches(env: Env, base: Content, log: seq<Write>, history: seq<Content>) {
    && Sound(log) && 200 * |history| <= |log|
    && forall i :: 0 <= i < |history| ==> history[i] == Run(env, base, log[..200 * (i + 1)])
  }

  lemma FullBatchesGrow(env: Env, base: Content, log: seq<Write>, history: seq<Content>, w: Write)
    requires FullBatches(env, base, log, history) && !Fails(w)
    ensures FullBatches(env, base, log + [w], history)
  {
    hide Fails, Run;
    forall i | 0 <= i < |history|
      ensures history[i] == Run(env, base, (log + [w])[..200 * (i + 1)])
    {
      assert (log + [w])[..200 * (i + 1)] == log[..200 * (i + 1)];
    }
  }

  lemma {:induction false} FullBatchesAdd(env: Env, base: Content, log: seq<Write>, history: seq<Content>)
    requires FullBatches(env, base, log, history) && |log| == 200 * (|history| + 1)
    ensures FullBatches(env, base, log, history + [Run(env, base, log)])
  {
    hide Fails, Run;
    assert log[..|log|] == log;
  }

  lemma RunSnoc(env: Env, base: Content, log: seq<Write>, w: Write)
    requires Sound(log) && !Fails(w)
    ensures Sound(log + [w]) && Run(env, base, log + [w]) == Apply(env, Run(env, base, log), w)
  {
    hide Fails, Run, Apply;
    RunConcat(env, base, log, [w]);
    RunOne(env, Run(env, base, log), w);
  }

  class BatchWriter {
    const env: Env
    const d: Database
    var tx: Option<Content>
    var count: nat
    ghost const base: Content
    ghost var log: seq<Write>
    ghost var history: seq<Content>

    /** The open transaction holds every write; the database the first `|log| - count` of them. */
    ghost predicate Open()
      reads this, d
    {
      && count <= |log| && 200 * |history| <= |log| - count && FullBatches(env, base, log, history)
      && d.db == Run(env, base, log[..|log| - count])
      && (match tx case None => count == 0 case Some(c) => c == Run(env, base, log))
    }

    /** Batches are cut after every 200 writes. */
    ghost predicate Valid()
      reads this, d
    {
      Open() && count < 200 && |log| - count == 200 * |history|
    }

    constructor (env: Env, d: Database)
      ensures Valid() && this.d == d && this.env == env && base == d.db && log == [] && history == []
    {
      this.env, this.d, tx, count := env, d, None, 0;
      base, log, history := d.db, [], [];
      new;
      RunNone(env, d.db, []);
    }

    method Ensure()
      requires Open()
      modifies this`tx
      ensures Open() && tx.Some?
    {
      if tx.None? {
        assert log[..|log|] == log;
        tx := Some(d.db);
      }
    }

    /** A write in the open transaction, and the commit it may trigger. */
    method Wrote(content: Content, ghost w: Write)
      requires Valid() && tx.Some? && !Fails(w) && content == Apply(env, tx.value, w)
      modifies this, d
      ensures Valid() && log == old(log) + [w]
    {
      hide Run, Apply, Fails;
      RunSnoc(env, base, log, w);
      FullBatchesGrow(env, base, log, history, w);
      assert (log + [w])[..|log| - count] == log[..|log| - count];
      tx, count, log := Some(content), count + 1, log + [w];
      MaybeFlush();
    }

    method MaybeFlush()
      requires Open() && count <= 200 && |log| - count == 200 * |history|
      modifies this, d
      ensures Valid() && log == old(log)
    {
      hide Run;
      if count >= 200 {
        Flush();
        FullBatchesAdd(env, base, log, history);
        history := history + [Run(env, base, log)];
      }
    }

    method Flush()
      requires Open()
      modifies this`tx, this`count, d
      ensures Open() && tx.None? && count == 0 && d.db == Run(env, base, log)
    {
      hide Run;
      assert log[..|log|] == log;
      if tx.None? {
        return;
      }
      d.db := tx.value;
      tx, count := None, 0;
    }

    /** Rolls back what is not committed. */
    method Close()
      requires Open()
      modifies this`tx, this`count, this`log
      ensures Open() && tx.None? && log == old(log)[..|old(log)| - old(count)] && d.db == Run(env, base, log)
      ensures history == old(history)
    {
      hide Run;
      CutLog(env, base, log, history, |log| - count);
      log := log[..|log| - count];
      assert log[..|log|] == log;
      tx, count := None, 0;
    }

    method WriteProcessedFile(path: string)
      requires Valid()
      modifies this, d
      ensures Valid() && log == old(log) + [File(path)]
    {
      hide Run;
      Ensure();
      var c := tx.value;
      Wrote(c.(processed := c.processed + {path}), File(path));
    }

    /** False when the row is refused; the caller then gives up. */
    method WriteRoute(r: RouteRecord) returns (newFile: bool, ok: bool)
      requires Valid()
      modifies this, d
      ensures Valid() && ok == !Fails(RouteRow(r)) && log == if ok then old(log) + [RouteRow(r)] else old(log)
      ensures ok ==> newFile == (Normalize(r.file) !in old(base.processed + Marks(log)))
    {
      hide Run, Marks, Normalize, Apply;
      RunSets(env, base, log);
      Ensure();
      if r.points.None? {
        return false, false;
      }
      var c;
      c, newFile := Import.WriteRoute(env, tx.value, r);
      Wrote(c, RouteRow(r));
      ok := true;
    }

    method WriteDriveTag(key: string, tag: string)
      requires Valid()
      modifies this, d
      ensures Valid() && log == old(log) + [Tag(key, tag)]
    {
      hide Run;
      Ensure();
      var c := tx.value;
      Wrote(c.(tags := c.tags + {(key, tag)}), Tag(key, tag));
    }
  }

  lemma CutLog(env: Env, base: Content, log: seq<Write>, history: seq<Content>, n: nat)
    requires FullBatches(env, base, log, history) && n <= |log|
    ensures Sound(log[..n]) && (200 * |history| <= n ==> FullBatches(env, base, log[..n], history))
  {
    hide Fails, Run;
    if 200 * |history| <= n {
      forall i | 0 <= i < |history|
        ensures history[i] == Run(env, base, log[..n][..200 * (i + 1)])
      {
        assert log[..n][..200 * (i + 1)] == log[..200 * (i + 1)];
      }
    }
  }

  // ----- streaming a section into batches -----------------------------------

  ghost predicate Streaming(bt: BatchWriter, log0: seq<Write>, s: Section, n: nat)
    reads bt, bt.d
  {
    bt.Valid() && n <= |SectionWrites(s)| && bt.log == log0 + SectionWrites(s)[..n]
  }

  method ReplaceProcessedFiles(bt: BatchWriter, s: Section) returns (count: nat, ok: bool)
    requires bt.Valid() && s.ProcessedFiles?
    modifies bt, bt.d
    ensures Streaming(bt, old(bt.log), s, |SectionWrites(s)|)
    ensures Streamed(s, |SectionWrites(s)|, ok) && count == |s.paths|
  {
    hide Run, BatchWriter.Valid, Normalize;
    count := 0;
    for k := 0 to |s.paths|
      invariant bt.Valid() && bt.log == old(bt.log) + FileWrites(s.paths[..k]) && count == k
    {
      assert s.paths[..k + 1][..k] == s.paths[..k];
      bt.WriteProcessedFile(Normalize(s.paths[k]));
      assert bt.log == old(bt.log) + FileWrites(s.paths[..k + 1]);
      count := count + 1;
    }
    assert s.paths[..|s.paths|] == s.paths;
    ghost var ws := SectionWrites(s);
    assert ws[..|ws|] == ws;
    FileKind(s.paths);
    ok := s.ends;
  }

  method ReplaceRoutes(bt: BatchWriter, s: Section) returns (count: nat, files: nat, ok: bool)
    requires bt.Valid() && s.Routes?
    modifies bt, bt.d
    ensures Streaming(bt, old(bt.log), s, count) && Streamed(s, count, ok)
    ensures files == FileCount(bt.base.processed + Marks(old(bt.log)), SectionWrites(s)[..count])
  {
    hide Run, BatchWriter.Valid, Normalize, RouteWrites, Marks;
    RouteWritesAt(s.records);
    ghost var ws, log0 := SectionWrites(s), bt.log;
    ghost var marked := bt.base.processed + Marks(log0);
    count, files := 0, 0;
    assert log0 + ws[..0] == log0;
    for k := 0 to |s.records|
      invariant bt.Valid() && bt.log == log0 + ws[..k] && count == k && Sound(ws[..k])
      invariant files == FileCount(marked, ws[..k])
    {
      MarksConcat(log0, ws[..k]);
      assert bt.base.processed + (Marks(log0) + Marks(ws[..k])) == marked + Marks(ws[..k]);
      assert ws[..k + 1][..k] == ws[..k] && ws[..k + 1] == ws[..k] + [ws[k]];
      var newFile;
      newFile, ok := bt.WriteRoute(s.records[k]);
      if !ok {
        return;
      }
      assert bt.log == log0 + ws[..k + 1];
      if newFile {
        files := files + 1;
      }
      count := count + 1;
    }
    ok := s.ends;
  }

  method ReplaceDriveTags(bt: BatchWriter, s: Section) returns (count: nat, ok: bool)
    requires bt.Valid() && s.DriveTags?
    modifies bt, bt.d
    ensures Streaming(bt, old(bt.log), s, |SectionWrites(s)|)
    ensures Streamed(s, |SectionWrites(s)|, ok) && count == |SectionWrites(s)|
  {
    hide Run, BatchWriter.Valid, KeyWrites;
    count := 0;
    for k := 0 to |s.entries|
      invariant bt.Valid() && bt.log == old(bt.log) + TagWrites(s.entries[..k]) && count == |TagWrites(s.entries[..k])|
    {
      assert s.entries[..k + 1][..k] == s.entries[..k];
      ghost var before := bt.log;
      var more := ReplaceKey(bt, s.entries[k].0, s.entries[k].1);
      assert bt.log == old(bt.log) + TagWrites(s.entries[..k + 1]);
      count := count + more;
    }
    assert s.entries[..|s.entries|] == s.entries;
    ghost var ws := SectionWrites(s);
    assert ws[..|ws|] == ws;
    TagKind(s.entries);
    ok := s.ends;
  }

  method ReplaceKey(bt: BatchWriter, key: string, tags: seq<string>) returns (count: nat)
    requires bt.Valid()
    modifies bt, bt.d
    ensures bt.Valid() && bt.log == old(bt.log) + KeyWrites(key, tags) && count == |KeyWrites(key, tags)|
  {
    hide Run, BatchWriter.Valid;
    count := 0;
    for k := 0 to |tags|
      invariant bt.Valid() && bt.log == old(bt.log) + KeyWrites(key, tags[..k]) && count == |KeyWrites(key, tags[..k])|
    {
      assert tags[..k + 1][..k] == tags[..k];
      if tags[k] == "" {
        continue;
      }
      bt.WriteDriveTag(key, tags[k]);
      assert bt.log == old(bt.log) + KeyWrites(key, tags[..k + 1]);
      count := count + 1;
    }
    assert tags[..|tags|] == tags;
  }

  method ReplaceSection(bt: BatchWriter, s: Section, stats0: ImportStats) returns (stats: ImportStats, ok: bool,
        ghost n: nat)
    requires bt.Valid()
    modifies bt, bt.d
    ensures Streaming(bt, old(bt.log), s, n) && Streamed(s, n, ok)
    ensures ok ==> var ws := SectionWrites(s);
                   stats == ImportStats(stats0.routes + RouteCount(ws),
                                        stats0.processedFiles + FileCount(bt.base.processed + Marks(old(bt.log)), ws),
                                        stats0.driveTags + TagCount(ws))
  {
    hide Run, BatchWriter.Valid, FileCount, TagCount, RouteCount, Marks;
    ghost var ws, log0 := SectionWrites(s), bt.log;
    assert ws[..|ws|] == ws;
    SectionKind(s);
    CountsOfKind(bt.base.processed + Marks(log0), ws);
    stats := stats0;
    var count;
    match s {
      case ProcessedFiles(_, _) =>
        count, ok := ReplaceProcessedFiles(bt, s);
        n := |ws|;
        stats := stats.(processedFiles := stats.processedFiles + count);
      case Routes(_, _) =>
        var files;
        count, files, ok := ReplaceRoutes(bt, s);
        n := count;
        stats := stats.(routes := stats.routes + count, processedFiles := stats.processedFiles + files);
      case DriveTags(_, _) =>
        count, ok := ReplaceDriveTags(bt, s);
        n := |ws|;
        stats := stats.(driveTags := stats.driveTags + count);
      case Other(ends) =>
        ok, n := ends, 0;
        assert log0 + ws[..0] == log0;
        NoWrites(bt.base.processed + Marks(log0), ws);
    }
  }

  lemma NoWrites(marked: set<string>, ws: seq<Write>)
    ensures ws == [] ==> FileCount(marked, ws) == 0 == TagCount(ws) && RouteCount(ws) == 0
  {
  }

  /** The database after a replacement that wrote `ws`: all of them, or the full batches only. */
  ghost predicate Replaced(env: Env, after: Content, history: seq<Content>, ws: seq<Write>, ok: bool) {
    && FullBatches(env, EMPTY_DB, ws, history) && |ws| < 200 * (|history| + 1)
    && after == if ok then Run(env, EMPTY_DB, ws) else Run(env, EMPTY_DB, ws[..200 * |history|])
  }

  method ReplaceDataFromReader(env: Env, d: Database, doc: Document)
    returns (stats: ImportStats, ok: bool, ghost history: seq<Content>)
    modifies d
    ensures ok == Effective(doc).ok && Replaced(env, d.db, history, Effective(doc).writes, ok)
    ensures ok ==> var ws := Effective(doc).writes;
                   stats == ImportStats(RouteCount(ws), FileCount({}, ws), TagCount(ws))
  {
    hide Run, Effective, Streamed, SoFar, SectionWrites, FileCount, TagCount, RouteCount, Marks;
    d.db := EMPTY_DB;
    stats := ImportStats(0, 0, 0);
    if !doc.opens {
      NotOpen(doc);
      RunNone(env, d.db, []);
      return stats, false, [];
    }
    var bt := new BatchWriter(env, d);
    StartPlan(env, d.db, doc);
    NoWrites({}, []);
    for k := 0 to |doc.sections|
      invariant bt.Valid() && SoFar(doc, k, bt.log) && fresh(bt) && bt.d == d && bt.base == EMPTY_DB && bt.env == env
      invariant stats == ImportStats(RouteCount(bt.log), FileCount({}, bt.log), TagCount(bt.log))
    {
      hide BatchWriter.Valid;
      ghost var n;
      ghost var ws, log0 := SectionWrites(doc.sections[k]), bt.log;
      CountsConcat({}, log0, ws);
      stats, ok, n := ReplaceSection(bt, doc.sections[k], stats);
      if !ok {
        SectionFails(doc, k, log0, n);
        history := Abandon(bt);
        return;
      }
      WholeSection(doc.sections[k], n);
      NextSection(doc, k, log0, n);
    }
    AllSections(doc, bt.log);
    if !doc.closes {
      history := Abandon(bt);
      ok := false;
      return;
    }
    history := bt.history;
    bt.Flush();
    ok := true;
  }

  /** The error path: roll back and keep the full batches. */
  method Abandon(bt: BatchWriter) returns (ghost history: seq<Content>)
    requires bt.Valid()
    modifies bt
    ensures bt.d.db == old(bt.d.db)
    ensures FullBatches(bt.env, bt.base, old(bt.log), history) && |old(bt.log)| < 200 * (|history| + 1)
    ensures bt.d.db == Run(bt.env, bt.base, old(bt.log)[..200 * |history|])
  {
    hide Run;
    history := bt.history;
    bt.Close();
  }

  // ----- batches against the single transaction -----------------------------

  /** Restoring into an empty database: both ways succeed together, and then agree; on failure the single
      transaction leaves nothing and the batches a prefix that misses fewer than 200 of the writes made. */
  method RestoreBothWays(env: Env, doc: Document)
    returns (single: Content, batched: Content, okSingle: bool, okBatched: bool, ghost kept: nat)
    ensures okSingle == okBatched == Effective(doc).ok
    ensures okSingle ==> single == batched
    ensures !okSingle ==> single == EMPTY_DB
    ensures var ws := Effective(doc).writes;
            kept <= |ws| < kept + 200 && Sound(ws) && (!okBatched ==> batched == Run(env, EMPTY_DB, ws[..kept]))
  {
    hide Run, Effective;
    var a := new Database(EMPTY_DB);
    var b := new Database(EMPTY_DB);
    var stats;
    stats, okSingle := ImportJson(env, a, doc, true);
    ghost var history;
    stats, okBatched, history := ReplaceDataFromReader(env, b, doc);
    single, batched, kept := a.db, b.db, 200 * |history|;
  }

  /** What the database can hold from the wipe on. */
  ghost predicate CrashPoint(db: Content, history: seq<Content>, after: Content) {
    db == EMPTY_DB || db in history || db == after
  }

  /** Whenever the replacement is cut, clips with routes are marked processed and every row is populated
      with the aggregates of its blobs. */
  lemma CrashPointsAreSound(env: Env, after: Content, history: seq<Content>, ws: seq<Write>, ok: bool, db: Content)
    requires Replaced(env, after, history, ws, ok) && CrashPoint(db, history, after)
    ensures Tracked(db) && Consistent(env, db) && NullRows(db) == {}
    ensures exists k: nat :: k <= |ws| && db == Run(env, EMPTY_DB, ws[..k])
  {
    hide Run;
    var k: nat;
    if db == EMPTY_DB {
      k := 0;
      RunNone(env, db, ws);
    } else if db in history {
      var i :| 0 <= i < |history| && history[i] == db;
      k := 200 * (i + 1);
    } else {
      k := if ok then |ws| else 200 * |history|;
      assert ws[..|ws|] == ws;
    }
    hide Compute;
    assert db == Run(env, EMPTY_DB, ws[..k]);
    RunKeeps(env, EMPTY_DB, ws[..k]);
  }

  lemma {:induction false} PlannedEnds(sections: seq<Section>, k: nat)
    requires k <= |sections| && Planned(sections, k).ok
    ensures forall i :: 0 <= i < k ==> sections[i].ends
  {
    hide SectionWrites;
    if k > 0 {
      PlannedEnds(sections, k - 1);
    }
  }

  /** The two imports report the same number of routes exactly when the routes come in one section. */
  lemma RouteStatsAgree(doc: Document)
    requires Effective(doc).ok
    ensures RouteCount(Effective(doc).writes) == LastRoutes(doc.sections, |doc.sections|) <==>
            OneRoutesSection(doc.sections, |doc.sections|)
  {
    hide RouteCount, Planned;
    PlannedEnds(doc.sections, |doc.sections|);
    RoutesPlanned(doc.sections, |doc.sections|);
    LastRoutesIsAll(doc.sections, |doc.sections|);
  }
}
