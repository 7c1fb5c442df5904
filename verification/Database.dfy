/** From the database to the drives: once every row is populated, the drives built from columns are those the
    raw pass builds from the decoded blobs (server/drives/store.go lines 990-1162). */
module Database {
  import opened DriveTypes
  import opened Aggregate
  import opened DriveSummary
  import opened Blob
  import opened Store
  import opened Backfill

  ghost predicate InTable(db: Content, files: seq<string>) {
    forall i :: 0 <= i < |files| ==> files[i] in db.routes
  }

  /** The aggregate columns of the clips of a drive, as the summary query reads them. */
  ghost function ColumnsOf(db: Content, files: seq<string>): seq<RouteAggregates>
    requires InTable(db, files) && NullRows(db) == {}
  {
    seq(|files|, i requires 0 <= i < |files| =>
      assert files[i] !in NullRows(db);
      db.routes[files[i]].agg.value)
  }

  /** The same clips with their blobs decoded. */
  ghost function ClipsOf(env: Env, db: Content, files: seq<string>): seq<Route>
    requires InTable(db, files) && Readable(env, db, db.routes.Keys)
  {
    seq(|files|, i requires 0 <= i < |files| => AsRoute(env, Decode(files[i], db.routes[files[i]].cols).value))
  }

  lemma PopulatedIsReadable(env: Env, db: Content)
    requires Consistent(env, db) && NullRows(db) == {}
    ensures Readable(env, db, db.routes.Keys)
  {
    hide Compute;
    forall f | f in db.routes
      ensures Compute(env, f, db.routes[f].cols).Ok?
    {
      assert f !in NullRows(db);
    }
  }

  lemma ColumnsAreRows(env: Env, db: Content, files: seq<string>)
    requires Consistent(env, db) && NullRows(db) == {} && InTable(db, files)
    ensures Readable(env, db, db.routes.Keys)
    ensures ColumnsOf(db, files) == Rows(env.dist, ClipsOf(env, db, files))
  {
    PopulatedIsReadable(env, db);
    hide Decode, AggregatesOf, Points, Floats;
    var columns, clips := ColumnsOf(db, files), ClipsOf(env, db, files);
    forall i | 0 <= i < |files|
      ensures columns[i] == AggregatesOf(env.dist, clips[i])
    {
      assert files[i] !in NullRows(db);
      assert Compute(env, files[i], db.routes[files[i]].cols) == Ok(columns[i]);
    }
  }

  /** The drive from columns is the drive from blobs, its distance larger by the jumps between clips. */
  ghost predicate SameDrive(env: Env, db: Content, files: seq<string>, median: Option<Point>)
    requires InTable(db, files) && NullRows(db) == {} && Readable(env, db, db.routes.Keys)
  {
    var columns, raw := ColumnsOf(db, files), RawDrive(env.dist, median, ClipsOf(env, db, files));
    CachedDrive(env.dist, columns) == raw.(totals := Farther(raw.totals, Jumps(env.dist, columns, |columns|)))
  }

  lemma DrivesFromColumns(env: Env, db: Content, files: seq<string>, median: Option<Point>)
    requires Consistent(env, db) && NullRows(db) == {} && InTable(db, files)
    requires Readable(env, db, db.routes.Keys) && CleanDrive(env.dist, median, ClipsOf(env, db, files))
    ensures SameDrive(env, db, files, median)
  {
    hide CleanDrive, CachedDrive, RawDrive, Rows, ClipsOf, ColumnsOf, Consistent, Farther, Jumps;
    ColumnsAreRows(env, db, files);
    CachedDriveRefinesRaw(env.dist, median, ClipsOf(env, db, files));
  }

  /** However the backfill was interleaved with live writes, cut and resumed: when no NULL row is left, every
      clean drive reads the same from columns and from blobs. */
  lemma DrivesAfterBackfill(env: Env, db: Content, steps: seq<Step>, files: seq<string>, median: Option<Point>)
    requires Inv(env, State(db, None)) && CanRun(env, State(db, None), steps)
    requires NullRows(Final(env, State(db, None), steps).db) == {}
    requires InTable(Final(env, State(db, None), steps).db, files)
    ensures var after := Final(env, State(db, None), steps).db;
            && Readable(env, after, after.routes.Keys)
            && (CleanDrive(env.dist, median, ClipsOf(env, after, files)) ==> SameDrive(env, after, files, median))
  {
    hide CanRun, Final, CleanDrive, SameDrive, ClipsOf;
    Backfill.RunKeeps(env, State(db, None), steps);
    var after := Final(env, State(db, None), steps).db;
    PopulatedIsReadable(env, after);
    if CleanDrive(env.dist, median, ClipsOf(env, after, files)) {
      DrivesFromColumns(env, after, files, median);
    }
  }
}
