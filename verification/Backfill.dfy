/** Populating the aggregate columns of old rows in resumable batches (server/drives/backfill.go),
    beside the live writers. */
module Backfill {
  import opened DriveTypes
  import opened Aggregate
  import opened Blob
  import opened Store

  const BATCH_SIZE := 200

  // ----- filling rows -------------------------------------------------------

  /** A NULL row whose blobs decode receives its aggregates. */
  ghost function FillRow(env: Env, file: string, row: Row): Row {
    match Compute(env, file, row.cols)
    case Ok(a) => if row.agg.None? then row.(agg := Some(a)) else row
    case Bad => row
  }

  ghost function FillSome(env: Env, db: Content, files: set<string>): Content {
    db.(routes := map f | f in db.routes :: if f in files then FillRow(env, f, db.routes[f]) else db.routes[f])
  }

  /** The database with every row filled that can be. */
  ghost function Filled(env: Env, db: Content): Content {
    FillSome(env, db, db.routes.Keys)
  }

  ghost predicate Readable(env: Env, db: Content, files: set<string>) {
    forall f :: f in files && f in db.routes ==> Compute(env, f, db.routes[f].cols).Ok?
  }

  function Min(a: nat, b: nat): nat { if a < b then a else b }

  // ----- one batch ----------------------------------------------------------

  datatype Outcome = Updated(count: nat) | DecodeFailed | TxFailed

  ghost predicate BatchDone(env: Env, before: Content, after: Content, files: set<string>, r: Outcome, commits: bool) {
    match r
    case Updated(n) =>
      && files <= NullRows(before) && |files| == n == Min(200, |NullRows(before)|)
      && Readable(env, before, files) && after == FillSome(env, before, files)
    case DecodeFailed => after == before && files == {} && !Readable(env, before, NullRows(before))
    case TxFailed => after == before && files == {} && NullRows(before) != {} && !commits
  }

  ghost function Elements(batch: seq<string>): set<string> { set f | f in batch }

  method SelectNull(db: Content, limit: nat) returns (batch: seq<string>)
    ensures Elements(batch) <= NullRows(db) && |Elements(batch)| == |batch| == Min(limit, |NullRows(db)|)
  {
    batch := [];
    var pending := set f | f in db.routes && db.routes[f].agg.None?;
    ghost var files := {};
    assert pending == NullRows(db);
    while |batch| < limit && pending != {}
      invariant files <= NullRows(db) && pending == NullRows(db) - files
      invariant |files| == |batch| <= limit && Elements(batch) == files
      decreases |pending|
    {
      var f :| f in pending;
      assert Elements(batch + [f]) == files + {f};
      batch, files, pending := batch + [f], files + {f}, pending - {f};
    }
    Cards(NullRows(db), files);
  }

  lemma Cards(all: set<string>, part: set<string>)
    requires part <= all
    ensures |all - part| == |all| - |part|
  {
  }

  method DecodeRow(file: string, c: Columns) returns (r: Result<RouteRecord>)
    ensures r == Decode(file, c)
  {
    hide ReadPoints, ReadFloat32s, ReadGearRuns;
    var points := DecodePoints(Some(c.points));
    if points.Bad? {
      return Bad;
    }
    var speeds := DecodeFloat32s(c.speeds);
    if speeds.Bad? {
      return Bad;
    }
    var accel := DecodeFloat32s(c.accel);
    if accel.Bad? {
      return Bad;
    }
    var runs := DecodeGearRuns(c.runs);
    if runs.Bad? {
      return Bad;
    }
    r := Ok(RouteRecord(file, c.date, points.value, c.gears, c.ap, speeds.value, accel.value,
                        c.rawPark, c.rawFrames, runs.value,
                        if c.source == "sei" then "" else c.source,
                        if c.signature.Some? then c.signature.value else "",
                        if c.tessie.Some? then c.tessie.value else 0));
  }

  /** The computed values, in the order of the batch, or nothing when a blob does not decode. */
  ghost predicate ComputedAll(env: Env, db: Content, batch: seq<string>, aggs: seq<RouteAggregates>) {
    && |aggs| == |batch|
    && forall k :: 0 <= k < |batch| ==>
         batch[k] in db.routes && Compute(env, batch[k], db.routes[batch[k]].cols) == Ok(aggs[k])
  }

  method ComputeBatch(env: Env, db: Content, batch: seq<string>) returns (aggs: Option<seq<RouteAggregates>>)
    requires forall f :: f in batch ==> f in db.routes
    ensures aggs.Some? ==> ComputedAll(env, db, batch, aggs.value)
    ensures aggs.None? ==> exists f :: f in batch && Compute(env, f, db.routes[f].cols).Bad?
  {
    hide Decode, Aggregated;
    var done := [];
    for k := 0 to |batch|
      invariant ComputedAll(env, db, batch[..k], done)
    {
      var f := batch[k];
      var r := DecodeRow(f, db.routes[f].cols);
      if r.Bad? {
        assert f in batch;
        return None;
      }
      var a := ComputeRouteAggregates(env.dist, AsRoute(env, r.value));
      assert Aggregated(env, r.value) == a by { AggregatedIs(env, r.value); }
      done := done + [a];
    }
    assert batch[..|batch|] == batch;
    return Some(done);
  }

  lemma AggregatedIs(env: Env, r: RouteRecord)
    ensures Aggregated(env, r) == AggregatesOf(env.dist, AsRoute(env, r))
  {
  }

  method WriteBatch(env: Env, db: Content, batch: seq<string>, aggs: seq<RouteAggregates>, ghost files: set<string>)
    returns (after: Content)
    requires ComputedAll(env, db, batch, aggs)
    requires files <= NullRows(db) && forall f :: f in files <==> f in batch
    ensures after == FillSome(env, db, files)
  {
    hide Compute;
    var routes := db.routes;
    for k := 0 to |batch|
      invariant routes.Keys == db.routes.Keys
      invariant forall f :: f in routes ==>
                  routes[f] == if f in batch[..k] then FillRow(env, f, db.routes[f]) else db.routes[f]
    {
      var f := batch[k];
      assert batch[..k + 1] == batch[..k] + [f];
      assert f in files;
      routes := routes[f := db.routes[f].(agg := Some(aggs[k]))];
    }
    assert batch[..|batch|] == batch;
    after := db.(routes := routes);
  }

  method BackfillOneBatch(env: Env, d: Database, commits: bool) returns (r: Outcome, ghost files: set<string>)
    modifies d
    ensures BatchDone(env, old(d.db), d.db, files, r, commits)
  {
    hide Compute, FillRow;
    var batch := SelectNull(d.db, BATCH_SIZE);
    files := Elements(batch);
    assert forall f :: f in batch ==> f in files;
    if |batch| == 0 {
      assert files == {};
      NothingToFill(env, d.db);
      return Updated(0), files;
    }
    var aggs := ComputeBatch(env, d.db, batch);
    if aggs.None? {
      return DecodeFailed, {};
    }
    var after := WriteBatch(env, d.db, batch, aggs.value, files);
    if !commits {
      return TxFailed, {};
    }
    d.db := after;
    return Updated(|batch|), files;
  }

  lemma NothingToFill(env: Env, db: Content)
    ensures FillSome(env, db, {}) == db
  {
    hide FillRow;
    assert FillSome(env, db, {}).routes == db.routes;
  }

  // ----- the drain loop -----------------------------------------------------

  datatype Event = Proceed | Cancelled | DiskFull | TxError
  datatype Error = ErrCancelled | ErrDiskFull | ErrTx | ErrDecode

  lemma FillTwice(env: Env, db: Content, a: set<string>, b: set<string>)
    requires b <= NullRows(FillSome(env, db, a))
    ensures FillSome(env, FillSome(env, db, a), b) == FillSome(env, db, a + b)
  {
    hide Compute;
    assert FillSome(env, FillSome(env, db, a), b).routes == FillSome(env, db, a + b).routes;
  }

  lemma FillRemovesNulls(env: Env, db: Content, files: set<string>)
    requires files <= NullRows(db) && Readable(env, db, files)
    ensures NullRows(FillSome(env, db, files)) == NullRows(db) - files
    ensures |NullRows(FillSome(env, db, files))| == |NullRows(db)| - |files|
  {
    hide Compute;
    assert NullRows(FillSome(env, db, files)) == NullRows(db) - files;
    Cards(NullRows(db), files);
  }

  lemma FillKeepsColumns(env: Env, db: Content, files: set<string>)
    ensures var after := FillSome(env, db, files);
            && after.routes.Keys == db.routes.Keys
            && forall f :: f in db.routes ==> after.routes[f].cols == db.routes[f].cols
  {
    hide Compute;
  }

  /** The count of NULL rows a run filled, and what stopped it. */
  method BackfillRouteAggregates(env: Env, d: Database, events: nat -> Event)
    returns (updated: nat, err: Option<Error>, ghost done: set<string>)
    modifies d
    ensures done <= NullRows(old(d.db)) && Readable(env, old(d.db), done)
    ensures d.db == FillSome(env, old(d.db), done) && updated == |done|
    ensures updated + |NullRows(d.db)| == |NullRows(old(d.db))|
    ensures err.None? ==> NullRows(d.db) == {}
    ensures (forall i :: events(i) == Proceed) ==> (err.None? <==> Readable(env, old(d.db), NullRows(old(d.db))))
  {
    hide *;
    ghost var db0 := d.db;
    updated, err, done := 0, None, {};
    StartBackfill(env, db0);
    var i := 0;
    while true
      invariant done <= NullRows(db0) && Readable(env, db0, done) && updated == |done|
      invariant d.db == FillSome(env, db0, done) && NullRows(d.db) == NullRows(db0) - done
      invariant updated + |NullRows(d.db)| == |NullRows(db0)|
      decreases |NullRows(d.db)|
    {
      if events(i) == Cancelled {
        err := Some(ErrCancelled);
        return;
      }
      ghost var before := d.db;
      var r, files := BackfillOneBatch(env, d, events(i) == Proceed);
      BatchMeans(env, before, d.db, files, r, events(i) == Proceed);
      match r {
        case DecodeFailed =>
          UnreadableNull(env, db0, done);
          err := Some(ErrDecode);
          return;
        case TxFailed =>
          err := Some(if events(i) == DiskFull then ErrDiskFull else ErrTx);
          return;
        case Updated(n) =>
          if n == 0 {
            AllRead(env, db0, done);
            return;
          }
          StillReadable(env, db0, done, files);
          FillTwice(env, db0, done, files);
          FillRemovesNulls(env, before, files);
          assert |done + files| == |done| + |files|;
          done := done + files;
          updated := updated + n;
      }
      i := i + 1;
    }
  }

  lemma StartBackfill(env: Env, db: Content)
    ensures FillSome(env, db, {}) == db && NullRows(db) - {} == NullRows(db) && Readable(env, db, {})
  {
    NothingToFill(env, db);
  }

  lemma BatchMeans(env: Env, before: Content, after: Content, files: set<string>, r: Outcome, commits: bool)
    requires BatchDone(env, before, after, files, r, commits)
    ensures r.Updated? ==> files <= NullRows(before) && |files| == r.count
    ensures r.Updated? ==> Readable(env, before, files) && after == FillSome(env, before, files)
    ensures r == Updated(0) ==> NullRows(before) == {} && after == before
    ensures !r.Updated? ==> after == before
    ensures r.DecodeFailed? ==> !Readable(env, before, NullRows(before))
    ensures r.TxFailed? ==> !commits
  {
    hide Compute, FillRow;
    if r == Updated(0) {
      assert files == {};
      NothingToFill(env, before);
    }
  }

  lemma UnreadableNull(env: Env, db0: Content, done: set<string>)
    requires var db := FillSome(env, db0, done);
             NullRows(db) == NullRows(db0) - done && !Readable(env, db, NullRows(db))
    ensures !Readable(env, db0, NullRows(db0))
  {
    hide Compute;
    FillKeepsColumns(env, db0, done);
  }

  lemma AllRead(env: Env, db0: Content, done: set<string>)
    requires Readable(env, db0, done) && done <= NullRows(db0) && NullRows(db0) - done == {}
    ensures Readable(env, db0, NullRows(db0))
  {
    hide Compute;
    assert NullRows(db0) == (NullRows(db0) - done) + done;
  }

  lemma StillReadable(env: Env, db0: Content, done: set<string>, files: set<string>)
    requires Readable(env, db0, done) && Readable(env, FillSome(env, db0, done), files)
    ensures Readable(env, db0, done + files)
  {
    hide Compute;
    FillKeepsColumns(env, db0, done);
  }

  // ----- interleavings ------------------------------------------------------

  /** The database and the values computed for the batch in flight. */
  datatype State = State(db: Content, batch: Option<map<string, RouteAggregates>>)

  datatype Step =
    | Read(files: set<string>)
    | Commit
    | Abandon          // crash, cancellation, rollback or a blob that does not decode
    | Add(r: RouteRecord)
    | Mark(path: string)
    | Clear            // ClearProcessedForReprocess

  ghost predicate CanRead(env: Env, db: Content, files: set<string>) {
    files != {} && files <= NullRows(db) && |files| == Min(200, |NullRows(db)|) && Readable(env, db, files)
  }

  ghost predicate Enabled(env: Env, s: State, step: Step) {
    match step
    case Read(files) => s.batch.None? && CanRead(env, s.db, files)
    case Commit => s.batch.Some?
    case Abandon => true
    case Add(r) => s.batch.Some? ==> Normalize(r.file) !in s.batch.value
    case Mark(path) => true
    case Clear => true
  }

  ghost function Values(env: Env, db: Content, files: set<string>): map<string, RouteAggregates>
    requires Readable(env, db, files)
  {
    map f | f in files && f in db.routes :: Compute(env, f, db.routes[f].cols).value
  }

  /** UPDATE ... WHERE file = ?, once per value. */
  ghost function Updates(db: Content, batch: map<string, RouteAggregates>): Content {
    db.(routes := map f | f in db.routes :: if f in batch then db.routes[f].(agg := Some(batch[f])) else db.routes[f])
  }

  ghost function Next(env: Env, s: State, step: Step): State
    requires Enabled(env, s, step)
  {
    match step
    case Read(files) => State(s.db, Some(Values(env, s.db, files)))
    case Commit => State(Updates(s.db, s.batch.value), None)
    case Abandon => State(s.db, None)
    case Add(r) => State(WithRoute(env, s.db, r), s.batch)
    case Mark(path) => State(s.db.(processed := s.db.processed + {Normalize(path)}), s.batch)
    case Clear => State(s.db.(processed := {}), s.batch)
  }

  ghost predicate CanRun(env: Env, s: State, steps: seq<Step>)
    decreases |steps|
  {
    steps == [] || (Enabled(env, s, steps[0]) && CanRun(env, Next(env, s, steps[0]), steps[1..]))
  }

  ghost function Final(env: Env, s: State, steps: seq<Step>): State
    requires CanRun(env, s, steps)
    decreases |steps|
  {
    if steps == [] then s else Final(env, Next(env, s, steps[0]), steps[1..])
  }

  /** The batch in flight holds what its rows, still NULL, will need. */
  ghost predicate FreshBatch(env: Env, s: State) {
    s.batch.Some? ==> forall f :: f in s.batch.value ==>
      f in NullRows(s.db) && Compute(env, f, s.db.routes[f].cols) == Ok(s.batch.value[f])
  }

  ghost predicate Inv(env: Env, s: State) {
    Consistent(env, s.db) && FreshBatch(env, s)
  }

  lemma CommitIsFill(env: Env, s: State)
    requires FreshBatch(env, s) && s.batch.Some?
    ensures Updates(s.db, s.batch.value) == FillSome(env, s.db, s.batch.value.Keys)
    ensures s.batch.value.Keys <= NullRows(s.db) && Readable(env, s.db, s.batch.value.Keys)
  {
    hide Compute;
    assert Updates(s.db, s.batch.value).routes == FillSome(env, s.db, s.batch.value.Keys).routes;
  }

  lemma FillKeepsConsistent(env: Env, db: Content, files: set<string>)
    requires Consistent(env, db)
    ensures Consistent(env, FillSome(env, db, files)) && FillSome(env, db, files).routes.Keys == db.routes.Keys
  {
    hide Compute;
  }

  lemma AddApart(env: Env, s: State, r: RouteRecord)
    requires FreshBatch(env, s) && Enabled(env, s, Add(r))
    ensures FreshBatch(env, Next(env, s, Add(r)))
  {
    hide Compute, Aggregated, LiveColumns, Normalize;
  }

  lemma {:induction false} ReadIsFresh(env: Env, s: State, files: set<string>)
    requires Enabled(env, s, Read(files))
    ensures FreshBatch(env, Next(env, s, Read(files))) && Next(env, s, Read(files)).batch.value.Keys == files
  {
    hide Compute;
  }

  /** Every step keeps the invariant and creates no NULL row; every step but Clear keeps the routes processed. */
  lemma StepKeeps(env: Env, s: State, step: Step)
    requires Inv(env, s) && Enabled(env, s, step)
    ensures Inv(env, Next(env, s, step)) && NullRows(Next(env, s, step).db) <= NullRows(s.db)
    ensures step != Clear && Tracked(s.db) ==> Tracked(Next(env, s, step).db)
  {
    match step
    case Read(files) =>
      ReadIsFresh(env, s, files);
    case Commit =>
      hide Compute, FillRow, Updates;
      CommitIsFill(env, s);
      FillKeepsConsistent(env, s.db, s.batch.value.Keys);
      FillRemovesNulls(env, s.db, s.batch.value.Keys);
    case Abandon =>
    case Add(r) =>
      AddRouteKeeps(env, s.db, r);
      AddApart(env, s, r);
      hide WithRoute, Consistent, FreshBatch, Tracked, NullRows;
    case Mark(path) =>
      hide Compute, Normalize;
    case Clear =>
      hide Compute;
  }

  /** Over any run; a run without Clear keeps every route processed. */
  lemma {:induction false} RunKeeps(env: Env, s: State, steps: seq<Step>)
    requires Inv(env, s) && CanRun(env, s, steps)
    ensures Inv(env, Final(env, s, steps)) && NullRows(Final(env, s, steps).db) <= NullRows(s.db)
    ensures Clear !in steps && Tracked(s.db) ==> Tracked(Final(env, s, steps).db)
    decreases |steps|
  {
    if steps != [] {
      hide Inv, NullRows, Enabled, Next, Tracked;
      StepKeeps(env, s, steps[0]);
      RunKeeps(env, Next(env, s, steps[0]), steps[1..]);
    }
  }

  /** A commit of a non-empty batch lowers the number of NULL rows by its size. */
  lemma {:induction false} CommitDrains(env: Env, s: State)
    requires Inv(env, s) && s.batch.Some? && s.batch.value != map[]
    ensures |NullRows(Next(env, s, Commit).db)| == |NullRows(s.db)| - |s.batch.value| < |NullRows(s.db)|
  {
    hide Compute, FillRow, Updates;
    CommitIsFill(env, s);
    var keys := s.batch.value.Keys;
    FillRemovesNulls(env, s.db, keys);
    assert |keys| == |s.batch.value|;
    NoKeys(s.batch.value);
  }

  lemma NoKeys(m: map<string, RouteAggregates>)
    ensures m.Keys == {} ==> m == map[]
  {
  }

  // ----- confluence ---------------------------------------------------------

  predicate IsLive(step: Step) { step.Add? || step.Mark? || step.Clear? }

  /** The live writes among the steps. */
  ghost function Live(steps: seq<Step>): seq<Step> {
    if steps == [] then []
    else if IsLive(steps[0]) then [steps[0]] + Live(steps[1..])
    else Live(steps[1..])
  }

  ghost function Apply(env: Env, db: Content, step: Step): Content {
    match step
    case Add(r) => WithRoute(env, db, r)
    case Mark(path) => db.(processed := db.processed + {Normalize(path)})
    case Clear => db.(processed := {})
    case _ => db
  }

  ghost function ApplyAll(env: Env, db: Content, steps: seq<Step>): Content
    decreases |steps|
  {
    if steps == [] then db else ApplyAll(env, Apply(env, db, steps[0]), steps[1..])
  }

  lemma FillCommutes(env: Env, db: Content, r: RouteRecord)
    ensures Filled(env, WithRoute(env, db, r)) == WithRoute(env, Filled(env, db), r)
  {
    hide Compute, Aggregated, LiveColumns, Normalize;
    var n := Normalize(r.file);
    FillKeepsColumns(env, db, db.routes.Keys);
    assert Stored(Filled(env, db), n) == Stored(db, n);
    assert Filled(env, WithRoute(env, db, r)).routes == WithRoute(env, Filled(env, db), r).routes;
  }

  lemma {:induction false} StepFills(env: Env, s: State, step: Step)
    requires Inv(env, s) && Enabled(env, s, step)
    ensures Filled(env, Next(env, s, step).db) == Apply(env, Filled(env, s.db), step)
  {
    match step
    case Commit =>
      hide Compute;
      CommitIsFill(env, s);
      FillAfterFill(env, s.db, s.batch.value.Keys);
    case Add(r) =>
      FillCommutes(env, s.db, r);
    case Mark(path) =>
      hide FillRow, Normalize;
    case Clear =>
      hide FillRow;
    case _ =>
  }

  lemma FillAfterFill(env: Env, db: Content, files: set<string>)
    ensures Filled(env, FillSome(env, db, files)) == Filled(env, db)
  {
    hide Compute;
    assert Filled(env, FillSome(env, db, files)).routes == Filled(env, db).routes;
  }

  /** What a run leads to depends on its live writes alone. */
  lemma {:induction false} RunFills(env: Env, s: State, steps: seq<Step>)
    requires Inv(env, s) && CanRun(env, s, steps)
    ensures Filled(env, Final(env, s, steps).db) == ApplyAll(env, Filled(env, s.db), Live(steps))
    decreases |steps|
  {
    if steps != [] {
      hide Inv, Filled, Enabled, Next, WithRoute;
      StepKeeps(env, s, steps[0]);
      StepFills(env, s, steps[0]);
      RunFills(env, Next(env, s, steps[0]), steps[1..]);
      if IsLive(steps[0]) {
        assert Live(steps)[1..] == Live(steps[1..]);
      }
    }
  }

  ghost predicate Drained(env: Env, db: Content) {
    forall f :: f in NullRows(db) ==> Compute(env, f, db.routes[f].cols).Bad?
  }

  lemma DrainedIsFilled(env: Env, db: Content)
    requires Drained(env, db)
    ensures Filled(env, db) == db
  {
    hide Compute;
    assert Filled(env, db).routes == db.routes;
  }

  /** Two drained runs with the same live writes end in the same table, wherever batches were cut,
      abandoned or crashed. */
  lemma BackfillIsConfluent(env: Env, db: Content, one: seq<Step>, two: seq<Step>)
    requires Inv(env, State(db, None)) && CanRun(env, State(db, None), one) && CanRun(env, State(db, None), two)
    requires Live(one) == Live(two)
    requires Drained(env, Final(env, State(db, None), one).db) && Drained(env, Final(env, State(db, None), two).db)
    ensures Final(env, State(db, None), one).db == Final(env, State(db, None), two).db
  {
    hide Inv, Drained, Filled;
    RunFills(env, State(db, None), one);
    RunFills(env, State(db, None), two);
    DrainedIsFilled(env, Final(env, State(db, None), one).db);
    DrainedIsFilled(env, Final(env, State(db, None), two).db);
  }

  // ----- a write to a file of the batch in flight ---------------------------

  /** Committing keeps populated rows consistent exactly when every value still is what the row's present blobs give. */
  lemma StaleBatch(env: Env, db: Content, batch: map<string, RouteAggregates>)
    requires Consistent(env, db)
    ensures Consistent(env, Updates(db, batch)) <==>
            forall f :: f in batch && f in db.routes ==> Compute(env, f, db.routes[f].cols) == Ok(batch[f])
  {
    hide Compute;
    var after := Updates(db, batch);
    assert after.routes.Keys == db.routes.Keys;
    forall f | f in batch && f in db.routes
      ensures after.routes[f] == db.routes[f].(agg := Some(batch[f]))
    {
    }
  }

  ghost function OnePoint(g: Gps, n: nat): RouteRecord {
    RouteRecord("clip", "", Some(seq(n, _ => g)), None, None, None, None, 0, 0, None, "", "", 0)
  }

  lemma {:induction false} AllValid(valid: seq<bool>, k: nat)
    requires k <= |valid| && forall i :: 0 <= i < |valid| ==> valid[i]
    ensures CountValid(valid, k) == k
  {
    if k > 0 {
      AllValid(valid, k - 1);
    }
  }

  lemma PointsCounted(env: Env, g: Gps, n: nat)
    requires env.f64(g.lat) >= 1.0
    ensures Aggregated(env, OnePoint(g, n)).validPoints == n
  {
    hide FirstValid, LastValid;
    var r := AsRoute(env, OnePoint(g, n));
    AllValid(NonNull(r.points), n);
  }

  /** A clip that the live path replaces while its old blobs are in flight: the commit overwrites the new
      aggregates with the old ones, which is harmless only if they are the same. */
  lemma {:induction false} SameFileRace(env: Env, db: Content, file: string, r: RouteRecord)
    requires Consistent(env, db) && file in NullRows(db) && Compute(env, file, db.routes[file].cols).Ok?
    requires Normalize(r.file) == file && r.points.Some? && r.points.value != []
    ensures Consistent(env, Updates(WithRoute(env, db, r), Values(env, db, {file}))) <==>
            Compute(env, file, db.routes[file].cols) == Ok(Aggregated(env, r))
  {
    hide Compute, Aggregated, LiveColumns, Normalize;
    AddRouteKeeps(env, db, r);
    LiveRowIsConsistent(env, file, Stored(db, file), r);
    StaleBatch(env, WithRoute(env, db, r), Values(env, db, {file}));
  }

  /** They need not be the same: a clip of one point and one of two. */
  lemma AggregatesDiffer(env: Env, g: Gps)
    requires env.f64(g.lat) >= 1.0
    ensures Aggregated(env, OnePoint(g, 1)) != Aggregated(env, OnePoint(g, 2))
  {
    hide Aggregated;
    PointsCounted(env, g, 1);
    PointsCounted(env, g, 2);
  }
}
