/** The drive database and its live writers (server/drives/store.go, schema.go).
    A transaction is one atomic change of the content. */
module Store {
  import opened Bytes
  import opened DriveTypes
  import opened Aggregate
  import opened Blob

  // ----- records and rows ---------------------------------------------------

  /** A clip as JSON and the processor deliver it; None is a nil slice, floats are bits. */
  datatype RouteRecord = RouteRecord(
    file: string, date: string, points: Option<seq<Gps>>,
    gears: Option<seq<byte>>, ap: Option<seq<byte>>, speeds: Option<seq<uint32>>, accel: Option<seq<uint32>>,
    rawPark: int, rawFrames: int, runs: Option<seq<GearRun>>,
    source: string, signature: string, tessie: uint64)

  /** The stored columns; only the points column is NOT NULL. */
  datatype Columns = Columns(
    date: string, rawPark: int, rawFrames: int, points: seq<byte>,
    gears: Option<seq<byte>>, ap: Option<seq<byte>>, speeds: Option<seq<byte>>, accel: Option<seq<byte>>,
    runs: Option<seq<byte>>, source: string, signature: Option<string>, tessie: Option<uint64>)

  /** `agg` is None as long as the aggregate columns are NULL. */
  datatype Row = Row(cols: Columns, agg: Option<RouteAggregates>)

  datatype Content = Content(routes: map<string, Row>, processed: set<string>, tags: set<(string, string)>)

  const EMPTY_DB := Content(map[], {}, {})

  /** The distance in use and the reading of float bits. */
  datatype Env = Env(dist: Metric, f64: uint64 -> real, f32: uint32 -> real)

  function OrNil<T>(s: Option<seq<T>>): seq<T> {
    match s case None => [] case Some(v) => v
  }

  function Floats(env: Env, vs: seq<uint32>): seq<real> {
    seq(|vs|, i requires 0 <= i < |vs| => env.f32(vs[i]))
  }

  function Points(env: Env, pts: seq<Gps>): seq<Point> {
    seq(|pts|, i requires 0 <= i < |pts| => Point(env.f64(pts[i].lat), env.f64(pts[i].lon)))
  }

  /** What the aggregate pass reads of a record. */
  function AsRoute(env: Env, r: RouteRecord): Route {
    Route("", "", Points(env, OrNil(r.points)), OrNil(r.gears), OrNil(r.ap), Floats(env, OrNil(r.speeds)),
          Floats(env, OrNil(r.accel)), 0, 0, [], "", "", 0.0)
  }

  ghost function Aggregated(env: Env, r: RouteRecord): RouteAggregates {
    AggregatesOf(env.dist, AsRoute(env, r))
  }

  // ----- columns ------------------------------------------------------------

  ghost function Packed<T>(s: Option<seq<T>>, pack: seq<T> -> seq<byte>): Option<seq<byte>> {
    match s case None => None case Some(v) => Some(pack(v))
  }

  predicate IsZero(bits: uint64) { bits == 0 || bits == TWO_63 }

  ghost function PackFloats(vs: seq<uint32>): seq<byte> { Float32sBlob(vs) }
  ghost function PackRuns(rs: seq<GearRun>): seq<byte> { GearRunsBlob(rs) }

  /** The columns an import writes for a record whose points are not nil. */
  ghost function NewColumns(r: RouteRecord): Columns
    requires r.points.Some?
  {
    Columns(r.date, r.rawPark, r.rawFrames, PointsBlob(r.points.value), r.gears, r.ap,
            Packed(r.speeds, PackFloats), Packed(r.accel, PackFloats), Packed(r.runs, PackRuns),
            if r.source == "" then "sei" else r.source,
            if r.signature == "" then None else Some(r.signature),
            if IsZero(r.tessie) then None else Some(r.tessie))
  }

  /** Reading a row back; the source "sei" is left out of the record. */
  ghost function Decode(file: string, c: Columns): Result<RouteRecord> {
    var points := ReadPoints(c.points);
    var speeds, accel := Nullable(c.speeds, ReadFloat32s), Nullable(c.accel, ReadFloat32s);
    var runs := Nullable(c.runs, ReadGearRuns);
    if points.Bad? || speeds.Bad? || accel.Bad? || runs.Bad? then Bad
    else Ok(RouteRecord(file, c.date, Some(points.value), c.gears, c.ap, speeds.value, accel.value,
                        c.rawPark, c.rawFrames, runs.value,
                        if c.source == "sei" then "" else c.source,
                        if c.signature.Some? then c.signature.value else "",
                        if c.tessie.Some? then c.tessie.value else 0))
  }

  /** What comes back of a stored record. */
  ghost function Restored(file: string, r: RouteRecord): RouteRecord {
    r.(file := file, runs := if r.runs.None? then None else Some(NarrowAll(r.runs.value)),
       source := if r.source == "sei" then "" else r.source, tessie := if IsZero(r.tessie) then 0 else r.tessie)
  }

  lemma FloatsBack(s: Option<seq<uint32>>)
    ensures Nullable(Packed(s, PackFloats), ReadFloat32s) == Ok(s)
  {
    hide Float32sBlob, ReadFloat32s;
    if s.Some? {
      Float32sRoundTrip(s.value);
    }
  }

  lemma RunsBack(s: Option<seq<GearRun>>)
    ensures Nullable(Packed(s, PackRuns), ReadGearRuns) == Ok(if s.None? then None else Some(NarrowAll(s.value)))
  {
    hide GearRunsBlob, ReadGearRuns, NarrowAll;
    if s.Some? {
      GearRunsRoundTrip(s.value);
    }
  }

  lemma DecodeOfNewColumns(file: string, r: RouteRecord)
    requires r.points.Some?
    ensures Decode(file, NewColumns(r)) == Ok(Restored(file, r))
  {
    hide PointsBlob, ReadPoints, Nullable, Packed, NarrowAll;
    PointsRoundTrip(r.points.value);
    FloatsBack(r.speeds);
    FloatsBack(r.accel);
    RunsBack(r.runs);
  }

  ghost function Compute(env: Env, file: string, c: Columns): Result<RouteAggregates> {
    match Decode(file, c) case Bad => Bad case Ok(r) => Ok(Aggregated(env, r))
  }

  // ----- the invariants -----------------------------------------------------

  /** Populated rows hold the aggregates of their own blobs. */
  ghost predicate Consistent(env: Env, db: Content) {
    forall f :: f in db.routes && db.routes[f].agg.Some? ==>
      Compute(env, f, db.routes[f].cols) == Ok(db.routes[f].agg.value)
  }

  ghost function NullRows(db: Content): set<string> {
    set f | f in db.routes && db.routes[f].agg.None?
  }

  /** Every clip with a route is marked processed. */
  ghost predicate Tracked(db: Content) {
    db.routes.Keys <= db.processed
  }

  // ----- the live writers ---------------------------------------------------

  /** The live path writes no provenance: an existing row keeps its signature and Tessie percentage. */
  ghost function LiveColumns(before: Option<Columns>, r: RouteRecord): Columns
    requires r.points.Some?
  {
    NewColumns(r).(source := "sei",
                   signature := if before.Some? then before.value.signature else None,
                   tessie := if before.Some? then before.value.tessie else None)
  }

  function Stored(db: Content, file: string): Option<Columns> {
    if file in db.routes then Some(db.routes[file].cols) else None
  }

  ghost function WithRoute(env: Env, db: Content, r: RouteRecord): Content {
    var n := Normalize(r.file);
    db.(processed := db.processed + {n},
        routes := if OrNil(r.points) == [] then db.routes
                  else db.routes[n := Row(LiveColumns(Stored(db, n), r), Some(Aggregated(env, r)))])
  }

  /** A live record decodes to the same points. */
  lemma {:induction false} LiveRowIsConsistent(env: Env, file: string, before: Option<Columns>, r: RouteRecord)
    requires r.points.Some?
    ensures Compute(env, file, LiveColumns(before, r)) == Ok(Aggregated(env, r))
  {
    hide AggregatesOf, NewColumns, Points, Floats;
    DecodeOfNewColumns(file, r);
    ProvenanceApart(file, NewColumns(r), LiveColumns(before, r));
  }

  lemma ProvenanceApart(file: string, a: Columns, b: Columns)
    requires b == a.(source := b.source, signature := b.signature, tessie := b.tessie)
    ensures Decode(file, a).Bad? <==> Decode(file, b).Bad?
    ensures Decode(file, a).Ok? ==>
              var x, y := Decode(file, a).value, Decode(file, b).value;
              x == y.(source := x.source, signature := x.signature, tessie := x.tessie)
  {
    hide ReadPoints, Nullable;
  }

  lemma NewRowIsConsistent(env: Env, file: string, r: RouteRecord)
    requires r.points.Some?
    ensures Compute(env, file, NewColumns(r)) == Ok(Aggregated(env, r))
  {
    hide AggregatesOf, NewColumns, Points, Floats;
    DecodeOfNewColumns(file, r);
  }

  /** AddRoute never leaves a row without aggregates, keeps populated rows consistent and clips tracked. */
  lemma AddRouteKeeps(env: Env, db: Content, r: RouteRecord)
    ensures var after := WithRoute(env, db, r);
            && (Consistent(env, db) ==> Consistent(env, after))
            && (Tracked(db) ==> Tracked(after))
            && NullRows(after) == NullRows(db) - (if OrNil(r.points) == [] then {} else {Normalize(r.file)})
  {
    hide Compute, Aggregated, LiveColumns, Normalize;
    if OrNil(r.points) != [] {
      LiveRowIsConsistent(env, Normalize(r.file), Stored(db, Normalize(r.file)), r);
    }
  }

  function TagsOf(key: string, tags: seq<string>): set<(string, string)> {
    set t | t in tags && t != "" :: (key, t)
  }

  function WithoutKey(tags: set<(string, string)>, key: string): set<(string, string)> {
    set p | p in tags && p.0 != key
  }

  class Database {
    var db: Content

    constructor (content: Content)
      ensures db == content
    {
      db := content;
    }

    /** The database side of AddRoute, for blobs the caller has packed; a failed transaction changes nothing. */
    method AddRoute(env: Env, r: RouteRecord, commits: bool)
      modifies this
      ensures db == if commits then WithRoute(env, old(db), r) else old(db)
    {
      hide AggregatesOf, NewColumns, Normalize;
      var norm := Normalize(r.file);
      var next := db.(processed := db.processed + {norm});
      if r.points.Some? && |r.points.value| > 0 {
        var cols := PackColumns(r);
        var agg := ComputeRouteAggregates(env.dist, AsRoute(env, r));
        var before := Stored(db, norm);
        cols := cols.(source := "sei",
                      signature := if before.Some? then before.value.signature else None,
                      tessie := if before.Some? then before.value.tessie else None);
        next := next.(routes := next.routes[norm := Row(cols, Some(agg))]);
      }
      if commits {
        db := next;
      }
    }

    method MarkProcessed(path: string, commits: bool)
      modifies this
      ensures db == if commits then old(db).(processed := old(db).processed + {Normalize(path)}) else old(db)
    {
      if commits {
        db := db.(processed := db.processed + {Normalize(path)});
      }
    }

    /** The drive's tags become exactly the given ones, empty ones apart; other drives keep theirs. */
    method SetDriveTags(key: string, tags: seq<string>, commits: bool)
      modifies this
      ensures db == if commits then old(db).(tags := WithoutKey(old(db).tags, key) + TagsOf(key, tags)) else old(db)
    {
      var next := WithoutKey(db.tags, key);
      for k := 0 to |tags|
        invariant next == WithoutKey(db.tags, key) + TagsOf(key, tags[..k])
      {
        assert tags[..k + 1] == tags[..k] + [tags[k]];
        if tags[k] == "" {
          continue;
        }
        next := next + {(key, tags[k])};
      }
      assert tags[..|tags|] == tags;
      if commits {
        db := db.(tags := next);
      }
    }

    method ClearProcessedForReprocess(commits: bool)
      modifies this
      ensures db == if commits then old(db).(processed := {}) else old(db)
    {
      if commits {
        db := db.(processed := {});
      }
    }
  }

  method PackColumns(r: RouteRecord) returns (c: Columns)
    requires r.points.Some?
    ensures c == NewColumns(r)
  {
    hide PointsBlob, Float32sBlob, GearRunsBlob;
    var points := EncodePoints(r.points);
    var speeds := EncodeFloat32s(r.speeds);
    var accel := EncodeFloat32s(r.accel);
    var runs := EncodeGearRuns(r.runs);
    c := Columns(r.date, r.rawPark, r.rawFrames, points.value, r.gears, r.ap, speeds, accel, runs,
                 if r.source == "" then "sei" else r.source,
                 if r.signature == "" then None else Some(r.signature),
                 if IsZero(r.tessie) then None else Some(r.tessie));
  }

  /** What GetDriveTags lists after SetDriveTags. */
  lemma TagsAfterSet(tags: set<(string, string)>, key: string, other: string, given: seq<string>, t: string)
    ensures var after := WithoutKey(tags, key) + TagsOf(key, given);
            && ((key, t) in after <==> t in given && t != "")
            && (other != key ==> ((other, t) in after <==> (other, t) in tags))
  {
  }

  /** Reprocessing forgets which clips were processed: the clips with routes stay tracked only if there are none. */
  lemma ReprocessUntracks(db: Content)
    ensures Tracked(db.(processed := {})) <==> db.routes == map[]
  {
    if db.routes.Keys == {} {
      assert db.routes == map[];
    }
  }
}
