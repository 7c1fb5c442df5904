/** The columns of a stored clip byte by byte, and the row that a live write leaves (server/drives/blob.go,
    server/drives/store.go lines 273-532). */
module StoredBytes {
  import opened Bytes
  import opened DriveTypes
  import opened PairWalk
  import opened Aggregate
  import opened Blob
  import opened ClipRow
  import opened Store
  import Export

  // ----- words in a column --------------------------------------------------

  /** Four and eight bytes from `i` on as a number, the low one first. */
  ghost function WordOf(b: seq<byte>, i: nat): int
    requires i + 4 <= |b|
  {
    Four(b[i], b[i + 1], b[i + 2], b[i + 3])
  }

  ghost function LongOf(b: seq<byte>, i: nat): int
    requires i + 8 <= |b|
  {
    WordOf(b, i) + 0x1_0000_0000 * WordOf(b, i + 4)
  }

  /** A word as a signed number. */
  function Signed(w: int): int { if w < 0x8000_0000 then w else w - 0x1_0000_0000 }

  lemma LeHead(s: seq<byte>)
    requires s != []
    ensures Le(s) == s[0] + 0x100 * Le(s[1..])
  {
  }

  lemma {:induction false} LeSplits(s: seq<byte>)
    requires |s| == 8
    ensures Le(s) == LongOf(s, 0)
  {
    LowFirst(s[4..]);
    LeHead(s);
    LeHead(s[1..]);
    LeHead(s[2..]);
    LeHead(s[3..]);
    hide Le;
    assert s[1..][1..] == s[2..] && s[2..][1..] == s[3..] && s[3..][1..] == s[4..];
  }

  lemma {:induction false} RecordAt<T>(buf: seq<byte>, k: nat, get: seq<byte> -> T, n: nat, i: nat)
    requires k > 0 && |buf| == n * k && i < n
    ensures |DecodeAll(buf, k, get)| == n && k * i + k <= |buf|
    ensures DecodeAll(buf, k, get)[i] == get(buf[k * i..k * i + k])
    decreases n
  {
    RecordInside(k, i, n);
    RecordCount(buf, k, get, n);
    if i == n - 1 {
      FinalRecord(buf, k, get, k * i);
    } else {
      var front := buf[..|buf| - k];
      RecordAt(front, k, get, n - 1, i);
      FrontRecord(buf, k, get, k * i, i);
    }
  }

  lemma FinalRecord<T>(buf: seq<byte>, k: nat, get: seq<byte> -> T, at: nat)
    requires k > 0 && at + k == |buf|
    ensures var d := DecodeAll(buf, k, get); d != [] && d[|d| - 1] == get(buf[at..at + k])
  {
    assert buf[|buf| - k..] == buf[at..at + k];
  }

  lemma FrontRecord<T>(buf: seq<byte>, k: nat, get: seq<byte> -> T, at: nat, i: nat)
    requires k > 0 && at + k <= |buf| - k && i < |DecodeAll(buf[..|buf| - k], k, get)|
    ensures DecodeAll(buf, k, get)[i] == DecodeAll(buf[..|buf| - k], k, get)[i]
    ensures buf[..|buf| - k][at..at + k] == buf[at..at + k]
  {
  }

  lemma {:induction false} RecordInside(k: nat, i: nat, n: nat)
    requires i < n
    ensures k * i >= 0 && n * k - k == (n - 1) * k
    ensures if i == n - 1 then k * i + k == n * k else k * i + k <= n * k - k
    decreases n
  {
    if i < n - 1 {
      RecordInside(k, i, n - 1);
    }
  }

  lemma {:induction false} RecordCount<T>(buf: seq<byte>, k: nat, get: seq<byte> -> T, n: nat)
    requires k > 0 && |buf| == n * k
    ensures |DecodeAll(buf, k, get)| == n
    decreases n
  {
    if n > 0 {
      assert n * k == (n - 1) * k + k;
      RecordCount(buf[..|buf| - k], k, get, n - 1);
    }
  }

  // ----- the three formats --------------------------------------------------

  /** Sixteen bytes a point: latitude, longitude. */
  ghost predicate PointsAre(b: seq<byte>, pts: seq<Gps>) {
    && |b| == 16 * |pts|
    && forall i :: 0 <= i < |pts| ==> pts[i].lat == LongOf(b, 16 * i) && pts[i].lon == LongOf(b, 16 * i + 8)
  }

  ghost predicate FloatsAre(b: seq<byte>, vs: seq<uint32>) {
    |b| == 4 * |vs| && forall i :: 0 <= i < |vs| ==> vs[i] == WordOf(b, 4 * i)
  }

  /** Five bytes a gear run: the gear, the frames as a signed word. */
  ghost predicate RunsAre(b: seq<byte>, runs: seq<GearRun>) {
    && |b| == 5 * |runs|
    && forall i :: 0 <= i < |runs| ==> runs[i].gear == b[5 * i] && runs[i].frames == Signed(WordOf(b, 5 * i + 1))
  }

  lemma PointIs(b: seq<byte>, i: nat)
    requires i + 16 <= |b|
    ensures var p := GetPoint(b[i..i + 16]); p.lat == LongOf(b, i) && p.lon == LongOf(b, i + 8)
  {
    LeSplits(b[i..i + 16][..8]);
    LeSplits(b[i..i + 16][8..]);
    hide Le;
  }

  lemma {:induction false} ReadPointsIs(b: seq<byte>)
    ensures ReadPoints(b).Ok? <==> |b| % 16 == 0
    ensures ReadPoints(b).Ok? ==> PointsAre(b, ReadPoints(b).value)
  {
    if |b| % 16 == 0 {
      var n := |b| / 16;
      RecordCount(b, 16, GetPoint, n);
      hide DecodeAll, GetPoint, LongOf;
      forall i | 0 <= i < n
        ensures PointsIn(b)[i].lat == LongOf(b, 16 * i) && PointsIn(b)[i].lon == LongOf(b, 16 * i + 8)
      {
        PointAt(b, n, i);
      }
    }
  }

  lemma {:induction false} PointAt(b: seq<byte>, n: nat, i: nat)
    requires |b| == 16 * n && i < n
    ensures |PointsIn(b)| == n
    ensures PointsIn(b)[i].lat == LongOf(b, 16 * i) && PointsIn(b)[i].lon == LongOf(b, 16 * i + 8)
  {
    hide DecodeAll, GetPoint, LongOf;
    RecordAt(b, 16, GetPoint, n, i);
    PointIs(b, 16 * i);
  }

  lemma {:induction false} ReadFloatsIs(b: seq<byte>)
    ensures ReadFloat32s(b).Ok? <==> |b| % 4 == 0
    ensures ReadFloat32s(b).Ok? ==> FloatsAre(b, ReadFloat32s(b).value)
  {
    if |b| % 4 == 0 {
      var n := |b| / 4;
      RecordCount(b, 4, GetFloat32, n);
      hide DecodeAll, Le;
      forall i | 0 <= i < n
        ensures Float32sIn(b)[i] == WordOf(b, 4 * i)
      {
        FloatAt(b, n, i);
      }
    }
  }

  lemma {:induction false} FloatAt(b: seq<byte>, n: nat, i: nat)
    requires |b| == 4 * n && i < n
    ensures |Float32sIn(b)| == n && Float32sIn(b)[i] == WordOf(b, 4 * i)
  {
    hide DecodeAll, Le;
    RecordAt(b, 4, GetFloat32, n, i);
    LowFirst(b[4 * i..4 * i + 4]);
  }

  lemma RunIs(b: seq<byte>, i: nat)
    requires i + 5 <= |b|
    ensures GetRun(b[i..i + 5]) == GearRun(b[i], Signed(WordOf(b, i + 1)))
  {
    LowFirst(b[i..i + 5][1..]);
    hide Le;
  }

  lemma {:induction false} ReadRunsIs(b: seq<byte>)
    ensures ReadGearRuns(b).Ok? <==> |b| % 5 == 0
    ensures ReadGearRuns(b).Ok? ==> RunsAre(b, ReadGearRuns(b).value)
  {
    if |b| % 5 == 0 {
      var n := |b| / 5;
      RecordCount(b, 5, GetRun, n);
      hide DecodeAll, GetRun, WordOf, Signed;
      forall i | 0 <= i < n
        ensures GearRunsIn(b)[i] == GearRun(b[5 * i], Signed(WordOf(b, 5 * i + 1)))
      {
        RunAt(b, n, i);
      }
    }
  }

  lemma {:induction false} RunAt(b: seq<byte>, n: nat, i: nat)
    requires |b| == 5 * n && i < n
    ensures |GearRunsIn(b)| == n && GearRunsIn(b)[i] == GearRun(b[5 * i], Signed(WordOf(b, 5 * i + 1)))
  {
    hide DecodeAll, GetRun, WordOf, Signed;
    RecordAt(b, 5, GetRun, n, i);
    RunIs(b, 5 * i);
  }

  // ----- a row --------------------------------------------------------------

  /** Which columns can be read. */
  ghost predicate WholeRecords(c: Columns) {
    && |c.points| % 16 == 0 && (c.speeds.Some? ==> |c.speeds.value| % 4 == 0)
    && (c.accel.Some? ==> |c.accel.value| % 4 == 0) && (c.runs.Some? ==> |c.runs.value| % 5 == 0)
  }

  /** What a row is read as: points, floats and runs record by record, the byte columns as they are, NULL as nothing,
      and the default source as none. */
  ghost predicate ReadsAs(file: string, c: Columns, r: RouteRecord) {
    && r.file == file && r.date == c.date && r.rawPark == c.rawPark && r.rawFrames == c.rawFrames
    && r.points.Some? && PointsAre(c.points, r.points.value) && r.gears == c.gears && r.ap == c.ap
    && r.speeds.Some? == c.speeds.Some? && (c.speeds.Some? ==> FloatsAre(c.speeds.value, r.speeds.value))
    && r.accel.Some? == c.accel.Some? && (c.accel.Some? ==> FloatsAre(c.accel.value, r.accel.value))
    && r.runs.Some? == c.runs.Some? && (c.runs.Some? ==> RunsAre(c.runs.value, r.runs.value))
    && r.source == (if c.source == "sei" then "" else c.source)
    && r.signature == (if c.signature.Some? then c.signature.value else "")
    && r.tessie == if c.tessie.Some? then c.tessie.value else 0
  }

  /** A row can be read exactly when its blobs hold whole records, and then as those. */
  lemma {:induction false} DecodeReads(file: string, c: Columns)
    ensures Decode(file, c).Ok? <==> WholeRecords(c)
    ensures Decode(file, c).Ok? ==> ReadsAs(file, c, Decode(file, c).value)
  {
    ReadPointsIs(c.points);
    NullableFloats(c.speeds);
    NullableFloats(c.accel);
    NullableRuns(c.runs);
    hide ReadPoints, Nullable, PointsAre, FloatsAre, RunsAre;
  }

  lemma {:induction false} NullableFloats(b: Option<seq<byte>>)
    ensures var r := Nullable(b, ReadFloat32s);
            && (r.Ok? <==> b.Some? ==> |b.value| % 4 == 0)
            && (r.Ok? ==> r.value.Some? == b.Some? && (b.Some? ==> FloatsAre(b.value, r.value.value)))
  {
    if b.Some? {
      ReadFloatsIs(b.value);
    }
    hide ReadFloat32s, FloatsAre;
  }

  lemma {:induction false} NullableRuns(b: Option<seq<byte>>)
    ensures var r := Nullable(b, ReadGearRuns);
            && (r.Ok? <==> b.Some? ==> |b.value| % 5 == 0)
            && (r.Ok? ==> r.value.Some? == b.Some? && (b.Some? ==> RunsAre(b.value, r.value.value)))
  {
    if b.Some? {
      ReadRunsIs(b.value);
    }
    hide ReadGearRuns, RunsAre;
  }

  // ----- what may leave -----------------------------------------------------

  /** The bit patterns of infinities and NaN are those from here on, signs dropped. */
  predicate FiniteLong(x: int) { x % 0x8000_0000_0000_0000 < 0x7FF0_0000_0000_0000 }
  predicate FiniteWord(x: int) { x % 0x8000_0000 < 0x7F80_0000 }

  lemma FiniteIs(x: uint64, y: uint32)
    ensures Export.Finite64(x) <==> FiniteLong(x)
    ensures Export.Finite32(y) <==> FiniteWord(y)
  {
  }

  ghost predicate FinitePoints(b: seq<byte>) {
    forall i :: 0 <= i < |b| / 16 ==> FiniteLong(LongOf(b, 16 * i)) && FiniteLong(LongOf(b, 16 * i + 8))
  }

  ghost predicate FiniteFloats(b: seq<byte>) {
    forall i :: 0 <= i < |b| / 4 ==> FiniteWord(WordOf(b, 4 * i))
  }

  /** A row can be exported exactly when its blobs hold whole records and no coordinate, speed, pedal position or
      percentage in them is infinite or NaN. */
  lemma {:induction false} ExportsExactly(file: string, c: Columns)
    ensures Export.Emits(file, c).Ok? <==>
            && WholeRecords(c) && FinitePoints(c.points) && (c.speeds.Some? ==> FiniteFloats(c.speeds.value))
            && (c.accel.Some? ==> FiniteFloats(c.accel.value)) && (c.tessie.Some? ==> FiniteLong(c.tessie.value))
  {
    DecodeReads(file, c);
    hide Decode, FinitePoints, FiniteFloats, FiniteLong, ReadsAs, WholeRecords, Export.AllFinite;
    if WholeRecords(c) {
      FiniteRecord(file, c, Decode(file, c).value);
    }
  }

  lemma {:induction false} FiniteRecord(file: string, c: Columns, r: RouteRecord)
    requires ReadsAs(file, c, r)
    ensures Export.AllFinite(r) <==>
            && FinitePoints(c.points) && (c.speeds.Some? ==> FiniteFloats(c.speeds.value))
            && (c.accel.Some? ==> FiniteFloats(c.accel.value)) && (c.tessie.Some? ==> FiniteLong(c.tessie.value))
  {
    hide FinitePoints, FiniteFloats, FiniteLong, Export.Finite64, Export.Finite32, PointsAre, FloatsAre, RunsAre;
    PointsFinite(c.points, r.points.value);
    assert OrNil(r.points) == r.points.value;
    if c.speeds.Some? {
      FloatsFinite(c.speeds.value, r.speeds.value);
      assert OrNil(r.speeds) == r.speeds.value;
    } else {
      assert OrNil(r.speeds) == [];
    }
    if c.accel.Some? {
      FloatsFinite(c.accel.value, r.accel.value);
      assert OrNil(r.accel) == r.accel.value;
    } else {
      assert OrNil(r.accel) == [];
    }
    FiniteIs(r.tessie, 0);
    ZeroIsFinite();
    hide OrNil;
  }

  lemma ZeroIsFinite()
    ensures Export.Finite64(0)
  {
  }

  lemma {:induction false} PointsFinite(b: seq<byte>, pts: seq<Gps>)
    requires PointsAre(b, pts)
    ensures FinitePoints(b) <==>
            forall i :: 0 <= i < |pts| ==> Export.Finite64(pts[i].lat) && Export.Finite64(pts[i].lon)
  {
    hide LongOf, FiniteLong, Export.Finite64;
    assert |b| / 16 == |pts|;
    forall i | 0 <= i < |pts|
      ensures Export.Finite64(pts[i].lat) <==> FiniteLong(LongOf(b, 16 * i))
      ensures Export.Finite64(pts[i].lon) <==> FiniteLong(LongOf(b, 16 * i + 8))
    {
      FiniteIs(pts[i].lat, 0);
      FiniteIs(pts[i].lon, 0);
    }
  }

  lemma {:induction false} FloatsFinite(b: seq<byte>, vs: seq<uint32>)
    requires FloatsAre(b, vs)
    ensures FiniteFloats(b) <==> forall i :: 0 <= i < |vs| ==> Export.Finite32(vs[i])
  {
    hide WordOf, FiniteWord, Export.Finite32;
    assert |b| / 4 == |vs|;
    forall i | 0 <= i < |vs|
      ensures Export.Finite32(vs[i]) <==> FiniteWord(WordOf(b, 4 * i))
    {
      FiniteIs(0, vs[i]);
    }
  }

  // ----- a live write -------------------------------------------------------

  /** The walk over the points of a record: its words as floats, everything that is not there empty. */
  ghost predicate WalkOf(env: Env, r: RouteRecord, w: Walk) {
    && w.dist == env.dist && |w.valid| == |w.r.points| == |OrNil(r.points)|
    && w.r.gears == OrNil(r.gears) && w.r.ap == OrNil(r.ap)
    && (forall i :: 0 <= i < |w.r.points| ==>
          && w.r.points[i].lat == env.f64(OrNil(r.points)[i].lat)
          && w.r.points[i].lng == env.f64(OrNil(r.points)[i].lon)
          && (w.valid[i] <==> OnMap(w.r.points[i])))
    && |w.r.speeds| == |OrNil(r.speeds)|
    && (forall i :: 0 <= i < |w.r.speeds| ==> w.r.speeds[i] == env.f32(OrNil(r.speeds)[i]))
    && |w.r.accel| == |OrNil(r.accel)|
    && (forall i :: 0 <= i < |w.r.accel| ==> w.r.accel[i] == env.f32(OrNil(r.accel)[i]))
  }

  lemma {:induction false} AggregatedIs(env: Env, r: RouteRecord)
    ensures var w, a := RawWalk(env.dist, AsRoute(env, r)), Aggregated(env, r);
            && WalkOf(env, r, w) && SumsMean(w, a)
            && IsFirst(w.r.points, a.start) && IsLast(w.r.points, a.end)
  {
    hide RawWalk, AggregatesOf, SumsMean, IsFirst, IsLast, OnMap;
    RowIs(env.dist, AsRoute(env, r));
  }

  /** What a live write of a clip with points leaves under its normalised path: a row whose aggregates are those of
      the record's floats, whose blobs hold the record byte by byte, and whose provenance is what was there. */
  lemma {:induction false} LiveRowIs(env: Env, db: Content, r: RouteRecord)
    requires OrNil(r.points) != []
    ensures var n := Normalize(r.file);
            var after := WithRoute(env, db, r);
            && n in after.routes && n in after.processed
            && var row, w := after.routes[n], RawWalk(env.dist, AsRoute(env, r));
            && row.agg.Some? && WalkOf(env, r, w) && SumsMean(w, row.agg.value)
            && PointsAre(row.cols.points, r.points.value) && row.cols.gears == r.gears && row.cols.ap == r.ap
            && (r.speeds.Some? <==> row.cols.speeds.Some?) && (r.accel.Some? <==> row.cols.accel.Some?)
            && (r.speeds.Some? ==> FloatsAre(row.cols.speeds.value, r.speeds.value))
            && (r.accel.Some? ==> FloatsAre(row.cols.accel.value, r.accel.value))
            && row.cols.signature == (if n in db.routes then db.routes[n].cols.signature else None)
            && row.cols.tessie == (if n in db.routes then db.routes[n].cols.tessie else None)
  {
    var n := Normalize(r.file);
    AggregatedIs(env, r);
    hide AggregatesOf, RawWalk, SumsMean, WalkOf, PointsAre, FloatsAre, RunsAre, Normalize;
    DecodeOfNewColumns(n, r);
    DecodeReads(n, NewColumns(r));
    hide Decode, NewColumns, AsRoute;
  }
}
