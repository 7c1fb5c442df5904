/** The fixed-stride, little-endian column formats of a route row (server/drives/blob.go).
    A point takes 16 bytes, a float 4, a gear run 5.
    Floats are their IEEE bit patterns; None stands for a nil slice and for SQL NULL. */
module Blob {
  import opened Bytes
  import opened DriveTypes

  datatype Result<+T> = Ok(value: T) | Bad

  datatype Gps = Gps(lat: uint64, lon: uint64)

  // ----- records ------------------------------------------------------------

  /** One record after the other. */
  ghost function EncodeAll<T>(xs: seq<T>, put: T -> seq<byte>): seq<byte> {
    if xs == [] then [] else EncodeAll(xs[..|xs| - 1], put) + put(xs[|xs| - 1])
  }

  ghost function DecodeAll<T>(buf: seq<byte>, k: nat, get: seq<byte> -> T): seq<T>
    requires k > 0
  {
    if |buf| < k then [] else DecodeAll(buf[..|buf| - k], k, get) + [get(buf[|buf| - k..])]
  }

  ghost predicate Writes<T(!new)>(xs: seq<T>, put: T -> seq<byte>, get: seq<byte> -> T, k: nat) {
    forall i :: 0 <= i < |xs| ==> |put(xs[i])| == k && get(put(xs[i])) == xs[i]
  }

  lemma EncodeSnoc<T>(xs: seq<T>, i: nat, put: T -> seq<byte>)
    requires i < |xs|
    ensures EncodeAll(xs[..i + 1], put) == EncodeAll(xs[..i], put) + put(xs[i])
  {
    assert xs[..i + 1][..i] == xs[..i];
  }

  lemma DecodeSnoc<T>(front: seq<byte>, last: seq<byte>, k: nat, get: seq<byte> -> T)
    requires k > 0 && |last| == k
    ensures DecodeAll(front + last, k, get) == DecodeAll(front, k, get) + [get(last)]
  {
    var e := front + last;
    assert e[..|e| - k] == front && e[|e| - k..] == last;
  }

  lemma DecodeNext<T>(buf: seq<byte>, off: nat, k: nat, get: seq<byte> -> T)
    requires k > 0 && off + k <= |buf|
    ensures DecodeAll(buf[..off + k], k, get) == DecodeAll(buf[..off], k, get) + [get(buf[off..off + k])]
  {
    hide DecodeAll;
    assert buf[..off + k] == buf[..off] + buf[off..off + k];
    DecodeSnoc(buf[..off], buf[off..off + k], k, get);
  }

  lemma {:induction false} DecodeOfEncode<T(!new)>(xs: seq<T>, put: T -> seq<byte>, get: seq<byte> -> T, k: nat)
    requires k > 0 && Writes(xs, put, get, k)
    ensures |EncodeAll(xs, put)| == Product(|xs|, k) && DecodeAll(EncodeAll(xs, put), k, get) == xs
  {
    if xs != [] {
      var n := |xs| - 1;
      hide EncodeAll, DecodeAll;
      DecodeOfEncode(xs[..n], put, get, k);
      assert xs[..n + 1] == xs;
      EncodeSnoc(xs, n, put);
      DecodeSnoc(EncodeAll(xs[..n], put), put(xs[n]), k, get);
    } else {
      assert |EncodeAll(xs, put)| == 0;
    }
  }

  function Product(n: nat, k: nat): nat {
    if n == 0 then 0 else Product(n - 1, k) + k
  }

  lemma {:induction false} ProductIs(n: nat, k: nat)
    ensures Product(n, k) == n * k
  {
    if n > 0 {
      ProductIs(n - 1, k);
    }
  }

  /** The other way round. */
  lemma {:induction false} EncodeOfDecode<T(!new)>(buf: seq<byte>, n: nat, k: nat, put: T -> seq<byte>,
        get: seq<byte> -> T)
    requires k > 0 && |buf| == Product(n, k) && forall b: seq<byte> :: |b| == k ==> put(get(b)) == b
    ensures |DecodeAll(buf, k, get)| == n && EncodeAll(DecodeAll(buf, k, get), put) == buf
  {
    if n > 0 {
      var front, last := buf[..|buf| - k], buf[|buf| - k..];
      EncodeOfDecode(front, n - 1, k, put, get);
      var d := DecodeAll(front, k, get);
      assert (d + [get(last)])[..|d|] == d;
      assert buf == front + last;
    }
  }

  // ----- the three record types ---------------------------------------------

  function PutPoint(p: Gps): (b: seq<byte>)
    ensures |b| == 16
  {
    ToLe(p.lat, 8) + ToLe(p.lon, 8)
  }

  function GetPoint(b: seq<byte>): Gps {
    if |b| == 16 then Gps(Word64(b[..8]), Word64(b[8..])) else Gps(0, 0)
  }

  function Word64(b: seq<byte>): (w: uint64)
    requires |b| == 8
    ensures w == Le(b)
  {
    Pow256Values();
    Le(b)
  }

  function Word32(b: seq<byte>): (w: uint32)
    requires |b| == 4
    ensures w == Le(b)
  {
    Pow256Values();
    Le(b)
  }

  function PutFloat32(v: uint32): (b: seq<byte>)
    ensures |b| == 4
  {
    ToLe(v, 4)
  }

  function GetFloat32(b: seq<byte>): uint32 {
    if |b| == 4 then Word32(b) else 0
  }

  /** uint32(int32(frames)), and back. */
  function Unsigned32(frames: int): uint32 { frames % TWO_32 }

  function Signed32(w: uint32): int { if w < 0x8000_0000 then w else w - TWO_32 }

  predicate Int32(frames: int) { -0x8000_0000 <= frames < 0x8000_0000 }

  function PutRun(r: GearRun): (b: seq<byte>)
    ensures |b| == 5
  {
    [r.gear] + ToLe(Unsigned32(r.frames), 4)
  }

  function GetRun(b: seq<byte>): GearRun {
    if |b| == 5 then GearRun(b[0], Signed32(Word32(b[1..]))) else GearRun(0, 0)
  }

  lemma PointRecord(p: Gps, b: seq<byte>)
    ensures GetPoint(PutPoint(p)) == p
    ensures |b| == 16 ==> PutPoint(GetPoint(b)) == b
  {
    Pow256Values();
    LeOfToLe(p.lat, 8);
    LeOfToLe(p.lon, 8);
    var w := PutPoint(p);
    assert w[..8] == ToLe(p.lat, 8) && w[8..] == ToLe(p.lon, 8);
    if |b| == 16 {
      ToLeOfLe(b[..8]);
      ToLeOfLe(b[8..]);
      assert b == b[..8] + b[8..];
    }
  }

  lemma Float32Record(v: uint32, b: seq<byte>)
    ensures GetFloat32(PutFloat32(v)) == v
    ensures |b| == 4 ==> PutFloat32(GetFloat32(b)) == b
  {
    Pow256Values();
    LeOfToLe(v, 4);
    if |b| == 4 {
      ToLeOfLe(b);
    }
  }

  lemma RunRecord(r: GearRun, b: seq<byte>)
    ensures GetRun(PutRun(r)) == r <==> Int32(r.frames)
    ensures |b| == 5 ==> PutRun(GetRun(b)) == b
  {
    hide ToLe, Le, Word32;
    Pow256Values();
    LeOfToLe(Unsigned32(r.frames), 4);
    assert PutRun(r)[1..] == ToLe(Unsigned32(r.frames), 4);
    if |b| == 5 {
      ToLeOfLe(b[1..]);
      SignedTwice(Word32(b[1..]));
      assert b == [b[0]] + b[1..];
    }
  }

  lemma SignedTwice(w: uint32)
    ensures Unsigned32(Signed32(w)) == w
  {
  }

  // ----- the codecs ---------------------------------------------------------

  ghost function PointsBlob(pts: seq<Gps>): seq<byte> { EncodeAll(pts, PutPoint) }
  ghost function Float32sBlob(vs: seq<uint32>): seq<byte> { EncodeAll(vs, PutFloat32) }
  ghost function GearRunsBlob(runs: seq<GearRun>): seq<byte> { EncodeAll(runs, PutRun) }

  ghost function PointsIn(buf: seq<byte>): seq<Gps> { DecodeAll(buf, 16, GetPoint) }

  lemma PointsInNone()
    ensures PointsIn([]) == []
  {
  }

  lemma PointsInNext(buf: seq<byte>, off: nat)
    requires off + 16 <= |buf|
    ensures PointsIn(buf[..off + 16]) == PointsIn(buf[..off]) + [GetPoint(buf[off..off + 16])]
  {
    DecodeNext(buf, off, 16, GetPoint);
  }

  ghost function ReadPoints(buf: seq<byte>): Result<seq<Gps>> {
    if |buf| % 16 != 0 then Bad else Ok(PointsIn(buf))
  }

  ghost function Float32sIn(buf: seq<byte>): seq<uint32> { DecodeAll(buf, 4, GetFloat32) }

  lemma Float32sInNone()
    ensures Float32sIn([]) == []
  {
  }

  lemma Float32sInNext(buf: seq<byte>, off: nat)
    requires off + 4 <= |buf|
    ensures Float32sIn(buf[..off + 4]) == Float32sIn(buf[..off]) + [GetFloat32(buf[off..off + 4])]
  {
    DecodeNext(buf, off, 4, GetFloat32);
  }

  ghost function ReadFloat32s(buf: seq<byte>): Result<seq<uint32>> {
    if |buf| % 4 != 0 then Bad else Ok(Float32sIn(buf))
  }

  ghost function GearRunsIn(buf: seq<byte>): seq<GearRun> { DecodeAll(buf, 5, GetRun) }

  lemma GearRunsInNone()
    ensures GearRunsIn([]) == []
  {
  }

  lemma GearRunsInNext(buf: seq<byte>, off: nat)
    requires off + 5 <= |buf|
    ensures GearRunsIn(buf[..off + 5]) == GearRunsIn(buf[..off]) + [GetRun(buf[off..off + 5])]
  {
    DecodeNext(buf, off, 5, GetRun);
  }

  ghost function ReadGearRuns(buf: seq<byte>): Result<seq<GearRun>> {
    if |buf| % 5 != 0 then Bad else Ok(GearRunsIn(buf))
  }

  /** NULL stays nil; anything else is read. */
  ghost function Nullable<T>(blob: Option<seq<byte>>, read: seq<byte> -> Result<seq<T>>): Result<Option<seq<T>>> {
    match blob
    case None => Ok(None)
    case Some(b) => (match read(b) case Ok(v) => Ok(Some(v)) case Bad => Bad)
  }

  lemma PointsRoundTrip(pts: seq<Gps>)
    ensures ReadPoints(PointsBlob(pts)) == Ok(pts)
  {
    hide EncodeAll, DecodeAll, PutPoint, GetPoint;
    forall i | 0 <= i < |pts|
      ensures GetPoint(PutPoint(pts[i])) == pts[i]
    {
      PointRecord(pts[i], []);
    }
    DecodeOfEncode(pts, PutPoint, GetPoint, 16);
    ProductIs(|pts|, 16);
  }

  lemma Float32sRoundTrip(vs: seq<uint32>)
    ensures ReadFloat32s(Float32sBlob(vs)) == Ok(vs)
  {
    forall i | 0 <= i < |vs|
      ensures GetFloat32(PutFloat32(vs[i])) == vs[i]
    {
      Float32Record(vs[i], []);
    }
    hide EncodeAll, DecodeAll, PutFloat32, GetFloat32;
    DecodeOfEncode(vs, PutFloat32, GetFloat32, 4);
    ProductIs(|vs|, 4);
  }

  /** What comes back of the runs: frame counts as 32-bit integers. */
  function Narrow(r: GearRun): GearRun { GearRun(r.gear, Signed32(Unsigned32(r.frames))) }

  ghost function NarrowAll(runs: seq<GearRun>): (n: seq<GearRun>)
    ensures |n| == |runs| && forall i :: 0 <= i < |runs| ==> n[i] == Narrow(runs[i])
  {
    seq(|runs|, i requires 0 <= i < |runs| => Narrow(runs[i]))
  }

  lemma NarrowSame(r: GearRun)
    ensures PutRun(Narrow(r)) == PutRun(r) && Int32(Narrow(r).frames)
    ensures Narrow(r) == r <==> Int32(r.frames)
  {
    hide ToLe;
    SignedTwice(Unsigned32(r.frames));
    ThroughWord(r.frames);
    hide Unsigned32, Signed32;
  }

  /** A number survives the trip through a 32-bit word exactly when it fits. */
  lemma ThroughWord(x: int)
    ensures Int32(Signed32(Unsigned32(x))) && (Signed32(Unsigned32(x)) == x <==> Int32(x))
  {
    if -0x8000_0000 <= x < 0 {
      assert x == -1 * TWO_32 + (x + TWO_32);
      assert x % TWO_32 == x + TWO_32;
    }
  }

  lemma {:induction false} NarrowBlob(runs: seq<GearRun>)
    ensures GearRunsBlob(NarrowAll(runs)) == GearRunsBlob(runs)
  {
    hide PutRun;
    if runs != [] {
      NarrowBlob(runs[..|runs| - 1]);
      assert NarrowAll(runs)[..|runs| - 1] == NarrowAll(runs[..|runs| - 1]);
      NarrowSame(runs[|runs| - 1]);
    }
  }

  /** Gear runs come back with 32-bit frame counts: unchanged exactly when every count fits. */
  lemma GearRunsRoundTrip(runs: seq<GearRun>)
    ensures ReadGearRuns(GearRunsBlob(runs)) == Ok(NarrowAll(runs))
    ensures ReadGearRuns(GearRunsBlob(runs)) == Ok(runs) <==> forall i :: 0 <= i < |runs| ==> Int32(runs[i].frames)
  {
    hide EncodeAll, DecodeAll, PutRun, GetRun, Narrow, Int32;
    var n := NarrowAll(runs);
    forall i | 0 <= i < |n|
      ensures GetRun(PutRun(n[i])) == n[i] && (n[i] == runs[i] <==> Int32(runs[i].frames))
    {
      NarrowSame(runs[i]);
      RunRecord(n[i], []);
    }
    NarrowBlob(runs);
    DecodeOfEncode(n, PutRun, GetRun, 5);
    ProductIs(|n|, 5);
    SameElements(n, runs);
  }

  lemma SameElements(n: seq<GearRun>, runs: seq<GearRun>)
    requires |n| == |runs|
    ensures n == runs <==> forall i :: 0 <= i < |n| ==> n[i] == runs[i]
  {
  }

  lemma EncodeOfPoints(buf: seq<byte>)
    requires |buf| % 16 == 0
    ensures PointsBlob(PointsIn(buf)) == buf
  {
    hide EncodeAll, DecodeAll, PutPoint, GetPoint;
    forall b: seq<byte> | |b| == 16
      ensures PutPoint(GetPoint(b)) == b
    {
      PointRecord(Gps(0, 0), b);
    }
    ProductIs(|buf| / 16, 16);
    EncodeOfDecode(buf, |buf| / 16, 16, PutPoint, GetPoint);
  }

  lemma EncodeOfFloat32s(buf: seq<byte>)
    requires |buf| % 4 == 0
    ensures Float32sBlob(Float32sIn(buf)) == buf
  {
    hide EncodeAll, DecodeAll, PutFloat32, GetFloat32;
    forall b: seq<byte> | |b| == 4
      ensures PutFloat32(GetFloat32(b)) == b
    {
      Float32Record(0, b);
    }
    ProductIs(|buf| / 4, 4);
    EncodeOfDecode(buf, |buf| / 4, 4, PutFloat32, GetFloat32);
  }

  lemma EncodeOfGearRuns(buf: seq<byte>)
    requires |buf| % 5 == 0
    ensures GearRunsBlob(GearRunsIn(buf)) == buf
  {
    hide EncodeAll, DecodeAll, PutRun, GetRun;
    forall b: seq<byte> | |b| == 5
      ensures PutRun(GetRun(b)) == b
    {
      RunRecord(GearRun(0, 0), b);
    }
    ProductIs(|buf| / 5, 5);
    EncodeOfDecode(buf, |buf| / 5, 5, PutRun, GetRun);
  }

  /** Decoding loses nothing of a blob it accepts. */
  lemma BlobsRoundTrip(buf: seq<byte>)
    ensures ReadPoints(buf).Ok? ==> PointsBlob(ReadPoints(buf).value) == buf
    ensures ReadFloat32s(buf).Ok? ==> Float32sBlob(ReadFloat32s(buf).value) == buf
    ensures ReadGearRuns(buf).Ok? ==> GearRunsBlob(ReadGearRuns(buf).value) == buf
  {
    hide PointsBlob, Float32sBlob, GearRunsBlob, PointsIn, Float32sIn, GearRunsIn;
    if |buf| % 16 == 0 {
      EncodeOfPoints(buf);
    }
    if |buf| % 4 == 0 {
      EncodeOfFloat32s(buf);
    }
    if |buf| % 5 == 0 {
      EncodeOfGearRuns(buf);
    }
  }

  // ----- filling buffers ----------------------------------------------------

  /** binary.LittleEndian.PutUint32 and PutUint64. */
  method PutLe(buf: array<byte>, off: nat, v: nat, k: nat)
    requires off + k <= buf.Length
    modifies buf
    ensures buf[off..off + k] == ToLe(v, k) && buf[..off] == old(buf[..off])
  {
    hide ToLe;
    var rest := v;
    ghost var before := buf[..off];
    for j := 0 to k
      invariant buf[..off] == before
      invariant buf[off..off + j] + ToLe(rest, k - j) == ToLe(v, k)
    {
      var low: byte := rest % 0x100;
      ghost var done := buf[off..off + j];
      NextByte(done, rest, k - j);
      buf[off + j] := low;
      assert buf[off..off + j + 1] == done + [low];
      rest := rest / 0x100;
    }
    NoByte(buf[off..off + k], rest);
  }

  lemma NextByte(done: seq<byte>, rest: nat, k: nat)
    requires k > 0
    ensures var low: byte := rest % 0x100; done + ToLe(rest, k) == (done + [low]) + ToLe(rest / 0x100, k - 1)
  {
  }

  lemma NoByte(done: seq<byte>, rest: nat)
    ensures done + ToLe(rest, 0) == done
  {
  }

  method PutGps(buf: array<byte>, off: nat, p: Gps)
    requires off + 16 <= buf.Length
    modifies buf
    ensures buf[off..off + 16] == PutPoint(p) && buf[..off] == old(buf[..off])
  {
    hide ToLe;
    PutLe(buf, off, p.lat, 8);
    ghost var lat := buf[..off + 8];
    PutLe(buf, off + 8, p.lon, 8);
    assert buf[..off] == lat[..off] && buf[off..off + 8] == lat[off..];
    assert buf[off..off + 16] == buf[off..off + 8] + buf[off + 8..off + 16];
  }

  method EncodePoints(pts: Option<seq<Gps>>) returns (blob: Option<seq<byte>>)
    ensures blob == if pts.Some? then Some(PointsBlob(pts.value)) else None
  {
    if pts.None? {
      return None;
    }
    hide PutPoint, EncodeAll;
    var s := pts.value;
    var buf := new byte[|s| * 16];
    for i := 0 to |s|
      invariant buf[..i * 16] == PointsBlob(s[..i])
    {
      var off := i * 16;
      ghost var done := buf[..off];
      PutGps(buf, off, s[i]);
      assert buf[..off + 16] == done + buf[off..off + 16];
      EncodeSnoc(s, i, PutPoint);
    }
    assert s[..|s|] == s && buf[..] == buf[..|s| * 16];
    blob := Some(buf[..]);
  }

  method DecodePoints(blob: Option<seq<byte>>) returns (r: Result<Option<seq<Gps>>>)
    ensures r == Nullable(blob, ReadPoints)
  {
    if blob.None? {
      return Ok(None);
    }
    var buf := blob.value;
    if |buf| % 16 != 0 {
      return Bad;
    }
    hide GetPoint, Le, DecodeAll, PointsIn;
    PointsInNone();
    var n := |buf| / 16;
    var out := new Gps[n](_ => Gps(0, 0));
    for i := 0 to n
      invariant out[..i] == PointsIn(buf[..16 * i])
    {
      var off := 16 * i;
      PointsInNext(buf, off);
      out[i] := GetPoint(buf[off..off + 16]);
      assert out[..i + 1] == out[..i] + [out[i]];
    }
    assert buf[..16 * n] == buf && out[..] == out[..n];
    r := Ok(Some(out[..]));
  }

  method EncodeFloat32s(vs: Option<seq<uint32>>) returns (blob: Option<seq<byte>>)
    ensures blob == if vs.Some? then Some(Float32sBlob(vs.value)) else None
  {
    if vs.None? {
      return None;
    }
    hide ToLe, EncodeAll;
    var s := vs.value;
    var buf := new byte[|s| * 4];
    for i := 0 to |s|
      invariant buf[..i * 4] == Float32sBlob(s[..i])
    {
      var off := i * 4;
      PutLe(buf, off, s[i], 4);
      assert buf[..off + 4] == buf[..off] + buf[off..off + 4];
      EncodeSnoc(s, i, PutFloat32);
    }
    assert s[..|s|] == s && buf[..] == buf[..|s| * 4];
    blob := Some(buf[..]);
  }

  method DecodeFloat32s(blob: Option<seq<byte>>) returns (r: Result<Option<seq<uint32>>>)
    ensures r == Nullable(blob, ReadFloat32s)
  {
    if blob.None? {
      return Ok(None);
    }
    var buf := blob.value;
    if |buf| % 4 != 0 {
      return Bad;
    }
    hide GetFloat32, Le, DecodeAll, Float32sIn;
    Float32sInNone();
    var n := |buf| / 4;
    var out := new uint32[n];
    for i := 0 to n
      invariant out[..i] == Float32sIn(buf[..4 * i])
    {
      var off := 4 * i;
      Float32sInNext(buf, off);
      out[i] := GetFloat32(buf[off..off + 4]);
      assert out[..i + 1] == out[..i] + [out[i]];
    }
    assert buf[..4 * n] == buf && out[..] == out[..n];
    r := Ok(Some(out[..]));
  }

  method PutGearRun(buf: array<byte>, off: nat, r: GearRun)
    requires off + 5 <= buf.Length
    modifies buf
    ensures buf[off..off + 5] == PutRun(r) && buf[..off] == old(buf[..off])
  {
    hide ToLe;
    buf[off] := r.gear;
    ghost var before := buf[..off + 1];
    PutLe(buf, off + 1, Unsigned32(r.frames), 4);
    assert buf[..off] == before[..off] && buf[off] == before[off];
    assert buf[off..off + 5] == [buf[off]] + buf[off + 1..off + 5];
  }

  method EncodeGearRuns(runs: Option<seq<GearRun>>) returns (blob: Option<seq<byte>>)
    ensures blob == if runs.Some? then Some(GearRunsBlob(runs.value)) else None
  {
    if runs.None? {
      return None;
    }
    hide PutRun, EncodeAll;
    var s := runs.value;
    var buf := new byte[|s| * 5];
    for i := 0 to |s|
      invariant buf[..i * 5] == GearRunsBlob(s[..i])
    {
      var off := i * 5;
      ghost var done := buf[..off];
      PutGearRun(buf, off, s[i]);
      assert buf[..off + 5] == done + buf[off..off + 5];
      EncodeSnoc(s, i, PutRun);
    }
    assert s[..|s|] == s && buf[..] == buf[..|s| * 5];
    blob := Some(buf[..]);
  }

  method DecodeGearRuns(blob: Option<seq<byte>>) returns (r: Result<Option<seq<GearRun>>>)
    ensures r == Nullable(blob, ReadGearRuns)
  {
    if blob.None? {
      return Ok(None);
    }
    var buf := blob.value;
    if |buf| % 5 != 0 {
      return Bad;
    }
    hide GetRun, Le, DecodeAll, GearRunsIn;
    GearRunsInNone();
    var n := |buf| / 5;
    var out := new GearRun[n](_ => GearRun(0, 0));
    for i := 0 to n
      invariant out[..i] == GearRunsIn(buf[..5 * i])
    {
      var off := 5 * i;
      GearRunsInNext(buf, off);
      out[i] := GetRun(buf[off..off + 5]);
      assert out[..i + 1] == out[..i] + [out[i]];
    }
    assert buf[..5 * n] == buf && out[..] == out[..n];
    r := Ok(Some(out[..]));
  }
}
