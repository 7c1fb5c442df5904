/** The data shared by the drive engine (server/drives/types.go, extract.go).
    Distances, speeds and pedal positions are exact reals. */
module DriveTypes {
  import opened Bytes

  datatype Option<+T> = None | Some(value: T)

  datatype Point = Point(lat: real, lng: real)

  /** Any non-negative distance stands in for haversineM. */
  type Metric = f: (Point, Point) -> real | forall p, q :: f(p, q) >= 0.0
    witness (p: Point, q: Point) => 0.0

  datatype GearRun = GearRun(gear: byte, frames: int)

  datatype Route = Route(
    file: string, date: string, points: seq<Point>,
    gears: seq<byte>, ap: seq<byte>, speeds: seq<real>, accel: seq<real>,
    rawPark: int, rawFrames: int, gearRuns: seq<GearRun>,
    source: string, signature: string, tessiePercent: real)

  /** The parallel slices of a clip, all that the walks over its points read. */
  function Slices(r: Route): Route {
    Route("", "", r.points, r.gears, r.ap, r.speeds, r.accel, 0, 0, [], "", "", 0.0)
  }

  const PARK: byte := 0
  const OFF: byte := 0
  const FSD: byte := 1
  const AUTOSTEER: byte := 2
  const TACC: byte := 3

  const CLIP_MS := 60000

  predicate NullIsland(p: Point) {
    -1.0 < p.lat < 1.0 && -1.0 < p.lng < 1.0
  }

  function NonNull(points: seq<Point>): (valid: seq<bool>)
    ensures |valid| == |points|
    ensures forall i :: 0 <= i < |points| ==> valid[i] == !NullIsland(points[i])
  {
    seq(|points|, i requires 0 <= i < |points| => !NullIsland(points[i]))
  }

  /** strings.ReplaceAll(file, "\\", "/"). */
  function Normalize(file: string): (n: string)
    ensures |n| == |file|
    ensures forall i :: 0 <= i < |file| ==> n[i] == if file[i] == '\\' then '/' else file[i]
  {
    seq(|file|, i requires 0 <= i < |file| => if file[i] == '\\' then '/' else file[i])
  }

  /** math.Round: to the nearest integer, halves away from zero. */
  function Round(x: real): (n: int)
    ensures x >= 0.0 ==> n >= 0 && n as real - 0.5 <= x < n as real + 0.5
    ensures x < 0.0 ==> n <= 0 && n as real - 0.5 < x <= n as real + 0.5
  {
    if x >= 0.0 then (x + 0.5).Floor else -(0.5 - x).Floor
  }
}
