/** Walking the length-prefixed NAL units of an mdat box (extractFromMdat in
    server/drives/extract.go) into five parallel slices, one entry per good SEI unit. */
module Mdat {
  import opened Bytes
  import opened Sei

  const BUF_SIZE := 65536

  /** What becomes of one NAL unit: anything but a SEI unit of at most 64 KiB is skipped. */
  ghost function Unit(nal: seq<byte>): SeiResult
    requires |nal| > 0
  {
    if nal[0] % 0x20 == 6 && |nal| <= BUF_SIZE then ParseSei(nal) else REJECT
  }

  /** The walk over the units gives samples, unless a unit makes the decoder panic or go round for ever. */
  datatype Walk = Extracted(samples: seq<Telemetry>) | Panicked | Endless

  /** A unit, and what the rest of the walk gives. */
  ghost function Then(r: SeiResult, rest: Walk): Walk {
    match r
    case Panics => Panicked
    case Loops => Endless
    case Sample(t, ok) => if ok then After([t], rest) else rest
  }

  ghost function After(ts: seq<Telemetry>, rest: Walk): Walk {
    if rest.Extracted? then Extracted(ts + rest.samples) else rest
  }

  /** The walk from `cursor` on; a unit that does not fit ends it, and one that runs past the end of the file is
      skipped. */
  ghost function Walked(file: seq<byte>, cursor: nat, end: int): Walk
    decreases end - cursor
  {
    if cursor + 4 > end || cursor + 4 > |file| then Extracted([]) else
    var size, c := Be32(file, cursor), cursor + 4;
    if size < 2 || c + size > end || c >= |file| then Extracted([])
    else if c + size > |file| then Walked(file, c + size, end)
    else Then(Unit(file[c..c + size]), Walked(file, c + size, end))
  }

  /** Coordinates are rounded to six decimals before they are kept: `round` is that on bit patterns. */
  ghost predicate Parallel(round: uint64 -> uint64, ts: seq<Telemetry>, points: seq<(uint64, uint64)>,
                           gears: seq<byte>, apStates: seq<byte>, speeds: seq<uint32>, accels: seq<uint32>) {
    && |points| == |gears| == |apStates| == |speeds| == |accels| == |ts|
    && (forall k :: 0 <= k < |ts| ==> points[k] == (round(ts[k].lat), round(ts[k].lon)))
    && (forall k :: 0 <= k < |ts| ==> gears[k] == ts[k].gear && apStates[k] == ts[k].apState)
    && (forall k :: 0 <= k < |ts| ==> speeds[k] == ts[k].speed && accels[k] == ts[k].accel)
  }

  lemma ParallelSnoc(round: uint64 -> uint64, ts: seq<Telemetry>, points: seq<(uint64, uint64)>,
        gears: seq<byte>, apStates: seq<byte>, speeds: seq<uint32>, accels: seq<uint32>, t: Telemetry)
    requires Parallel(round, ts, points, gears, apStates, speeds, accels)
    ensures Parallel(round, ts + [t], points + [(round(t.lat), round(t.lon))], gears + [t.gear],
                     apStates + [t.apState], speeds + [t.speed], accels + [t.accel])
  {
  }

  lemma ParallelNil(round: uint64 -> uint64)
    ensures Parallel(round, [], [], [], [], [], [])
  {
  }

  /** One turn of the walk. */
  lemma WalkStep(file: seq<byte>, cursor: nat, end: int)
    ensures cursor + 4 > end || cursor + 4 > |file| ==> Walked(file, cursor, end) == Extracted([])
    ensures cursor + 4 <= end && cursor + 4 <= |file| ==>
              var size, c := Be32(file, cursor), cursor + 4;
              if size < 2 || c + size > end || c >= |file| then Walked(file, cursor, end) == Extracted([])
              else if c + size > |file| then Walked(file, cursor, end) == Walked(file, c + size, end)
              else Walked(file, cursor, end) == Then(Unit(file[c..c + size]), Walked(file, c + size, end))
  {
    hide Unit, Then, Be32;
  }

  lemma AfterAfter(ts: seq<Telemetry>, t: Telemetry, rest: Walk)
    ensures After(ts, After([t], rest)) == After(ts + [t], rest)
  {
    if rest.Extracted? {
      assert ts + ([t] + rest.samples) == ts + [t] + rest.samples;
    }
  }

  lemma AfterNil(w: Walk)
    ensures After([], w) == w
  {
    if w.Extracted? {
      assert [] + w.samples == w.samples;
    }
  }

  datatype End = Done | Panic | Forever

  method ExtractFromMdat(file: seq<byte>, offset: nat, size: int, round: uint64 -> uint64)
    returns (points: seq<(uint64, uint64)>, gears: seq<byte>, apStates: seq<byte>, speeds: seq<uint32>,
      accels: seq<uint32>, r: End)
    ensures match Walked(file, offset, offset + size)
            case Extracted(ts) => r == Done && Parallel(round, ts, points, gears, apStates, speeds, accels)
            case Panicked => r == Panic
            case Endless => r == Forever
  {
    hide ParseSei, Be32, Walked, Parallel, After;
    points, gears, apStates, speeds, accels := [], [], [], [], [];
    var end := offset + size;
    var cursor := offset;
    ghost var seen := [];
    ParallelNil(round);
    AfterNil(Walked(file, offset, end));
    while cursor + 4 <= end
      invariant Walked(file, offset, end) == After(seen, Walked(file, cursor, end))
      invariant Parallel(round, seen, points, gears, apStates, speeds, accels)
      decreases end - cursor
    {
      WalkStep(file, cursor, end);
      if cursor + 4 > |file| {
        break;
      }
      var nalSize := Be32(file, cursor);
      var c := cursor + 4;
      if nalSize < 2 || c + nalSize > end || c >= |file| {
        break;
      }
      if file[c] % 0x20 == 6 && nalSize <= BUF_SIZE && c + nalSize <= |file| {
        var s := ParseTeslaSEI(file[c..c + nalSize]);
        match s {
          case Panics =>
            AfterBroken(seen);
            return points, gears, apStates, speeds, accels, Panic;
          case Loops =>
            AfterBroken(seen);
            return points, gears, apStates, speeds, accels, Forever;
          case Sample(t, ok) =>
            if ok {
              AfterAfter(seen, t, Walked(file, c + nalSize, end));
              ParallelSnoc(round, seen, points, gears, apStates, speeds, accels, t);
              points := points + [(round(t.lat), round(t.lon))];
              gears, apStates := gears + [t.gear], apStates + [t.apState];
              speeds, accels := speeds + [t.speed], accels + [t.accel];
              seen := seen + [t];
            }
        }
      }
      cursor := c + nalSize;
    }
    WalkStep(file, cursor, end);
    AfterEnd(seen);
    r := Done;
  }

  lemma AfterBroken(ts: seq<Telemetry>)
    ensures After(ts, Panicked) == Panicked && After(ts, Endless) == Endless
  {
  }

  lemma AfterEnd(ts: seq<Telemetry>)
    ensures After(ts, Extracted([])) == Extracted(ts)
  {
    assert ts + [] == ts;
  }

  ghost function EncodeNals(nals: seq<seq<byte>>): seq<byte>
    requires forall k :: 0 <= k < |nals| ==> 2 <= |nals[k]| < TWO_32
  {
    if nals == [] then [] else ToBe32(|nals[0]|) + nals[0] + EncodeNals(nals[1..])
  }

  /** What the units give one after the other, up to the first one that breaks the walk. */
  ghost function AllUnits(nals: seq<seq<byte>>): Walk
    requires forall k :: 0 <= k < |nals| ==> 2 <= |nals[k]| < TWO_32
  {
    if nals == [] then Extracted([]) else Then(Unit(nals[0]), AllUnits(nals[1..]))
  }

  /** A well-formed mdat gives exactly the samples of its units, in order. */
  lemma {:induction false} ExtractionReadsEveryNal(file: seq<byte>, offset: nat, nals: seq<seq<byte>>)
    requires forall k :: 0 <= k < |nals| ==> 2 <= |nals[k]| < TWO_32
    requires Holds(file, offset, EncodeNals(nals))
    ensures Walked(file, offset, offset + |EncodeNals(nals)|) == AllUnits(nals)
    decreases |nals|
  {
    hide Unit, Then, Be32, ToBe32, Holds;
    if nals != [] {
      var nal, rest := nals[0], EncodeNals(nals[1..]);
      Parts(file, offset, ToBe32(|nal|), nal, rest);
      WordAt(file, offset, ToBe32(|nal|), 0);
      var c := offset + 4;
      SliceIs(file, c, nal);
      ExtractionReadsEveryNal(file, c + |nal|, nals[1..]);
    }
  }

  lemma SliceIs(file: seq<byte>, start: nat, s: seq<byte>)
    requires Holds(file, start, s)
    ensures start + |s| <= |file| && file[start..start + |s|] == s
  {
  }
}
