/** Gear runs: their computation from raw frames and what counts as a park gap. */
module Gears {
  import opened Bytes
  import opened DriveTypes

  const PARK_GAP_SECONDS := 2.0

  ghost function Frames(runs: seq<GearRun>): int {
    if runs == [] then 0 else Frames(runs[..|runs| - 1]) + runs[|runs| - 1].frames
  }

  method SumFrames(runs: seq<GearRun>) returns (total: int)
    ensures total == Frames(runs)
  {
    total := 0;
    for k := 0 to |runs|
      invariant total == Frames(runs[..k])
    {
      assert runs[..k + 1][..k] == runs[..k];
      total := total + runs[k].frames;
    }
    assert runs[..|runs|] == runs;
  }

  /** The frames in Park. */
  ghost function ParkCount(gears: seq<byte>): nat {
    if gears == [] then 0 else ParkCount(gears[..|gears| - 1]) + if gears[|gears| - 1] == PARK then 1 else 0
  }

  /** The run is in Park for at least two of the clip's sixty seconds. */
  predicate ParkGap(run: GearRun, total: int)
    requires total != 0
  {
    run.gear == PARK && run.frames as real * (60.0 / total as real) >= PARK_GAP_SECONDS
  }
}
