# Verified model of the Sentry USB drive engine

A Dafny 4.11 model of the logic of Sentry USB: the engine that turns dashcam clips into drives and
statistics (`server/drives`), the MP4 overlay that hides a box (`fuse/cttseraser.cpp`), the splitting of
Bluetooth responses (`server/ble/sentryusb-ble.py`), the normalisation of chime sounds
(`server/api/lock_chime.go`), the keep-awake manager (`server/api/keepawake.go`) and the settings file
(`server/config/parser.go`). `dafny verify dfyconfig.toml` checks the project.

Loops and objects keep their form: methods with loops, arrays that are filled in place, classes for the
database, the batch writer, the keep-awake manager and its registry. Each is proved against a
specification function, and the lemmas say what that function means; `ClipRow`, `Outliers`, `CttsChain`,
`SegmentData`, `BleReader`, `WavSamples`, `SeiBytes`, `StoredBytes`, `ImportedContent`, `GearRules`, `HistoryRows`
and `ConfigSyntax` say it without those functions' own parts, in the data of the source.

## How the modules hang together

| modules | part of the system |
|---|---|
| `Bytes`, `DriveTypes` | machine words, byte orders, the data of a clip |
| `CttsEraser`, `CttsChain` | box parser, read overlay, trees with their serialisation, and the box types on bytes |
| `BleSplit`, `BleReader` | binary search, greedy split, envelopes, and a reader of messages |
| `Sei`, `Mdat`, `SeiBytes` | varints, emulation bytes, protobuf fields, the walk over NAL units, their encoders, and recordings byte by byte |
| `Gears`, `Processor` | gear runs and deduplication of a processed clip |
| `PairWalk`, `FsdEvents`, `Aggregate`, `Lookahead`, `Bounds`, `ClipRow` | one pass over a clip: sums, online automata, their lookahead specification, the second counter, bounds, and a row from points, speeds and states alone |
| `DriveSummary`, `Outliers` | a drive from cached rows and from raw points, and which points are outliers |
| `Grouping`, `DriveSplit`, `Drives`, `DriveDetail` | from rows to drives, and list against detail |
| `ParkGaps`, `SegmentData`, `GearCount`, `GearRules`, `CountAgrees` | splitting inside clips, what a segment holds, and counting without splitting |
| `Stats`, `RouteStats`, `HistoryRows`, `SplitsAgree` | statistics of the history from cached rows and from raw clips, and when both are cut alike |
| `Blob`, `Store`, `StoredBytes`, `Backfill`, `Database` | column formats and their bytes, the database and its live writers, the resumable backfill, and drives read from it |
| `Import`, `ImportedContent`, `Replace`, `Export` | one transaction, batches of 200, and the way out and back |
| `Wav`, `WavSamples` | chime sounds, and their samples in whole numbers |
| `Config`, `ConfigSyntax`, `KeepAwake` | settings file, its syntax, and keep-awake |

## What the model takes as given

- Distances, speeds and percentages are exact reals. Any non-negative function of two points stands in for
  the haversine distance, and any function of a path that ignores slash direction for its timestamp.
- A database transaction is one atomic change; whether it commits is a parameter. The content is a map of
  rows, a set of processed files and a set of tag pairs. A row without points is refused, because the points
  column is NOT NULL (`server/drives/schema.go` line 61).
- A JSON document is its decoded token stream, cut where decoding fails. Floats in blobs and documents are
  IEEE bit patterns.
- `sort.Slice` is any time-ordered permutation; map iteration is any order; query results are listings
  without repetition.
- In the keep-awake machine each critical section is one step, and a watcher decides under the read lock in
  one step and acts under the write lock in another.

## Where code and documentation part

- The two disengagement counters are described as the same and are not (`Lookahead.CountersDiffer`); the
  exact condition under which they agree is `Lookahead.LookaheadNeverExceeds`.
- A push of the accelerator counts only after an engagement inside the same clip
  (`Bounds.NoPushWithoutEngagement`).
- Bluetooth messages can exceed the limit from ten pieces on (`BleSplit.MessageOverflows`,
  `BleSplit.LongResponseOverflows`).
- A container with a 64-bit size stops the box search, so a `ctts` after its start stays visible
  (`CttsEraser.ViewIsRenamedTree`).
- The drive counter can report more drives than splitting gives (`CountAgrees.CountCanExceed`); exactly when is
  `CountAgrees.CanonicalCounting`.
- The statistics from cached rows are documented as bit-identical to those from raw clips and are not: they add
  the jumps between clips, drop pairs at null-island points, and count disengagements and pushes by other rules
  (`RouteStats.StatsAgree`).
- A field whose end passes 2^63 moves the cursor of the SEI decoder back: it panics, loops, or decodes bytes that
  it had skipped (`Sei.ResultUnlessLong`, `Sei.JumpAfterMessage`, `Sei.JumpDecodes`).
- Gear runs with negative counts, which a document may hold, can put a point into two segments
  (`ParkGaps.NegativeCountsOverlap`).
- The single-transaction import reports only the routes of the last routes section
  (`Import.LastRoutesIsAll`).
- One undecodable blob keeps the backfill from ever finishing (`Backfill.BackfillRouteAggregates`), and a
  live write to a file in flight can be overwritten with old aggregates (`Backfill.SameFileRace`).
- Single quotes are escaped on writing and not restored on reading (`Config.EscapeIsNotUndone`), and a value
  of the two characters `$'` makes reading panic, also after a write that keeps it in a comment
  (`Config.WrittenIsReadable`).
- A late expiry can strand a queued keep-awake request (`KeepAwake.StrandedRequest`).
- Normalising a sound with a partial last frame can lose more than one output sample
  (`Wav.PartialFrameLosesMore`).

## Model

| member | source | states |
|---|---|---|
| CttsEraser.ParseChunks | fuse/cttseraser.cpp:224-262 | the recursive box walk ends on every file and returns what the search function finds, an error, 0 or a header offset; which boxes it enters is `CttsChain.WayIsFound` and `CttsChain.OthersAreNotEntered` |
| CttsEraser.FindCtts | fuse/cttseraser.cpp:264-275 | the offset cached at open is the search result over the whole file, uninitialised header bytes left arbitrary; on bytes it is that of `CttsChain.WayIsFound` |
| CttsEraser.SearchHitsCtts | fuse/cttseraser.cpp:224-262 | on arbitrary bytes a positive result is the start of a header inside the file whose type is `ctts` |
| CttsEraser.DoRead | fuse/cttseraser.cpp:327-366 | every read fills the buffer with the slice of one fixed virtual file at its offset, touches nothing past the bytes read, and fails without touching anything for a negative offset |
| CttsEraser.SearchFindsFirst | fuse/cttseraser.cpp:224-262 | on any serialised tree whose 64-bit containers are below 4 GiB or from 8 to 32 GiB, anywhere in a file, the parser returns the first `ctts` in search order if no such container starts before it, an error if one does, and 0 without either |
| CttsEraser.OffsetIsFirst | fuse/cttseraser.cpp:264-275 | for a whole file that starts with `ftyp` the cached offset is that same result |
| CttsEraser.RenamePatches | fuse/cttseraser.cpp:340-362 | renaming the first reachable `ctts` of the tree is overwriting four bytes of its serialisation |
| CttsEraser.ViewIsRenamedTree | fuse/cttseraser.cpp:264-366 | the virtual file is the serialisation of the same tree with its first `ctts` renamed `@@@@` if and only if there is no `ctts` or no container with a 64-bit size starts before it; otherwise it is the file unchanged |
| CttsEraser.LargeContainerAborts | fuse/cttseraser.cpp:192-262 | a container in the 64-bit size form, with any payload below 4 GiB or from 8 to 32 GiB, makes the search give up |
| CttsEraser.LargeContainerMisread | fuse/cttseraser.cpp:192-262 | for a payload of any size: the two words of the size are what the parser takes for the first child |
| CttsChain.WayIsFound | fuse/cttseraser.cpp:224-275 | on bytes: in any file of `ftyp` and then a way through `moov`, `trak`, `mdia`, `minf` and `stbl` boxes in any nesting, each after any boxes of other types, the offset is that of the `ctts` box at its end |
| CttsChain.WayIsHidden | fuse/cttseraser.cpp:340-362 | readers of such a file see four at signs as the type of that box and every other byte as it is |
| CttsChain.OthersAreNotEntered | fuse/cttseraser.cpp:243-262 | boxes of any other type are not entered: in a file of them nothing is found, whatever they hold, a `ctts` included |
| CttsChain.PlainFile | fuse/cttseraser.cpp:224-275 | in the plain file, the five types inside each other around a `ctts`, the offset is 48 |
| BleSplit.Split | server/ble/sentryusb-ble.py:939-955 | the pieces are the greedy split: each is the longest prefix of the rest whose zero-index envelope fits |
| BleSplit.LongestByBisection | server/ble/sentryusb-ble.py:946-954 | the binary search lands on the longest fitting prefix, or on one character when none fits |
| BleSplit.FitsPart | server/ble/sentryusb-ble.py:949-953 | fitting is monotone, which is what makes the bisection sound |
| BleSplit.SplitIsLossless | server/ble/sentryusb-ble.py:937-955 | the pieces concatenate to the response; all fit exactly when every single character fits |
| BleSplit.SplitIsOptimal | server/ble/sentryusb-ble.py:937-955 | no split of the response into fitting pieces uses fewer pieces |
| BleSplit.Respond | server/ble/sentryusb-ble.py:927-969 | a response that fits is sent whole, otherwise as one envelope per piece; that these are read as the pieces with their numbers is `BleReader.ResponseComesBack` |
| BleSplit.SentMessageLength | server/ble/sentryusb-ble.py:956-963 | the exact length of each message sent, and its bound: at most twice the extra digits of the total above the limit, none below ten pieces |
| BleSplit.MessageOverflows | server/ble/sentryusb-ble.py:939-963 | a message is over the limit exactly when its piece has less room than the extra digits of its indices need; a piece that is not the last has less room than the next character takes, so from ten pieces on every piece before an unescaped character is sent too long |
| BleSplit.ResponseFits | server/ble/sentryusb-ble.py:937-963 | a whole response keeps the limit exactly when every piece has room for its digits: below ten pieces when every single character fits, and from ten on only if every piece but the first starts with an escaped character |
| BleSplit.LongResponseOverflows | server/ble/sentryusb-ble.py:937-963 | any response longer than nine full pieces with a run of unescaped characters as long as a piece is sent with a message over the limit |
| BleSplit.TextBodyOverflows | server/ble/sentryusb-ble.py:919-963 | one such response, as `json.dumps` writes it, at the default MTU: the answer to request 0 whose body is a string of two thousand letters |
| BleReader.MessageReads | server/ble/sentryusb-ble.py:956-963 | a JSON reader that knows keys, decimal numbers and string escapes but not how messages are made reads from every message its request id, the number of pieces, the index of the piece and the piece |
| BleReader.ResponseComesBack | server/ble/sentryusb-ble.py:936-969 | the messages of a long response are read as pieces numbered from 0 with their total, and a client that has received them in any order, among any others, puts the response together again |
| BleReader.IdsAreValues | server/ble/sentryusb-ble.py:919-963 | request ids that are numbers or strings are single JSON values, the one thing the reader asks of an id |
| BleReader.TextBack | server/ble/sentryusb-ble.py:958-963 | undoing the escapes of a JSON string gives back every text |
| Sei.DecodeVarint | server/drives/extract.go:274-288 | value and length of the first base-128 group, 64-bit shifts included, or failure on an unfinished one |
| Sei.VarintRoundTrip | server/drives/extract.go:274-288 | decoding inverts base-128 encoding for every 64-bit value, whatever bytes follow |
| Sei.StripEmulationBytes | server/drives/extract.go:184-200 | the loop with its zero counter equals the byte grammar of emulation prevention |
| Sei.StripInvertsEscape | server/drives/extract.go:184-200 | stripping inverts the escaping of sections 7.3.1 and 7.4.1 of ITU-T H.264 |
| Sei.EscapeHasNoStartCode | server/drives/extract.go:184-200 | the escaped payload holds no start code, so the escaping in the round trip is the real one |
| Sei.DecodeSeiGPS | server/drives/extract.go:206-271 | the field loop equals the field-by-field meaning of the buffer, the cursor that moves back included: panic at a negative index, endless loop at a position it has been at, and otherwise it goes on |
| Sei.TurnGoesBack | server/drives/extract.go:207-249 | one turn moves the cursor back exactly when the end of a length-delimited field lies between 2^63 and 2^64 plus its start |
| Sei.ResultUnlessLong | server/drives/extract.go:206-271 | on any bytes: going forward without meeting such a field gives a result; the first one met makes decoding panic, loop for ever, or go on at a new position, by where it leads |
| Sei.JumpAfterMessage | server/drives/extract.go:206-271 | any message, any length after it and any bytes after that: a length below 2^63 skips ahead, or panics when its end passes 2^63; from 2^63 on decoding panics before the first byte, loops at the start of a field, and anywhere else goes on there with what it has read |
| Sei.JumpDecodes | server/drives/extract.go:206-271 | a jump back into a payload that was skipped decodes it: 33 bytes that give a sample |
| Sei.DecodeField | server/drives/extract.go:213-262 | one turn consumes exactly one encoded field and applies it |
| Sei.ParseTeslaSEI | server/drives/extract.go:157-175 | the frame search finds the payload between the 0x42 run with 0x69 and the trailing byte |
| Sei.SeiRoundTrip | server/drives/extract.go:157-288 | encoding any list of known and skippable fields, escaping and framing it, and parsing it gives back the message |
| Sei.ApplyAllIsLatest | server/drives/extract.go:213-262 | the message read back holds the last value of each field, by field number and wire type |
| SeiBytes.MessageDecodes | server/drives/extract.go:157-271 | a frame with the bytes of a message, tags and byte order as literals, is read as that message, and its fix is good exactly when its coordinates are |
| SeiBytes.FixIs | server/drives/extract.go:264-270 | good means, in the values of IEEE 754 numbers: latitude within 90, longitude within 180, both finite, not both zero |
| SeiBytes.TailDecides | server/drives/extract.go:207-262 | after any message a field that is cut off or has an unknown wire type refuses it, and an unfinished tag does not |
| SeiBytes.StrippedIs | server/drives/extract.go:184-200 | a byte is stripped exactly when it is a 3 and the two bytes before it are zero |
| Mdat.ExtractFromMdat | server/drives/extract.go:98-154 | for any offset, size and file: the five slices are parallel and hold the samples of the good SEI units in order, coordinates rounded, unless a unit makes the decoder panic or loop, and then that is the outcome |
| Mdat.ExtractionReadsEveryNal | server/drives/extract.go:98-154 | a well-formed run of length-prefixed units yields exactly the samples of all its units, in order, or the first panic or endless loop among them |
| SeiBytes.RecordingDecodes | server/drives/extract.go:98-154 | a box of units written byte by byte yields the messages with a good fix in order, whatever other units it holds |
| SeiBytes.BadLengthEnds | server/drives/extract.go:114-124 | a length below two or past the end of the box ends the walk |
| Processor.ComputeGearRuns | server/drives/processor.go:286-304 | neighbouring runs differ, every run has a frame, and expanding the runs gives the frames back |
| Processor.RunsAreUnique | server/drives/processor.go:286-304 | there is no other list of runs with those properties |
| Processor.RunsConserveFrames | server/drives/processor.go:157-168 | the runs add up to all frames, and their Park runs to the raw Park count |
| Processor.DeduplicatePoints | server/drives/processor.go:307-351 | the points and every parallel slice keep exactly the elements whose point differs from the one before; other slices are dropped |
| Processor.DedupIsIdempotent | server/drives/processor.go:307-351 | deduplicating twice is deduplicating once, and no two neighbours are equal |
| Processor.SlicesStayInSync | server/drives/processor.go:307-351 | pairing a slice with its points commutes with deduplication |
| Processor.ProcessClip | server/drives/processor.go:157-178 | what a clip is stored as: raw counts that agree with its runs, canonical runs, no repeated neighbours, and nothing stored without points |
| PairWalk.AddPair | server/drives/aggregate.go:102-150 | one pair adds its distance, speed sample and mode share, for seven totals at once; which pair and which sample is `ClipRow.OneMorePoint` |
| FsdEvents.TrackDisengage | server/drives/aggregate.go:158-174 | one step of the pending-disengagement automaton against the first-event specification |
| FsdEvents.TrackPedal | server/drives/aggregate.go:152-195 | one step of the accelerator automaton: a push is a release with a press before it that nothing has forgotten |
| FsdEvents.FlushCountsReal | server/drives/aggregate.go:152-203 | the online automaton counts exactly the disengagements whose first later event is not Park within two seconds, or that have none in a clip not ending in Park |
| Aggregate.WalkClip | server/drives/aggregate.go:93-203 | one pass over the pairs computes the sums, the number of real disengagements and the number of pushes |
| Aggregate.ComputeRouteAggregates | server/drives/aggregate.go:25-210 | the cached row of every clip, with none, one or many points, first and last valid point included; its values in terms of points, speeds and states alone are `ClipRow.RowIs` |
| ClipRow.TotalsAre | server/drives/aggregate.go:79-150 | over the pairs with both points on the map and, without measured speeds, at most 70 m/s between them: the distance is the sum of dist(points[i - 1], points[i]), the speed samples those of the later points in [0, 100) or else distance over time below 70, the mode totals those of the state of the later point |
| ClipRow.RowIs | server/drives/aggregate.go:25-210 | so for every clip a row is what its points, speeds, states, gears and pedal positions say, both event counts and the first and last point on the map included |
| ClipRow.StopsAre | server/drives/aggregate.go:158-203 | the disengagements counted are the indices where FSD goes off and the first Park or FSD after that is not Park within two seconds |
| ClipRow.PushesAre | server/drives/aggregate.go:152-195 | the pushes counted are the ends of presses of the pedal past the grace period after an engagement |
| ClipRow.OneMorePoint | server/drives/aggregate.go:93-150 | with measured speeds one more point adds exactly its distance from the last one and its own speed when it is in [0, 100), both only when both points are on the map |
| ClipRow.TwoPoints | server/drives/aggregate.go:71-150 | a clip of two points: its distance is that between them, unless nothing is measured and it is above 70 m/s over the minute |
| Lookahead.CountDisengagements | server/drives/grouper.go:1626-1683 | the second counter, with its forward scan, as a set of indices |
| Lookahead.RealOnUnskippedClip | server/drives/aggregate.go:152-203 | without skipped pairs a disengagement is real exactly unless Park follows within two seconds before FSD returns |
| Lookahead.LookaheadNeverExceeds | server/drives/grouper.go:1663-1683 | the lookahead counter never exceeds the automaton; equal exactly when every disengagement that sees Park soon was parked by FSD |
| Lookahead.AgreesWithoutParkOrReturn | server/drives/grouper.go:1663-1683 | both agree at an index that is not in Park itself and sees no FSD within two seconds |
| Lookahead.CountersDiffer | server/drives/aggregate.go:11-20 | the documented sameness fails: three points, counted once by the automaton and never by the lookahead |
| Bounds.ClipBounds | server/drives/aggregate.go:79-150 | per clip the mode times add up to at most 60000 ms and the mode distances nest inside assisted and total distance |
| Bounds.MaxSpeedIsMax | server/drives/aggregate.go:111-131 | the maximum speed is the largest plausible reading of the kept pairs, or 0 |
| Bounds.NoPushWithoutEngagement | server/drives/aggregate.go:152-195 | a clip that FSD drives from its first point on reports no accelerator push |
| DriveSummary.SummarizeFromRows | server/drives/grouper_summaries.go:209-267 | a drive from cached rows: sums of the rows plus the jumps between clips with valid points |
| DriveSummary.MedianPoint | server/drives/grouper.go:603-631 | the median of the valid points of the drive, whose value is `Outliers.MedianIsMean` |
| DriveSummary.ValidityMask | server/drives/grouper.go:640-671 | the mask after the in-place neighbour filter, later points seeing earlier removals; which points stay is `Outliers.MaskIs` |
| DriveSummary.MaskIsNonNull | server/drives/grouper.go:640-671 | the raw pass keeps exactly the non-null points precisely when there are no median or neighbour outliers |
| Outliers.MedianIsMean | server/drives/grouper.go:603-628 | there is a median exactly above two points, its latitude the mean latitude of the middle half and its longitude the mean longitude |
| Outliers.MedianIsInside | server/drives/grouper.go:615-628 | so each coordinate lies within any bounds of the middle half |
| Outliers.MedianOfEqual | server/drives/grouper.go:615-628 | equal points have themselves as median |
| Outliers.MedianIsOfPoints | server/drives/grouper.go:605-613 | it is taken over the points on the map of all clips, in order |
| Outliers.MaskIs | server/drives/grouper.go:641-671 | a point is in the mask exactly when it is on the map, within 1000 km of the median and not more than 5 km from each neighbour it then has, those before it as the mask leaves them and the one after it as it came |
| Outliers.NeighboursDecide | server/drives/grouper.go:655-671 | a plausible point within 5 km of a neighbour in the mask stays, and one that is cleared has a neighbour farther than 5 km |
| DriveSummary.SummarizeFromPoints | server/drives/grouper.go:634-836 | a drive from raw points under that mask |
| Outliers.OneMoreClip | server/drives/grouper.go:634-836 | one more clip in the raw pass adds its walk under its mask and its number of masked points, and moves the ends of the drive |
| Outliers.OneMoreRow | server/drives/grouper_summaries.go:209-267 | one more row in the cached pass adds its own sums and the distance from the last end before it to its start |
| DriveSummary.RowKeepsTotals | server/drives/grouper_summaries.go:229-262 | a cached row read back gives the totals of its clip; the stored average loses nothing |
| DriveSummary.CachedDriveRefinesRaw | server/drives/grouper_summaries.go:209-267 | without outliers the cached drive equals the raw one in every total, average, count and end point, except that its distance is larger by exactly the jumps; equal entirely just when the jumps are 0 |
| Bounds.ShareIsPercentage | server/drives/grouper_summaries.go:268-275 | a rounded share of a part lies in 0..100 |
| Bounds.DrivePercentages | server/drives/grouper_summaries.go:229-275 | every percentage of a drive lies in 0..100, jumps included |
| Grouping.Deduplicate | server/drives/grouper_summaries.go:35-43 | the first row of every path modulo slash direction, in order |
| Grouping.SortByTime | server/drives/grouper_summaries.go:54-56 | some time-ordered permutation; nothing more is used of it |
| Grouping.SplitByTime | server/drives/grouper_summaries.go:58-70 | inner gaps of at most five minutes, boundary gaps above, nothing lost or reordered |
| Grouping.TimeSplitIsUnique | server/drives/grouper_summaries.go:58-70 | there is only one such split |
| DriveSplit.ClipIsParkDominant | server/drives/grouper_summaries.go:165-190 | when a clip counts as parked, by a park run of two seconds or by its raw counts |
| GearRules.ParkDominantIs | server/drives/grouper_summaries.go:165-190 | in counts: a Park run of two seconds of the minute, or, without runs, more than half of the frames in Park |
| DriveSplit.SplitByGear | server/drives/grouper_summaries.go:135-159 | the pieces of a time group, the whole group when everything is parked |
| DriveSplit.PiecesAreRuns | server/drives/grouper_summaries.go:135-159 | the pieces are the maximal runs of clips that are not park-dominant |
| DriveSplit.GearSplitKeeps | server/drives/grouper_summaries.go:135-159 | no piece is empty and together they are the moving clips, or the whole parked group |
| DriveSplit.SplitBySignature | server/drives/grouper_summaries.go:93-128 | the map-and-order loop equals bucketing by signature in order of first appearance, unsigned clips first |
| DriveSplit.SigSplitKeeps | server/drives/grouper_summaries.go:93-128 | bucketing loses and repeats no clip |
| DriveSplit.SigSplitShape | server/drives/grouper_summaries.go:93-128 | every bucket is non-empty, in time order and of one signature |
| Drives.GroupSummaryClips | server/drives/grouper_summaries.go:34-88 | the drives are cut from the time groups of some ordered permutation of the candidates |
| Drives.DrivesAreCanonical | server/drives/grouper_summaries.go:34-159 | drives are non-empty, time-ordered, pairwise disjoint by normalised path, and hold exactly the clips kept |
| Drives.DroppedClips | server/drives/grouper_summaries.go:34-159 | a clip is dropped exactly when it is park-dominant in a time group that also holds one that is not |
| DriveDetail.DriveClipFiles | server/drives/grouper_summaries.go:339-349 | the set of paths of a drive |
| DriveDetail.BuildDriveFromFiles | server/drives/grouper.go:253-278 | not found without a matching row, else the span of the matched rows whatever order the sort picks |
| DriveDetail.DrivesAreListed | server/drives/grouper_summaries.go:355-366 | every drive of the list meets what the agreement below asks of a drive |
| DriveDetail.DetailIsFound | server/drives/grouper.go:253-278 | the detail of a listed drive is always found |
| DriveDetail.ListAndDetailAgree | server/drives/grouper.go:253-278 | list entry and detail have the same start and end, hence the same tags; the same clip count exactly when no path of the drive belongs to two rows |
| ParkGaps.SplitClipAtParkGaps | server/drives/grouper.go:366-494 | the segments and park boundaries of a clip, and the clip itself without a gap; what each segment holds is `SegmentData.SegmentsAre` |
| SegmentData.SegmentsAre | server/drives/grouper.go:366-494 | what a clip with a gap is cut into, in order: a boundary for every gap, and for every longest stretch of other runs with points a segment that holds exactly clip.points[lo..hi] and the same entries of every slice long enough, from the rounded bounds of its frames, with its start time that fraction of a minute later |
| SegmentData.WholeClipIs | server/drives/grouper.go:366-415 | without frames or without a gap it is the clip itself |
| SegmentData.SegmentsShareNothing | server/drives/grouper.go:421-451 | without negative counts two segments hold different indices of the clip, but for its last one |
| ParkGaps.MergedInOrder | server/drives/grouper.go:384-405 | merged frame ranges are in order, do not overlap and stay inside the clip |
| ParkGaps.WindowsAreInBounds | server/drives/grouper.go:427-451 | whatever the gear runs, negative counts included, a segment is cut inside the points |
| ParkGaps.OrderedRangesAreSafe | server/drives/grouper.go:427-445 | whatever the counts, a driving range that ends no later than another starts is cut before it, except that the clamp can share the last point |
| ParkGaps.WindowsAreSafe | server/drives/grouper.go:427-445 | for all gear runs without negative counts, non-empty windows are in bounds, ordered by start and disjoint, except that the clamp can share the last point |
| ParkGaps.NegativeCountsOverlap | server/drives/grouper.go:384-445 | with a negative count in a document two segments can share points |
| ParkGaps.SegmentsStayParallel | server/drives/grouper.go:447-471 | a slice parallel to its points stays parallel in every segment |
| GearCount.SplitByGearState | server/drives/grouper.go:304-355 | the drives of a time group, with and without gear runs |
| GearCount.SplitByGearStateLegacy | server/drives/grouper.go:499-536 | the clip-level fallback for data without gear runs |
| GearCount.GearStateSplitKeeps | server/drives/grouper.go:304-355 | no drive is empty and together, in order, they are the unparked segments with points |
| GearRules.GroupIsCut | server/drives/grouper.go:304-355 | a group with gear runs is cut into the longest stretches, between boundaries, of what its clips contribute in order, or left whole when only boundaries remain |
| GearRules.LegacyGroupIsCut | server/drives/grouper.go:304-355 | a group without runs is cut into the longest stretches of clips that are not parked, or left whole when there are none, when no clip has gears, and when it has one clip |
| GearRules.LegacyParkedIs | server/drives/grouper.go:540-560 | a clip without runs is parked exactly when more than half of its frames, or of its points, are |
| GearCount.CountGearSplitsInGroup | server/drives/grouper.go:1727-1799 | the counter on metadata, and the heuristic of the branch without gear runs |
| GearRules.LegacyCount | server/drives/grouper.go:1731-1757 | without runs the counter reports one drive more than there are clips with some Park, at most 0.6 of their frames, behind a clip with more than that |
| CountAgrees.CountingAgreesWithSplitting | server/drives/grouper.go:1758-1798 | for all gear runs: counting equals splitting exactly when as many stretches between park gaps move without receiving a point as receive one without moving, or when both give one drive by fallback |
| CountAgrees.CanonicalCounting | server/drives/grouper.go:1758-1798 | for runs as they are computed, counting is never below splitting, and equals it exactly when every moving stretch receives a point or a single drive is counted |
| CountAgrees.CountCanExceed | server/drives/grouper.go:1758-1798 | it can be above: a stop in a clip with a single point counts two drives where splitting gives one |
| Stats.ComputeAggregateStats | server/drives/grouper_summaries.go:379-486 | the totals over the time groups, their drives counted and their jumps added |
| HistoryRows.ChosenAre | server/drives/grouper_summaries.go:387-396 | grouped are, in order, the first row of each normalised path if its timestamp can be read |
| HistoryRows.FiveMinutes | server/drives/grouper_summaries.go:403-415 | neighbours in a time group are at most five minutes apart, and more lie between two groups |
| HistoryRows.OneMoreRow | server/drives/grouper_summaries.go:429-461 | one more row in a group adds its distance and the jump to it, and unless it is from Tessie the same as measured distance and its times, distances and events of the modes |
| HistoryRows.OneMoreGroup | server/drives/grouper_summaries.go:416-475 | one more group adds its drives, its distances and modes, and the time from its first clip to a minute after the start of its last |
| HistoryRows.PercentagesAre | server/drives/grouper_summaries.go:477-483 | the two percentages are those of the measured distance, to a tenth |
| Stats.TessieAddsNothing | server/drives/grouper_summaries.go:445-461 | Tessie clips contribute nothing to mode times, mode distances and events |
| Stats.ModeTotalsOfHistory | server/drives/grouper_summaries.go:387-461 | whatever order the sort picked, the mode totals are the sum over the deduplicated, readable clips that are not from Tessie |
| Stats.HistoryPercentages | server/drives/grouper_summaries.go:477-483 | FSD share <= assisted share, both in 0..100, and the dashcam distance is part of the total |
| Stats.ComputedRowsAreGood | server/drives/grouper_summaries.go:421-483 | every row the clip pass writes meets what the percentages need |
| Stats.CountFromColumns | server/drives/grouper_summaries.go:492-557 | the count depends on raw counts and gear runs alone, so columns and raw clips give the same number |
| Stats.CountedDrives | server/drives/grouper_summaries.go:421-428 | the number of drives reported is never below what splitting the raw clips gives, and equal exactly when in every time group that counts several drives each moving stretch receives a point |
| RouteStats.WalkRoute | server/drives/grouper.go:1601-1702 | the loop over one clip: distances and mode times of the pairs, null-island points included, and its own two counters |
| HistoryRows.RouteMilesAre | server/drives/grouper.go:1601-1660 | what a raw clip adds, from its points and states alone: its driven distance, and unless it is from Tessie the same as measured distance and the pairs of each mode |
| HistoryRows.RouteCountsAre | server/drives/grouper.go:1626-1702 | and its two event counts: disengagements that see no Park within two seconds before FSD returns, and ends of presses |
| RouteStats.ComputeAggregateStatsFromRoutes | server/drives/grouper.go:1548-1722 | the totals over the deduplicated, readable clips in some time order, and over their time groups |
| RouteStats.RowsMakeTheHistory | server/drives/grouper_summaries.go:369-396 | the rows of the same clips are chosen and grouped alike, so what the lemmas below compare is what both functions report |
| RouteStats.MilesDiffer | server/drives/grouper_summaries.go:369-376 | the documented identity, for every history: same drives and duration; cached distances and mode times plus the pairs at null-island points equal the others plus the jumps, so they are the same exactly when these balance |
| RouteStats.StatsAgree | server/drives/grouper_summaries.go:369-376 | on a history without skipped pairs all statistics are identical exactly when jumps and null-island pairs balance and in every dashcam clip each disengagement that sees Park soon was parked by FSD and each push has a press past the grace period; the cached rows never count fewer disengagements nor more pushes |
| RouteStats.CountersBounded | server/drives/grouper_summaries.go:369-376 | for every history, skipped pairs included: the rows miss no disengagement but those the other counter takes before a skipped pair, and have no push but those after a pair at a null-island point |
| RouteStats.PushesDiffer | server/drives/grouper_summaries.go:369-376 | three points under FSD: a push for the one, none for the other |
| SplitsAgree.RowsCutWhole | server/drives/grouper_summaries.go:135-159 | the split of rows is cutting whole clips at the park-dominant ones, in the form of the raw split |
| SplitsAgree.WholeSplitsAgree | server/drives/grouper_summaries.go:135-159 | two sets of parked clips cut a group alike exactly when they are the same or both cut nothing |
| SplitsAgree.AlikeWithRuns | server/drives/grouper.go:304-355 | with gear runs: rows and raw clips are cut alike exactly when every clip is either unparked and kept whole, or parked and none of it driven; where the raw split finds nothing to drive, when the rows are not cut either |
| SplitsAgree.AlikeWithoutRuns | server/drives/grouper.go:499-536 | without gear runs: exactly when both park tests flag the same clips or neither cuts, and without any gear state when the rows are not cut |
| Blob.EncodePoints | server/drives/blob.go:29-40 | a nil slice stays nil, otherwise one 16-byte record per point |
| Blob.DecodePoints | server/drives/blob.go:42-58 | nil stays nil, a length that is no multiple of 16 is refused, otherwise every record is read |
| Blob.PointsRoundTrip | server/drives/blob.go:29-58 | decoding inverts encoding, for every bit pattern |
| Blob.Float32sRoundTrip | server/drives/blob.go:90-114 | decoding inverts encoding, for every bit pattern |
| Blob.EncodeGearRuns | server/drives/blob.go:122-137 | nil stays nil, otherwise a gear byte and a 32-bit frame count per run |
| Blob.DecodeGearRuns | server/drives/blob.go:139-156 | nil stays nil, a length that is no multiple of 5 is refused |
| Blob.GearRunsRoundTrip | server/drives/blob.go:122-156 | runs come back with counts narrowed to 32 bits: unchanged exactly when every count fits |
| Blob.BlobsRoundTrip | server/drives/blob.go:42-156 | encoding inverts decoding on every blob that decodes |
| Store.DecodeOfNewColumns | server/drives/export.go:158-207 | a stored record reads back as itself with 32-bit frame counts, the source "sei" left out and a signed zero percentage cleared |
| StoredBytes.DecodeReads | server/drives/export.go:158-207 | a row can be read exactly when its blobs hold whole records, and each field is then made of its bytes in order, the low byte first |
| Store.Database.AddRoute | server/drives/store.go:373-532 | one transaction: the clip marked processed and, with points, its row replaced with provenance kept; nothing when it fails |
| StoredBytes.LiveRowIs | server/drives/store.go:373-532 | the row a live write leaves: blobs that hold the record byte by byte, aggregates of its floats, and the signature and percentage that were there |
| Store.AddRouteKeeps | server/drives/store.go:373-532 | populated rows stay consistent with their blobs, clips with routes stay marked, and no NULL row appears |
| Store.Database.MarkProcessed | server/drives/store.go:536-552 | only the normalised path is added |
| Store.Database.SetDriveTags | server/drives/store.go:714-752 | exactly the given tags, empty ones apart, for one drive; the others keep theirs |
| Store.TagsAfterSet | server/drives/store.go:714-774 | what the tags of a drive are afterwards, both directions |
| Store.Database.ClearProcessedForReprocess | server/drives/store.go:826-834 | processed files become empty, routes and tags stay |
| Store.ReprocessUntracks | server/drives/store.go:826-834 | afterwards clips with routes are marked processed only if there are none |
| Backfill.BackfillOneBatch | server/drives/backfill.go:103-252 | either min(200, NULL rows) rows receive the aggregates of their own blobs, or nothing changes and the reason is given |
| Backfill.BackfillRouteAggregates | server/drives/backfill.go:50-97 | rows filled and rows still NULL add up; success leaves none; undisturbed it succeeds exactly when every NULL row decodes |
| Backfill.StepKeeps | server/drives/backfill.go:50-252 | every step of any interleaving, a reprocess included, keeps populated rows consistent and the batch in flight fresh and creates no NULL row; every step but a reprocess keeps clips with routes marked |
| Backfill.RunKeeps | server/drives/backfill.go:50-252 | the same over whole runs with crashes, cancellations, live writes and reprocesses, from any consistent database |
| Backfill.CommitDrains | server/drives/backfill.go:81-95 | each commit of a non-empty batch lowers the number of NULL rows by the size of the batch |
| Backfill.RunFills | server/drives/backfill.go:50-252 | what a run leads to depends on its live writes alone |
| Backfill.BackfillIsConfluent | server/drives/backfill.go:50-252 | two drained runs with the same live writes end in the same table, wherever batches were cut or lost |
| Backfill.StaleBatch | server/drives/backfill.go:189-248 | a commit keeps rows consistent exactly when every value still is what the present blobs give |
| Backfill.SameFileRace | server/drives/backfill.go:103-252 | a live write to a file of the batch in flight: harmless exactly when old and new aggregates agree |
| Backfill.AggregatesDiffer | server/drives/backfill.go:103-252 | they need not agree |
| Database.ColumnsAreRows | server/drives/store.go:990-1162 | once no row is NULL, the aggregate columns of any clips are what the clip pass computes from their decoded blobs |
| Database.DrivesFromColumns | server/drives/grouper_summaries.go:205-267 | a drive without outliers reads the same from columns and from blobs, its distance larger by exactly the jumps |
| Database.DrivesAfterBackfill | server/drives/backfill.go:50-252 | the same after any run of the backfill among live writes, cuts and crashes that leaves no NULL row |
| Import.ImportJson | server/drives/import.go:71-237 | all or nothing: the effective writes in order when the final commit succeeds, or an unchanged database; with the three counts reported |
| Import.StreamRoutes | server/drives/import.go:278-371 | routes up to the first refused one, and the processed files created on the side |
| Import.StreamDriveTags | server/drives/import.go:375-414 | one write per non-empty tag |
| Import.RunMeans | server/drives/import.go:107-142 | after any list of writes a row is that of the last record for its normalised path, and marks and tags only accumulate |
| ImportedContent.AcceptedExactly | server/drives/import.go:71-237 | a document is accepted exactly when it is complete and every route in it has points |
| ImportedContent.ImportMeans | server/drives/import.go:71-414 | what an accepted document leaves: a path is processed exactly if it was, is listed or has a route; a tag is there exactly if it was or is given and not empty; a row is that of the last record for its path, or the old one |
| ImportedContent.NewRowIs | server/drives/import.go:278-371 | the row of an imported record: blobs that hold it byte by byte, aggregates of its floats, the default source for none, NULL for an empty signature and a percentage of zero |
| ImportedContent.CountsMean | server/drives/import.go:195-237 | the processed files reported are the listed paths and the routes whose path is new, the tags reported those written |
| Import.RunKeeps | server/drives/import.go:278-371 | importing keeps rows consistent and clips marked, and creates no NULL row |
| Import.LastRoutesIsAll | server/drives/import.go:195-201 | the number of routes reported is the number written exactly when routes come in one section |
| Replace.BatchWriter.constructor | server/drives/replace.go:225-262 | a fresh writer has nothing open and nothing written |
| Replace.BatchWriter.WriteRoute | server/drives/replace.go:357-412 | the row joins the open batch and its file is reported new exactly when it was not marked before; a refused row changes nothing |
| Replace.BatchWriter.MaybeFlush | server/drives/replace.go:266-271 | batches are committed after every 200 writes and never otherwise |
| Replace.BatchWriter.Flush | server/drives/replace.go:275-316 | everything written is committed and no transaction is left open |
| Replace.BatchWriter.Close | server/drives/replace.go:320-341 | what was not committed is gone, what was stays |
| Replace.ReplaceDataFromReader | server/drives/replace.go:98-202 | after the wipe: all effective writes on success, the full batches of 200 on failure, and the content after every commit |
| Replace.RestoreBothWays | server/drives/replace.go:98-202 | batches and single transaction succeed together and then agree; on failure the batches keep a prefix missing fewer than 200 writes |
| Replace.CrashPointsAreSound | server/drives/replace.go:98-202 | whatever is committed at a crash is a prefix of the writes in which every route file is marked and every row populated with its own aggregates |
| Replace.RouteStatsAgree | server/drives/replace.go:164-172 | both imports report the same number of routes exactly when routes come in one section |
| Export.ExportJson | server/drives/export.go:40-72 | the document lists every processed file, row and tag once; refused exactly when some blob does not decode or some float is not finite |
| StoredBytes.ExportsExactly | server/drives/export.go:138-224 | a row can be exported exactly when its blobs hold whole records and no float in them is infinite or NaN, in terms of their bytes |
| Export.WriteDriveTags | server/drives/export.go:229-287 | one entry per key, and together exactly the tag pairs |
| Export.ColumnsComeBack | server/drives/export.go:138-224 | the columns of a row survive export and import exactly when no optional blob is empty and the provenance is not blank |
| Export.ExportThenRestore | server/drives/export.go:89-287 | restoring an export: routes come back exactly when every row survives, tags exactly when none is empty, processed files gain the files of the routes |
| Wav.ParseWavInfo | server/api/lock_chime.go:412-461 | the chunk walk: padding, a short or overlong format chunk, a data chunk before any format |
| Wav.ParseWavDuration | server/api/lock_chime.go:351-398 | the duration by the byte rate the header claims |
| Wav.EnsureMonoWav | server/api/lock_chime.go:465-567 | accepted, rejected or undefined on every input |
| WavSamples.HeadDecides | server/api/lock_chime.go:412-420 | fewer than 44 bytes, or a head other than RIFF, four bytes and WAVE, are refused |
| WavSamples.ChunksAreSkipped | server/api/lock_chime.go:412-461 | any chunks of other types before and after the format chunk are passed over, padded to even size: the format is that of its bytes and the samples lie behind the head of the data chunk |
| WavSamples.MonoIs | server/api/lock_chime.go:484-513 | before resampling there is one sample for every whole frame: the mean of its signed little-endian samples, rounded toward zero |
| WavSamples.ResampleIs | server/api/lock_chime.go:517-538 | output sample i is the value at i * rate / 44100 on the line between its two neighbours, rounded toward zero, in whole numbers throughout |
| WavSamples.InterpolationIsLinear | server/api/lock_chime.go:530-534 | it is the source sample where it falls on one, never turns back between two, and is less than one unit from the line |
| WavSamples.ThreeSamples | server/api/lock_chime.go:524-538 | samples 0, 0, 1000 at 48000 Hz give 88 at index 1 |
| WavSamples.BuiltBytes | server/api/lock_chime.go:543-563 | the bytes of a rewritten file, header fields as literals and samples low byte first |
| Wav.MixInRange | server/api/lock_chime.go:499-513 | the mean of the channels, truncated toward zero, stays in the 16-bit range |
| Wav.MixOfEqualChannels | server/api/lock_chime.go:499-513 | equal channels mix to themselves |
| Wav.ResampleInRange | server/api/lock_chime.go:517-538 | interpolated samples stay between their neighbours, hence in range |
| Wav.PositionInside | server/api/lock_chime.go:524-538 | every output sample stems from a source sample |
| Wav.OutLenIs | server/api/lock_chime.go:521 | the number of output samples as an integer quotient |
| Wav.HeaderParses | server/api/lock_chime.go:412-461 | a file with a 44-byte header for 16-bit mono at any rate parses as what the header says |
| Wav.BuiltParses | server/api/lock_chime.go:543-563 | a rewritten file parses as PCM, mono, 44100 Hz, 16 bits with its payload at offset 44 |
| Wav.BuiltHoldsSamples | server/api/lock_chime.go:561-563 | and its payload reads back as the samples |
| Wav.NormalisationIsNormalForm | server/api/lock_chime.go:465-567 | what is accepted is in normal form, and normalising it again changes nothing |
| Wav.RewrittenPayload | server/api/lock_chime.go:465-567 | the samples of the accepted file are the converted ones |
| Wav.ReportedDuration | server/api/lock_chime.go:441-446 | the reported duration is the true one whenever the byte rate fits 32 bits |
| Wav.DurationShrinks | server/api/lock_chime.go:465-567 | the output never lasts longer; the loss is below one output sample exactly when the bytes of a partial frame would not complete another sample, which holds for whole frames and at 44100 Hz |
| Wav.PartialFrameLosesMore | server/api/lock_chime.go:465-567 | it can be more: a file of 47 bytes, 16-bit mono at 48000 Hz, is accepted and loses more than one output sample |
| Config.Unquote | server/config/parser.go:162-181 | the value of a raw right-hand side, and the one input on which slicing panics |
| ConfigSyntax.UnquotedMeans | server/config/parser.go:162-181 | a trimmed right-hand side in quotes is what they enclose, in dollar quotes likewise unless it is the two characters alone, and otherwise it ends before the first inline comment |
| ConfigSyntax.TrimMeans | server/config/parser.go:162-164 | trimming takes off white space at both ends and nothing else |
| ConfigSyntax.QuoteMeans | server/config/parser.go:185-195 | a value is written bare exactly when it is not empty and has no special character, otherwise in single quotes with its own escaped |
| Config.QuoteRoundTrip | server/config/parser.go:162-195 | reading a written value gives it back exactly when it has no single quote and no blank at its ends unless quoted anyway |
| Config.EscapeIsNotUndone | server/config/parser.go:193-194 | a value with a single quote comes back with the escape left in |
| Config.ParseLines | server/config/parser.go:25-51 | the last value of each active and of each commented key, or nothing exactly when some value panics |
| ConfigSyntax.ActiveMeans | server/config/parser.go:15-51 | a line is active exactly when it is blanks, export, blanks, a name, an equals sign and the rest |
| ConfigSyntax.CommentedMeans | server/config/parser.go:15-51 | and commented exactly when it is blanks, a hash sign and an active line |
| Config.WriteLines | server/config/parser.go:96-159 | every line rewritten by its kind, then the unseen keys in any map order |
| ConfigSyntax.LineBecomes | server/config/parser.go:113-139 | an assignment to a configured variable, commented or not, becomes the plain one with its value; another active one gets a hash sign in front; all else stays |
| ConfigSyntax.NewLineIs | server/config/parser.go:141-147 | behind the old lines there are only assignments to configured variables that no line mentions |
| ConfigSyntax.EveryNewLine | server/config/parser.go:141-147 | each such variable has one, and there are no more lines than that |
| Config.WrittenIsReadable | server/config/parser.go:113-147 | the written file can be read exactly when the values of the variables it leaves out can |
| Config.KeptValuePanics | server/config/parser.go:113-147 | one that cannot: an old comment holds the two characters |
| Config.WrittenIsActive | server/config/parser.go:113-147 | reading it succeeds and gives the configuration if and only if those values can be read and every configured value is writable; whenever it succeeds exactly the configured keys are active |
| Config.PlainLinesSurvive | server/config/parser.go:113-139 | lines that are no assignments stay verbatim and in order |
| Config.DroppedAreCommented | server/config/parser.go:113-139 | when the values left out can be read, reading succeeds and the commented keys are all keys mentioned before that are not configured, with their last value |
| Config.WriteIsIdempotent | server/config/parser.go:96-159 | writing the same configuration again changes no line, whatever the map order |
| Config.ConfigRoundTrip | server/config/parser.go:25-159 | for every text and configuration: writing and reading gives the configuration back if and only if its keys match the pattern, its values are writable and single lines, and the values left out can be read |
| Config.DroppedInText | server/config/parser.go:25-159 | the variables left out are then the commented ones, and other lines come back the same but for a second carriage return |
| Config.ReadingDropsReturns | server/config/parser.go:20-51 | a carriage return at the end of a line changes nothing that is read |
| Config.TextIsIdempotent | server/config/parser.go:96-159 | writing the same text again changes no character exactly when no line that is kept ends in a second carriage return |
| KeepAwake.Registry.Register | server/api/keepawake.go:49-58 | the owner is added and the flag file appears with the first one |
| KeepAwake.Registry.Release | server/api/keepawake.go:63-75 | the owner is gone, the flag file with the last one, and the answer tells whether nobody is left |
| KeepAwake.RegistryKeepsFlag | server/api/keepawake.go:42-75 | the flag file exists exactly while somebody is registered, and other owners are untouched |
| KeepAwake.Manager.Start | server/api/keepawake.go:165-205 | extends an active session, updates a queued one, or begins one, queued when busy |
| KeepAwake.Manager.Heartbeat | server/api/keepawake.go:209-229 | the locked part: extends or updates, and reports the state |
| KeepAwake.Manager.Stop | server/api/keepawake.go:232-252 | ends any session and launches awake_stop only for an active one while not busy |
| KeepAwake.Manager.Resume | server/api/keepawake.go:299-317 | the poller starts the session only if it is still queued |
| KeepAwake.Manager.Expire | server/api/keepawake.go:345-366 | the late half of an expiry: ends an active session, and closes whatever stop channel it finds |
| KeepAwake.StepKeeps | server/api/keepawake.go:142-379 | every step keeps: webui registered iff pending or active, flag iff anyone registered, no channel closed twice, stops launched on false busy checks only |
| KeepAwake.StepGrants | server/api/keepawake.go:165-366 | what each step grants: a request sets the end of an active session or the length of a queued one or begins one, a heartbeat gives ten minutes, a resumed session runs its length from now, and a stop or expiry leaves no times and no open stop channel and launches awake_stop only when not busy |
| KeepAwake.ReachableIsSound | server/api/keepawake.go:132-379 | hence every reachable state of every interleaving |
| KeepAwake.StopsOnlyWhenIdle | server/api/keepawake.go:232-366 | awake_stop is launched only in a step that ends an active session with a busy check that was false |
| KeepAwake.AttendedUnlessStale | server/api/keepawake.go:289-379 | a session keeps its stop channel and a goroutine to start or end it in every step, except exactly when an expiry decided earlier reaches a queued request |
| KeepAwake.StrandedRequest | server/api/keepawake.go:324-370 | a run that leaves a request pending with no goroutine to start it |

## Left out

- Float rounding: sums, shares, interpolation and window indices are exact reals; the rounding of extracted coordinates to six decimals is a function parameter on bit patterns.
- Trigonometry, timestamp parsing and the display fields that only convert units.
- The text of JSON, SQL and file systems, WAL and fsync; `Commit` inside a batch flush is never busy, because its closure cannot be run again (`server/drives/replace.go` lines 279-303).
- Progress callbacks, logging, throttling, retry back-off and cached row counters.
- Finding the mdat box (`server/drives/extract.go` lines 53-94): a straight walk over box headers.
- The list entry's route overview, downsampling and the full detail statistics (`server/drives/grouper.go` lines 904-1441): they repeat the pair walk.
- The two pair walks of `aggregate.go` and of `GroupSummaries` are one modelled walk, since their loop bodies are the same; they differ in the mask of valid points.
- The branch of the drive counter for data without gear runs is not compared with its splitter: their thresholds, 0.6 and 0.5, differ by design.
- A replacement of the whole database while a backfill batch is in flight.
- Lines of the settings file above the 64 KiB limit of the line scanner.
- The re-arming of the nudge after an archive, which changes no manager state, and any claim that a session is not ended early.
- HTTP handlers, the web interface, D-Bus, scripts, updates, backups, proxies and sessions.
- Sei.DecodeSeiGPS: the modelled loop keeps the set of positions it has been at, to stop where the original goes round for ever.
- CttsEraser.SearchFindsFirst: trees with a 64-bit container of 4 to 8 GiB or of 32 GiB or more, where the bytes inside decide what is found; what is read first is CttsEraser.LargeContainerMisread.
- Config.WrittenIsActive: configurations whose keys all match the pattern, as for the other lemmas on lines; Config.WrittenIsReadable and Config.ConfigRoundTrip cover any keys.
- Backfill.StepKeeps: covers live writes of files outside the batch in flight; for files inside it see Backfill.SameFileRace.
- Wav.EnsureMonoWav: a zero channel count or sample rate and an output of 4 GiB, where Go panics or the conversion is implementation-defined, are one outcome called undefined.
- Export.ExportThenRestore: paths are taken to be normalised, as every writer leaves them.
