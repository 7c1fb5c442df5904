/** The read-only MP4 overlay of fuse/cttseraser.cpp: a recursive box parser finds
    the first reachable `ctts` box, and every read blanks the four bytes of its
    type.  A file is its sequence of bytes. */
module CttsEraser {
  import opened Bytes
  import opened DriveTypes

  const CTTS: uint32 := 0x63747473
  const FTYP: uint32 := 0x66747970
  const BLANK: uint32 := 0x40404040

  /** moov, trak, mdia, minf and stbl. */
  predicate IsContainer(fourcc: uint32) {
    || fourcc == 0x6d6f6f76 || fourcc == 0x7472616b || fourcc == 0x6d646961
    || fourcc == 0x6d696e66 || fourcc == 0x7374626c
  }

  // ----- the parser ---------------------------------------------------------

  datatype ChunkInfo = ChunkInfo(size: int, fourcc: uint32)

  /** Reads the box header at `offset`; size -1 reports a failed seek or a short
      read, in which case a type that was not read yet is whatever was in memory. */
  function GetChunk(file: seq<byte>, offset: int, junk: uint32): (info: ChunkInfo)
    ensures info.size < TWO_63
    ensures info.size >= 0 ==>
              0 <= offset <= |file| - 8 && info.fourcc == Be32(file, offset + 4)
  {
    if offset < 0 || offset + 8 > |file| then
      ChunkInfo(-1, junk)
    else
      var size := Be32(file, offset);
      var fourcc := Be32(file, offset + 4);
      if size != 1 then
        ChunkInfo(size, fourcc)
      else if offset + 16 > |file| then
        ChunkInfo(-1, fourcc)
      else
        ChunkInfo(Wrap(Be32(file, offset + 8) * TWO_32 + Be32(file, offset + 12)), fourcc)
  }

  ghost function Rank(file: seq<byte>, start: int): nat {
    if 0 <= start <= |file| then |file| - start + 1 else 0
  }

  /** What the box parser computes over [start, end): the offset of the first
      reachable `ctts` box, 0 when there is none, -1 when a header is bad. */
  ghost function Search(file: seq<byte>, start: int, end: int): int
    decreases Rank(file, start)
  {
    if start > Wrap(end - 8) then 0 else
    var info := GetChunk(file, start, CTTS);
    if info.size < 8 then -1
    else if info.fourcc == CTTS then start
    else
      var inside := if IsContainer(info.fourcc)
                    then Search(file, start + 8, Wrap(start + info.size)) else 0;
      if inside < 0 then -1
      else if inside > 0 then inside
      else Search(file, Wrap(start + info.size), end)
  }

  method ParseChunks(file: seq<byte>, start: int, end: int) returns (r: int)
    requires |file| < TWO_63
    ensures r == Search(file, start, end)
    decreases Rank(file, start)
  {
    hide GetChunk, Be32, IsContainer, Wrap;
    var pos := start;
    while true
      invariant Search(file, pos, end) == Search(file, start, end)
      invariant Rank(file, pos) <= Rank(file, start)
      decreases Rank(file, pos)
    {
      if pos > Wrap(end - 8) {
        return 0;
      }
      var info := GetChunk(file, pos, CTTS);
      if info.size < 8 {
        return -1;
      }
      if info.fourcc == CTTS {
        return pos;
      }
      if IsContainer(info.fourcc) {
        var off := ParseChunks(file, pos + 8, Wrap(pos + info.size));
        if off < 0 {
          return -1;
        }
        if off > 0 {
          return off;
        }
      }
      pos := Wrap(pos + info.size);
    }
  }

  /** The specification of find_ctts. */
  ghost function CttsOffset(file: seq<byte>, junk: uint32): int {
    var info := GetChunk(file, 0, junk);
    if info.fourcc != FTYP then 0 else Search(file, info.size, |file|)
  }

  method FindCtts(file: seq<byte>, junk: uint32) returns (r: int)
    requires |file| < TWO_63
    ensures r == CttsOffset(file, junk)
    ensures r > 0 ==> r <= |file| - 8 && Be32(file, r + 4) == CTTS
  {
    hide GetChunk, Be32, Search;
    var info := GetChunk(file, 0, junk);
    if info.fourcc != FTYP {
      return 0;
    }
    r := ParseChunks(file, info.size, |file|);
    if r > 0 {
      SearchHitsCtts(file, info.size, |file|);
    }
  }

  /** On arbitrary bytes a positive result is the start of a header whose type is `ctts`. */
  lemma {:induction false} SearchHitsCtts(file: seq<byte>, start: int, end: int)
    requires Search(file, start, end) > 0
    ensures var r := Search(file, start, end); r <= |file| - 8 && Be32(file, r + 4) == CTTS
    decreases Rank(file, start)
  {
    hide GetChunk, Be32, IsContainer, Wrap;
    var info := GetChunk(file, start, CTTS);
    if info.fourcc != CTTS {
      var inside := if IsContainer(info.fourcc)
                    then Search(file, start + 8, Wrap(start + info.size)) else 0;
      if inside > 0 {
        SearchHitsCtts(file, start + 8, Wrap(start + info.size));
      } else {
        SearchHitsCtts(file, Wrap(start + info.size), end);
      }
    }
  }

  // ----- the overlay --------------------------------------------------------

  /** The virtual file behind every read of a handle whose `ctts` offset is `ctts`. */
  ghost function View(file: seq<byte>, ctts: int): (v: seq<byte>)
    ensures |v| == |file|
  {
    if ctts > 0
    then seq(|file|, i requires 0 <= i < |file| => if ctts + 4 <= i < ctts + 8 then 0x40 else file[i])
    else file
  }

  function Min(a: int, b: int): int { if a < b then a else b }
  function Max(a: int, b: int): int { if a > b then a else b }

  /** pread: the bytes of the file from `offset` on, as many as there are. */
  method Pread(file: seq<byte>, buffer: array<byte>, size: nat, offset: nat) returns (numread: nat)
    requires size <= buffer.Length
    modifies buffer
    ensures numread == Min(size, Max(0, |file| - offset))
    ensures forall k :: 0 <= k < numread ==> buffer[k] == file[offset + k]
    ensures forall k :: numread <= k < buffer.Length ==> buffer[k] == old(buffer[k])
  {
    numread := Min(size, Max(0, |file| - offset));
    for i := 0 to numread
      invariant forall k :: 0 <= k < i ==> buffer[k] == file[offset + k]
      invariant forall k :: numread <= k < buffer.Length ==> buffer[k] == old(buffer[k])
    {
      buffer[i] := file[offset + i];
    }
  }

  /** memset of a stretch to '@'. */
  method Blank(buffer: array<byte>, from: nat, to: nat)
    requires from <= to <= buffer.Length
    modifies buffer
    ensures forall k :: 0 <= k < buffer.Length ==> buffer[k] == if from <= k < to then 0x40 else old(buffer[k])
  {
    for i := from to to
      invariant forall k :: 0 <= k < buffer.Length ==> buffer[k] == if from <= k < i then 0x40 else old(buffer[k])
    {
      buffer[i] := 0x40;
    }
  }

  /** A read fills the buffer with a slice of the virtual file and nothing else. */
  method DoRead(file: seq<byte>, cttsOffset: int, buffer: array<byte>, size: nat, offset: int) returns (numread: int)
    requires size <= buffer.Length
    modifies buffer
    ensures offset < 0 ==> numread == -1 && buffer[..] == old(buffer[..])
    ensures offset >= 0 ==>
              && numread == Min(size, Max(0, |file| - offset))
              && buffer[..numread] == View(file, cttsOffset)[Min(offset, |file|)..Min(offset + size, |file|)]
              && buffer[numread..] == old(buffer[numread..])
  {
    if offset < 0 {
      return -1;
    }
    numread := Pread(file, buffer, size, offset);
    if cttsOffset > 0 {
      var ctts := cttsOffset + 4;
      var s := Max(offset, ctts);
      var e := Min(offset + numread, ctts + 4);
      if e > s {
        Blank(buffer, s - offset, e - offset);
      }
    }
    ghost var view := View(file, cttsOffset);
    ghost var slice := view[Min(offset, |file|)..Min(offset + size, |file|)];
    assert |slice| == numread;
    assert forall k :: 0 <= k < numread ==> slice[k] == view[offset + k] == buffer[k];
    assert buffer[..numread] == slice;
  }

  // ----- box trees and their serialisation ----------------------------------

  /** A list of sibling boxes, each with a 32-bit or a 64-bit size. */
  datatype Boxes =
    | End
    | Leaf(kind: uint32, large: bool, payload: seq<byte>, next: Boxes)
    | Container(kind: uint32, large: bool, children: Boxes, next: Boxes)

  function HeaderSize(large: bool): nat { if large then 16 else 8 }

  ghost function Header(kind: uint32, large: bool, payload: nat): (h: seq<byte>)
    requires if large then 16 + payload < TWO_63 else 8 + payload < TWO_32
    ensures |h| == HeaderSize(large)
  {
    if large
    then ToBe32(1) + ToBe32(kind) + ToBe32((16 + payload) / TWO_32) + ToBe32((16 + payload) % TWO_32)
    else ToBe32(8 + payload) + ToBe32(kind)
  }

  /** The length of the serialisation. */
  ghost function Size(b: Boxes): nat {
    match b
    case End => 0
    case Leaf(_, large, payload, next) => HeaderSize(large) + |payload| + Size(next)
    case Container(_, large, children, next) => HeaderSize(large) + Size(children) + Size(next)
  }

  /** Which sizes of a container a tree may have: with 64 bits all below 4 GiB and those from 8 to 32 GiB.  For the
      others it depends on the bytes inside where the search goes on; see LargeContainerMisread. */
  predicate ContainerSize(large: bool, total: nat) {
    if large then total / TWO_32 < 8 && total / TWO_32 != 1 else total < TWO_32
  }

  ghost predicate WellFormed(b: Boxes) {
    match b
    case End => true
    case Leaf(kind, large, payload, next) =>
      !IsContainer(kind) && (if large then 16 + |payload| < TWO_63 else 8 + |payload| < TWO_32) && WellFormed(next)
    case Container(kind, large, children, next) =>
      && IsContainer(kind) && WellFormed(children) && WellFormed(next)
      && ContainerSize(large, HeaderSize(large) + Size(children))
  }

  ghost function Serialize(b: Boxes): (s: seq<byte>)
    requires WellFormed(b)
    ensures |s| == Size(b)
  {
    match b
    case End => []
    case Leaf(kind, large, payload, next) => Header(kind, large, |payload|) + payload + Serialize(next)
    case Container(kind, large, children, next) =>
      Header(kind, large, Size(children)) + Serialize(children) + Serialize(next)
  }

  function Shift(o: Option<nat>, d: nat): Option<nat> {
    match o case None => None case Some(n) => Some(d + n)
  }

  /** Where the first `ctts` box inside the known containers starts, in document order. */
  ghost function FirstCtts(b: Boxes): Option<nat> {
    match b
    case End => None
    case Leaf(kind, large, payload, next) =>
      if kind == CTTS then Some(0) else Shift(FirstCtts(next), HeaderSize(large) + |payload|)
    case Container(kind, large, children, next) =>
      if FirstCtts(children).Some? then Some(HeaderSize(large) + FirstCtts(children).value)
      else Shift(FirstCtts(next), HeaderSize(large) + Size(children))
  }

  /** Where the first container with a 64-bit size starts, in document order. */
  ghost function FirstLarge(b: Boxes): Option<nat> {
    match b
    case End => None
    case Leaf(kind, large, payload, next) => Shift(FirstLarge(next), HeaderSize(large) + |payload|)
    case Container(kind, large, children, next) =>
      if large then Some(0)
      else if FirstLarge(children).Some? then Some(8 + FirstLarge(children).value)
      else Shift(FirstLarge(next), 8 + Size(children))
  }

  /** No container with a 64-bit size starts before the first `ctts`. */
  ghost predicate InReach(b: Boxes) {
    FirstCtts(b).Some? && (FirstLarge(b).Some? ==> FirstCtts(b).value < FirstLarge(b).value)
  }

  /** The same tree with its first `ctts` box renamed `@@@@`. */
  ghost function Rename(b: Boxes): Boxes {
    match b
    case End => End
    case Leaf(kind, large, payload, next) =>
      if kind == CTTS then Leaf(BLANK, large, payload, next) else Leaf(kind, large, payload, Rename(next))
    case Container(kind, large, children, next) =>
      if FirstCtts(children).Some? then Container(kind, large, Rename(children), next)
      else Container(kind, large, children, Rename(next))
  }

  ghost function Patch(s: seq<byte>, at: nat): seq<byte>
    requires at + 4 <= |s|
  {
    s[..at] + ToBe32(BLANK) + s[at + 4..]
  }

  ghost predicate Renamed(b: Boxes)
    requires WellFormed(b)
  {
    && WellFormed(Rename(b)) && Size(Rename(b)) == Size(b)
    && match FirstCtts(b)
       case None => Rename(b) == b
       case Some(o) => o + 8 <= Size(b) && Serialize(Rename(b)) == Patch(Serialize(b), o + 4)
  }

  /** Renaming the tree is patching four bytes of its serialisation. */
  lemma {:induction false} RenamePatches(b: Boxes)
    requires WellFormed(b)
    ensures Renamed(b)
  {
    hide Header, IsContainer, Patch, ToBe32, Serialize, Rename, FirstCtts, Size, Renamed;
    match b
    case End =>
      RenamedEnd();
    case Leaf(kind, large, payload, next) =>
      RenamePatches(next);
      RenamedLeaf(kind, large, payload, next);
    case Container(kind, large, children, next) =>
      RenamePatches(children);
      RenamePatches(next);
      RenamedContainer(kind, large, children, next);
  }

  lemma RenamedEnd()
    ensures Renamed(End)
  {
  }

  lemma RenamedLeaf(kind: uint32, large: bool, payload: seq<byte>, next: Boxes)
    requires WellFormed(Leaf(kind, large, payload, next)) && Renamed(next)
    ensures Renamed(Leaf(kind, large, payload, next))
  {
    hide Header, IsContainer, Patch, ToBe32;
    if kind == CTTS {
      HeaderPatch(kind, large, |payload|);
      PatchBefore(Header(kind, large, |payload|), payload, 4);
      PatchBefore(Header(kind, large, |payload|) + payload, Serialize(next), 4);
    } else if FirstCtts(next).Some? {
      PatchAfter(Header(kind, large, |payload|) + payload, Serialize(next), FirstCtts(next).value + 4);
    }
  }

  lemma RenamedContainer(kind: uint32, large: bool, children: Boxes, next: Boxes)
    requires WellFormed(Container(kind, large, children, next)) && Renamed(children) && Renamed(next)
    ensures Renamed(Container(kind, large, children, next))
  {
    hide *;
    if FirstCtts(children).Some? {
      RenamedInside(kind, large, children, next);
    } else {
      RenamedAfter(kind, large, children, next);
    }
  }

  lemma RenamedAfter(kind: uint32, large: bool, children: Boxes, next: Boxes)
    requires WellFormed(Container(kind, large, children, next)) && Renamed(next) && FirstCtts(children).None?
    ensures Renamed(Container(kind, large, children, next))
  {
    hide Header, IsContainer, Patch, ToBe32;
    if FirstCtts(next).Some? {
      PatchAfter(Header(kind, large, Size(children)) + Serialize(children), Serialize(next), FirstCtts(next).value + 4);
    }
  }

  lemma RenamedInside(kind: uint32, large: bool, children: Boxes, next: Boxes)
    requires WellFormed(Container(kind, large, children, next)) && Renamed(children) && FirstCtts(children).Some?
    ensures Renamed(Container(kind, large, children, next))
  {
    hide Header, IsContainer, Patch, ToBe32;
    var head, at := Header(kind, large, Size(children)), FirstCtts(children).value + 4;
    PatchAfter(head, Serialize(children), at);
    PatchBefore(head + Serialize(children), Serialize(next), |head| + at);
  }

  lemma HeaderPatch(kind: uint32, large: bool, payload: nat)
    requires if large then 16 + payload < TWO_63 else 8 + payload < TWO_32
    ensures Header(BLANK, large, payload) == Patch(Header(kind, large, payload), 4)
    ensures !IsContainer(BLANK)
  {
    hide ToBe32;
    assert Header(BLANK, large, payload)[4..8] == ToBe32(BLANK);
  }

  lemma PatchAfter(a: seq<byte>, s: seq<byte>, at: nat)
    requires at + 4 <= |s|
    ensures a + Patch(s, at) == Patch(a + s, |a| + at)
  {
    hide ToBe32;
  }

  lemma PatchBefore(s: seq<byte>, z: seq<byte>, at: nat)
    requires at + 4 <= |s|
    ensures Patch(s, at) + z == Patch(s + z, at)
  {
    hide ToBe32;
  }

  // ----- the parser on trees ------------------------------------------------

  /** The parser reads back any header the serialiser wrote. */
  lemma HeaderReads(file: seq<byte>, start: nat, kind: uint32, large: bool, payload: nat)
    requires if large then 16 + payload < TWO_63 else 8 + payload < TWO_32
    requires Holds(file, start, Header(kind, large, payload))
    ensures GetChunk(file, start, CTTS) == ChunkInfo(|Header(kind, large, payload)| + payload, kind)
  {
    var h := Header(kind, large, payload);
    WordAt(file, start, h, 0);
    WordAt(file, start, h, 4);
    if large {
      WordAt(file, start, h, 8);
      WordAt(file, start, h, 12);
    }
  }

  /** One turn of the parser over a good box header that ends inside the range. */
  lemma SearchStep(file: seq<byte>, start: nat, end: nat, size: nat, kind: uint32)
    requires GetChunk(file, start, CTTS) == ChunkInfo(size, kind)
    requires 8 <= size && start + size <= end <= |file| < TWO_63
    ensures Search(file, start, end) ==
            if kind == CTTS then start
            else
              var inside := if IsContainer(kind) then Search(file, start + 8, start + size) else 0;
              if inside < 0 then -1 else if inside > 0 then inside else Search(file, start + size, end)
  {
    hide GetChunk, IsContainer, Wrap;
  }

  /** What the parser takes for the first child of a container with a 64-bit size: its size is the high word,
      its type the low word, and a high word of 1 makes it a 64-bit size read from the container's payload. */
  lemma LargeContainerMisread(file: seq<byte>, start: nat, kind: uint32, payload: nat)
    requires 16 + payload < TWO_63 && Holds(file, start, Header(kind, true, payload))
    ensures var hi, lo := (16 + payload) / TWO_32, (16 + payload) % TWO_32;
            GetChunk(file, start + 8, CTTS) ==
            if hi != 1 then ChunkInfo(hi, lo)
            else if start + 24 > |file| then ChunkInfo(-1, lo)
            else ChunkInfo(Wrap(Be32(file, start + 16) * TWO_32 + Be32(file, start + 20)), lo)
  {
    var h := Header(kind, true, payload);
    WordAt(file, start, h, 8);
    WordAt(file, start, h, 12);
  }

  /** A container with a 64-bit size is never entered: unless the high word of its size is 1 or at least 8,
      the search gives up.  That covers every payload below 4 GiB. */
  lemma LargeContainerAborts(file: seq<byte>, start: nat, end: int, kind: uint32, payload: nat)
    requires IsContainer(kind) && 16 + payload < TWO_63 && start + 16 + payload < TWO_63
    requires ContainerSize(true, 16 + payload)
    requires Holds(file, start, Header(kind, true, payload)) && start <= end - 8 && end <= |file| < TWO_63
    ensures Search(file, start, end) == -1
  {
    HeaderReads(file, start, kind, true, payload);
    LargeContainerMisread(file, start, kind, payload);
    hide GetChunk;
    CttsIsLeaf();
    assert Search(file, start + 8, start + 16 + payload) == -1;
  }

  /** The first thing the search runs into, in its own order. */
  datatype Hit = Found(at: nat) | Aborted | Nothing

  function HitOf(ctts: Option<nat>, large: Option<nat>): Hit {
    if ctts.Some? && (large.Some? ==> ctts.value < large.value) then Found(ctts.value)
    else if large.Some? then Aborted
    else Nothing
  }

  ghost function FirstHit(b: Boxes): Hit { HitOf(FirstCtts(b), FirstLarge(b)) }

  ghost function ResultOf(hit: Hit, start: int): int {
    match hit case Found(at) => start + at case Aborted => -1 case Nothing => 0
  }

  ghost function Later(hit: Hit, d: nat): Hit {
    match hit case Found(at) => Found(d + at) case Aborted => Aborted case Nothing => Nothing
  }

  lemma HitAfterLeaf(b: Boxes)
    requires b.Leaf?
    ensures FirstHit(b) ==
            if b.kind == CTTS then Found(0) else Later(FirstHit(b.next), HeaderSize(b.large) + |b.payload|)
  {
  }

  lemma {:induction false} OffsetsInside(b: Boxes)
    ensures FirstCtts(b).Some? ==> FirstCtts(b).value < Size(b)
    ensures FirstLarge(b).Some? ==> FirstLarge(b).value < Size(b)
  {
    match b
    case End =>
    case Leaf(_, _, _, next) =>
      OffsetsInside(next);
    case Container(_, _, children, next) =>
      OffsetsInside(children);
      OffsetsInside(next);
  }

  lemma HitInContainer(b: Boxes)
    requires b.Container?
    ensures FirstHit(b) ==
            if b.large then Aborted
            else if FirstHit(b.children) != Nothing then Later(FirstHit(b.children), 8)
            else Later(FirstHit(b.next), 8 + Size(b.children))
  {
    OffsetsInside(b.children);
    if b.large {
      LargeAborts(FirstCtts(b));
    } else {
      JoinHits(FirstCtts(b.children), FirstLarge(b.children), FirstCtts(b.next), FirstLarge(b.next), Size(b.children));
      hide HitOf, Later;
    }
  }

  lemma LargeAborts(ctts: Option<nat>)
    ensures HitOf(ctts, Some(0)) == Aborted
  {
  }

  /** The hits of two stretches, the first `size` long, behind a header of eight bytes. */
  lemma JoinHits(ctts: Option<nat>, large: Option<nat>, ctts': Option<nat>, large': Option<nat>, size: nat)
    requires (ctts.Some? ==> ctts.value < size) && (large.Some? ==> large.value < size)
    ensures HitOf(if ctts.Some? then Some(8 + ctts.value) else Shift(ctts', 8 + size),
                  if large.Some? then Some(8 + large.value) else Shift(large', 8 + size)) ==
            if HitOf(ctts, large) != Nothing then Later(HitOf(ctts, large), 8)
            else Later(HitOf(ctts', large'), 8 + size)
  {
  }

  /** On a serialised tree, wherever it sits in the file, the parser returns the first `ctts` if no container with
      a 64-bit size starts before it, gives up at the first such container otherwise, and returns 0 without either. */
  lemma {:induction false} SearchFindsFirst(file: seq<byte>, start: nat, b: Boxes)
    requires WellFormed(b) && 0 < start && start + Size(b) <= |file| < TWO_63
    requires Holds(file, start, Serialize(b))
    ensures Search(file, start, start + Size(b)) == ResultOf(FirstHit(b), start)
    decreases b
  {
    hide GetChunk, Header, IsContainer, Wrap, Search, Holds, Be32, ToBe32, FirstHit;
    var end := start + Size(b);
    match b
    case End =>
      SearchEmpty(file, start);
      NothingInEnd();
    case Leaf(kind, large, payload, next) =>
      var head := Header(kind, large, |payload|);
      Parts(file, start, head, payload, Serialize(next));
      HeaderReads(file, start, kind, large, |payload|);
      SearchStep(file, start, end, |head| + |payload|, kind);
      HitAfterLeaf(b);
      if kind != CTTS {
        SearchFindsFirst(file, start + |head| + |payload|, next);
      }
    case Container(kind, large, children, next) =>
      SearchContainer(file, start, b);
  }

  lemma {:induction false} SearchContainer(file: seq<byte>, start: nat, b: Boxes)
    requires b.Container? && WellFormed(b) && 0 < start && start + Size(b) <= |file| < TWO_63
    requires Holds(file, start, Serialize(b))
    ensures Search(file, start, start + Size(b)) == ResultOf(FirstHit(b), start)
    decreases b, 0
  {
    hide GetChunk, Header, IsContainer, Wrap, Search, Holds, Be32, ToBe32, FirstHit;
    var end, inner := start + Size(b), Serialize(b.children);
    Parts(file, start, Header(b.kind, b.large, |inner|), inner, Serialize(b.next));
    HitInContainer(b);
    if b.large {
      LargeContainerAborts(file, start, end, b.kind, |inner|);
    } else {
      HeaderReads(file, start, b.kind, false, |inner|);
      SearchStep(file, start, end, 8 + |inner|, b.kind);
      CttsIsLeaf();
      SearchFindsFirst(file, start + 8, b.children);
      SearchFindsFirst(file, start + 8 + |inner|, b.next);
    }
  }

  lemma NothingInEnd()
    ensures FirstHit(End) == Nothing
  {
  }

  lemma CttsIsLeaf()
    ensures !IsContainer(CTTS)
  {
  }

  lemma SearchEmpty(file: seq<byte>, start: nat)
    requires start <= |file| < TWO_63
    ensures Search(file, start, start) == 0
  {
    hide GetChunk, IsContainer, Wrap;
  }

  /** The offset cached for a whole file that starts with `ftyp`. */
  lemma OffsetIsFirst(b: Boxes, junk: uint32)
    requires WellFormed(b) && b.Leaf? && b.kind == FTYP && Size(b) < TWO_63
    ensures CttsOffset(Serialize(b), junk) == ResultOf(FirstHit(b), 0)
    ensures FirstCtts(b).Some? ==> FirstCtts(b).value > 0
  {
    hide Header, IsContainer, Search, Be32, Wrap, Holds, GetChunk, ToBe32, FirstHit;
    var file := Serialize(b);
    var head := Header(b.kind, b.large, |b.payload|);
    WholeFile(file);
    Parts(file, 0, head, b.payload, Serialize(b.next));
    HeaderReads(file, 0, b.kind, b.large, |b.payload|);
    JunkUnread(file, junk);
    HitAfterLeaf(b);
    hide Serialize, WellFormed, FirstCtts;
    SearchFindsFirst(file, |head| + |b.payload|, b.next);
    CttsAfterFtyp(b);
  }

  lemma CttsAfterFtyp(b: Boxes)
    requires b.Leaf? && b.kind == FTYP
    ensures FirstCtts(b).Some? ==> FirstCtts(b).value > 0
  {
  }

  lemma JunkUnread(file: seq<byte>, junk: uint32)
    requires GetChunk(file, 0, CTTS).size >= 0
    ensures GetChunk(file, 0, junk) == GetChunk(file, 0, CTTS)
  {
  }

  /** The overlay of a serialised file is the serialisation of the renamed tree, so by DoRead every read is a slice
      of that one file, exactly when there is no `ctts` or no container with a 64-bit size starts before it. */
  lemma ViewIsRenamedTree(b: Boxes, junk: uint32)
    requires WellFormed(b) && b.Leaf? && b.kind == FTYP && Size(b) < TWO_63
    ensures WellFormed(Rename(b))
    ensures View(Serialize(b), CttsOffset(Serialize(b), junk)) == Serialize(Rename(b)) <==>
            FirstCtts(b).None? || InReach(b)
    ensures FirstCtts(b).Some? && !InReach(b) ==> View(Serialize(b), CttsOffset(Serialize(b), junk)) == Serialize(b)
  {
    OffsetIsFirst(b, junk);
    RenamePatches(b);
    RenamedMeans(b);
    var file := Serialize(b);
    if FirstCtts(b).Some? {
      var o := FirstCtts(b).value;
      CttsThere(b);
      hide *;
      if InReach(b) {
        FoundWhenInReach(b);
        PatchIsView(file, o);
      } else {
        AbortedOtherwise(b);
        ViewOfNone(file, -1);
        PatchChanges(file, o);
      }
    } else {
      hide View, Serialize, Rename, FirstCtts, FirstLarge;
      ViewOfNone(file, ResultOf(FirstHit(b), 0));
    }
  }

  lemma FoundWhenInReach(b: Boxes)
    requires InReach(b)
    ensures ResultOf(FirstHit(b), 0) == FirstCtts(b).value
  {
  }

  lemma AbortedOtherwise(b: Boxes)
    requires FirstCtts(b).Some? && !InReach(b)
    ensures ResultOf(FirstHit(b), 0) == -1
  {
  }

  lemma RenamedMeans(b: Boxes)
    requires WellFormed(b) && Renamed(b)
    ensures WellFormed(Rename(b))
    ensures match FirstCtts(b)
            case None => Rename(b) == b
            case Some(o) => o + 8 <= |Serialize(b)| && Serialize(Rename(b)) == Patch(Serialize(b), o + 4)
  {
    hide Patch, FirstCtts, Rename, Serialize, Size, Header, WellFormed;
  }

  /** The word behind the first `ctts` offset is its type. */
  ghost predicate CttsAtOffset(b: Boxes)
    requires WellFormed(b)
  {
    FirstCtts(b).Some? ==>
      var o := FirstCtts(b).value;
      o + 8 <= Size(b) && Be32(Serialize(b), o + 4) == CTTS
  }

  lemma {:induction false} CttsThere(b: Boxes)
    requires WellFormed(b)
    ensures CttsAtOffset(b)
    decreases b
  {
    hide CttsAtOffset, Header, IsContainer, Serialize, FirstCtts, Size;
    match b
    case End => NoCttsInEnd();
    case Leaf(kind, large, payload, next) =>
      CttsThere(next);
      if kind == CTTS {
        CttsHere(b);
      } else {
        CttsAfterLeaf(b);
      }
    case Container(kind, large, children, next) =>
      CttsThere(children);
      CttsThere(next);
      CttsAroundContainer(kind, large, children, next);
  }

  lemma NoCttsInEnd()
    ensures CttsAtOffset(End)
  {
  }

  lemma CttsHere(b: Boxes)
    requires WellFormed(b) && b.Leaf? && b.kind == CTTS
    ensures CttsAtOffset(b)
  {
    hide Be32, IsContainer, ToBe32;
    HeaderType(Serialize(b), b.kind, b.large, |b.payload|);
  }

  lemma CttsAfterLeaf(b: Boxes)
    requires WellFormed(b) && b.Leaf? && b.kind != CTTS && CttsAtOffset(b.next)
    ensures CttsAtOffset(b)
  {
    hide Be32, IsContainer, ToBe32, Header;
    if FirstCtts(b.next).Some? {
      WordAfter(Header(b.kind, b.large, |b.payload|) + b.payload, Serialize(b.next), FirstCtts(b.next).value + 4);
    }
  }

  lemma CttsAroundContainer(kind: uint32, large: bool, children: Boxes, next: Boxes)
    requires WellFormed(Container(kind, large, children, next)) && CttsAtOffset(children) && CttsAtOffset(next)
    ensures CttsAtOffset(Container(kind, large, children, next))
  {
    hide Be32, IsContainer, ToBe32, Header;
    if FirstCtts(children).Some? {
      InsideWord(kind, large, children, next);
    } else if FirstCtts(next).Some? {
      WordAfter(Header(kind, large, Size(children)) + Serialize(children), Serialize(next), FirstCtts(next).value + 4);
    }
  }

  lemma InsideWord(kind: uint32, large: bool, children: Boxes, next: Boxes)
    requires WellFormed(Container(kind, large, children, next)) && FirstCtts(children).Some?
    requires FirstCtts(children).value + 8 <= Size(children)
    ensures var at := FirstCtts(children).value + 4;
            Be32(Serialize(Container(kind, large, children, next)), HeaderSize(large) + at) ==
            Be32(Serialize(children), at)
  {
    hide Be32, IsContainer, ToBe32, Header;
    var head, at := Header(kind, large, Size(children)), FirstCtts(children).value + 4;
    WordAfter(head, Serialize(children), at);
    WordBefore(head + Serialize(children), Serialize(next), |head| + at);
  }

  lemma HeaderType(s: seq<byte>, kind: uint32, large: bool, payload: nat)
    requires if large then 16 + payload < TWO_63 else 8 + payload < TWO_32
    requires Header(kind, large, payload) <= s
    ensures |s| >= 8 && Be32(s, 4) == kind
  {
    var h := Header(kind, large, payload);
    assert h[4..8] == ToBe32(kind);
    assert Be32(h, 4) == Be32(ToBe32(kind), 0);
    assert forall i :: 0 <= i < |h| ==> s[i] == h[i];
  }

  lemma WordAfter(a: seq<byte>, s: seq<byte>, i: nat)
    requires i + 4 <= |s|
    ensures Be32(a + s, |a| + i) == Be32(s, i)
  {
    var t := a + s;
    assert t[|a| + i] == s[i] && t[|a| + i + 1] == s[i + 1] && t[|a| + i + 2] == s[i + 2] && t[|a| + i + 3] == s[i + 3];
  }

  lemma WordBefore(s: seq<byte>, z: seq<byte>, i: nat)
    requires i + 4 <= |s|
    ensures Be32(s + z, i) == Be32(s, i)
  {
  }

  lemma PatchIsView(s: seq<byte>, o: nat)
    requires 0 < o && o + 8 <= |s|
    ensures Patch(s, o + 4) == View(s, o)
  {
  }

  lemma ViewOfNone(s: seq<byte>, offset: int)
    requires offset <= 0
    ensures View(s, offset) == s
  {
  }

  /** Blanking a `ctts` type really changes the file. */
  lemma PatchChanges(s: seq<byte>, o: nat)
    requires o + 8 <= |s| && Be32(s, o + 4) == CTTS
    ensures Patch(s, o + 4) != s
  {
    WordAfter(s[..o + 4], ToBe32(BLANK) + s[o + 8..], 0);
    WordBefore(ToBe32(BLANK), s[o + 8..], 0);
    hide Be32, ToBe32;
    assert Patch(s, o + 4) == s[..o + 4] + (ToBe32(BLANK) + s[o + 8..]);
    assert Be32(Patch(s, o + 4), o + 4) == BLANK;
  }
}
