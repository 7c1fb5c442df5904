/** Which boxes the search of fuse/cttseraser.cpp enters, on the bytes of ordinary files: sizes and types are written
    out big-endian, byte by byte. */
module CttsChain {
  import opened Bytes
  import opened CttsEraser

  // ----- bytes --------------------------------------------------------------

  /** A size in four bytes, most significant first. */
  function SizeBytes(n: uint32): (s: seq<byte>)
    ensures |s| == 4
  {
    [n / 0x100_0000, n / 0x1_0000 % 0x100, n / 0x100 % 0x100, n % 0x100]
  }

  /** A box: its size, the four characters of its type, and what it holds. */
  ghost function Box(kind: seq<byte>, body: seq<byte>): (b: seq<byte>)
    requires |kind| == 4 && 8 + |body| < 0x1_0000_0000
    ensures |b| == 8 + |body|
  {
    SizeBytes(8 + |body|) + kind + body
  }

  const FTYP_TYPE: seq<byte> := [0x66, 0x74, 0x79, 0x70]
  const CTTS_TYPE: seq<byte> := [0x63, 0x74, 0x74, 0x73]

  ghost predicate IsCtts(kind: seq<byte>) { kind == CTTS_TYPE }

  /** moov, trak, mdia, minf or stbl. */
  ghost predicate IsEntered(kind: seq<byte>) {
    || kind == [0x6d, 0x6f, 0x6f, 0x76] || kind == [0x74, 0x72, 0x61, 0x6b] || kind == [0x6d, 0x64, 0x69, 0x61]
    || kind == [0x6d, 0x69, 0x6e, 0x66] || kind == [0x73, 0x74, 0x62, 0x6c]
  }

  /** A box of another type, whatever it holds. */
  datatype Other = Other(kind: seq<byte>, body: seq<byte>)

  ghost predicate Others(os: seq<Other>) {
    forall i :: 0 <= i < |os| ==>
      && |os[i].kind| == 4 && !IsCtts(os[i].kind) && !IsEntered(os[i].kind) && 8 + |os[i].body| < 0x1_0000_0000
  }

  ghost function OthersSize(os: seq<Other>): nat {
    if os == [] then 0 else 8 + |os[0].body| + OthersSize(os[1..])
  }

  ghost function OtherBytes(os: seq<Other>): (s: seq<byte>)
    requires Others(os)
    ensures |s| == OthersSize(os)
  {
    if os == [] then [] else Box(os[0].kind, os[0].body) + OtherBytes(os[1..])
  }

  /** The way to a `ctts` box: at every level some other boxes and then the `ctts` box itself or one of the five that
      are entered, with anything after it. */
  datatype Way =
    | Here(before: seq<Other>, body: seq<byte>, after: seq<byte>)
    | Into(before: seq<Other>, kind: seq<byte>, inner: Way, after: seq<byte>)

  ghost function WaySize(w: Way): nat {
    OthersSize(w.before)
    + match w
      case Here(_, body, after) => 8 + |body| + |after|
      case Into(_, _, inner, after) => 8 + WaySize(inner) + |after|
  }

  ghost predicate Proper(w: Way) {
    && Others(w.before)
    && match w
       case Here(_, body, _) => 8 + |body| < 0x1_0000_0000
       case Into(_, kind, inner, _) =>
         |kind| == 4 && IsEntered(kind) && Proper(inner) && 8 + WaySize(inner) < 0x1_0000_0000
  }

  ghost function WayBytes(w: Way): (s: seq<byte>)
    requires Proper(w)
    ensures |s| == WaySize(w)
  {
    OtherBytes(w.before)
    + match w
      case Here(_, body, after) => Box(CTTS_TYPE, body) + after
      case Into(_, kind, inner, after) => Box(kind, WayBytes(inner)) + after
  }

  /** Where the `ctts` box starts. */
  ghost function CttsAt(w: Way): nat
    requires Proper(w)
  {
    OthersSize(w.before) + match w case Here(_, _, _) => 0 case Into(_, _, inner, _) => 8 + CttsAt(inner)
  }

  // ----- headers ------------------------------------------------------------

  lemma SizeReads(n: uint32)
    ensures Be32(SizeBytes(n), 0) == n
  {
    var a, b, c := n / 0x100_0000, n / 0x1_0000, n / 0x100;
    assert b / 0x100 == a && c / 0x100 == b;
    assert b == a * 0x100 + b % 0x100 && c == b * 0x100 + c % 0x100 && n == c * 0x100 + n % 0x100;
  }

  /** The header of a box in the file. */
  lemma {:induction false} BoxReads(file: seq<byte>, at: nat, kind: seq<byte>, body: seq<byte>, after: seq<byte>)
    requires |kind| == 4 && 8 + |body| < 0x1_0000_0000 && Holds(file, at, Box(kind, body) + after)
    ensures GetChunk(file, at, CTTS) == ChunkInfo(8 + |body|, Be32(kind, 0))
    ensures Holds(file, at + 8, body) && Holds(file, at + 8 + |body|, after)
  {
    var size := SizeBytes(8 + |body|);
    assert Box(kind, body) + after == size + kind + (body + after);
    Parts(file, at, size, kind, body + after);
    assert [] + body + after == body + after;
    Parts(file, at + 8, [], body, after);
    hide SizeBytes, Box;
    SizeReads(8 + |body|);
    WordAt(file, at, size, 0);
    WordAt(file, at + 4, kind, 0);
    hide Be32, Holds;
  }

  lemma KindReads(kind: seq<byte>)
    requires |kind| == 4
    ensures Be32(kind, 0) == CTTS <==> IsCtts(kind)
    ensures IsContainer(Be32(kind, 0)) <==> IsEntered(kind)
    ensures IsEntered(kind) ==> !IsCtts(kind)
  {
    Word(kind, [0x63, 0x74, 0x74, 0x73]);
    Word(kind, [0x6d, 0x6f, 0x6f, 0x76]);
    Word(kind, [0x74, 0x72, 0x61, 0x6b]);
    Word(kind, [0x6d, 0x64, 0x69, 0x61]);
    Word(kind, [0x6d, 0x69, 0x6e, 0x66]);
    Word(kind, [0x73, 0x74, 0x62, 0x6c]);
  }

  lemma Word(a: seq<byte>, b: seq<byte>)
    requires |a| == 4 && |b| == 4
    ensures Be32(a, 0) == Be32(b, 0) <==> a == b
  {
    if Be32(a, 0) == Be32(b, 0) {
      var a0: int, a1: int, a2: int, a3: int := a[0], a[1], a[2], a[3];
      var b0: int, b1: int, b2: int, b3: int := b[0], b[1], b[2], b[3];
      LastDigit(a0 * 0x1_0000 + a1 * 0x100 + a2, a3, b0 * 0x1_0000 + b1 * 0x100 + b2, b3);
      LastDigit(a0 * 0x100 + a1, a2, b0 * 0x100 + b1, b2);
      LastDigit(a0, a1, b0, b1);
    }
  }

  lemma LastDigit(a: int, x: byte, b: int, y: byte)
    requires a * 0x100 + x == b * 0x100 + y
    ensures a == b && x == y
  {
  }

  // ----- the search ---------------------------------------------------------

  /** The search passes over boxes of other types. */
  lemma {:induction false} PassesOthers(file: seq<byte>, start: nat, os: seq<Other>, rest: seq<byte>, end: int)
    requires |file| < 0x8000_0000_0000_0000 && Others(os) && Holds(file, start, OtherBytes(os) + rest)
    requires start + OthersSize(os) <= end <= |file|
    ensures Search(file, start, end) == Search(file, start + OthersSize(os), end)
    ensures Holds(file, start + OthersSize(os), rest)
    decreases os
  {
    hide GetChunk, Be32, IsContainer, Box, IsCtts, IsEntered;
    if os == [] {
      assert OtherBytes(os) + rest == rest;
    } else {
      var o := os[0];
      assert OtherBytes(os) + rest == Box(o.kind, o.body) + (OtherBytes(os[1..]) + rest);
      BoxReads(file, start, o.kind, o.body, OtherBytes(os[1..]) + rest);
      KindReads(o.kind);
      PassesOthers(file, start + 8 + |o.body|, os[1..], rest, end);
    }
  }

  /** What is found inside a box that is entered is the result. */
  lemma {:induction false} Enters(file: seq<byte>, at: nat, end: int, size: int, fourcc: uint32)
    requires |file| < 0x8000_0000_0000_0000 && 8 <= size && at + size <= end <= |file|
    requires GetChunk(file, at, CTTS) == ChunkInfo(size, fourcc) && fourcc != CTTS && IsContainer(fourcc)
    requires Search(file, at + 8, at + size) > 0
    ensures Search(file, at, end) == Search(file, at + 8, at + size)
  {
    hide GetChunk, IsContainer;
  }

  /** The search finds the `ctts` box at the end of the way. */
  lemma {:induction false} FindsTheWay(file: seq<byte>, start: nat, w: Way, end: int)
    requires |file| < 0x8000_0000_0000_0000 && Proper(w) && Holds(file, start, WayBytes(w))
    requires 0 < start && start + WaySize(w) <= end <= |file|
    ensures Search(file, start, end) == start + CttsAt(w)
    decreases w
  {
    hide GetChunk, Be32, IsContainer, IsEntered, OtherBytes, Search, WayBytes, Holds, Others;
    match w
    case Here(before, body, after) =>
      FindsHere(file, start, before, body, after, end);
    case Into(before, kind, inner, after) =>
      ReachesInner(file, start, w, end);
      FindsTheWay(file, start + OthersSize(before) + 8, inner, start + OthersSize(before) + 8 + WaySize(inner));
      Enters(file, start + OthersSize(before), end, 8 + WaySize(inner), Be32(kind, 0));
  }

  /** The search comes to the box that is entered, and its contents lie behind its header. */
  lemma {:induction false} ReachesInner(file: seq<byte>, start: nat, w: Way, end: int)
    requires |file| < 0x8000_0000_0000_0000 && Proper(w) && w.Into? && Holds(file, start, WayBytes(w))
    requires start + WaySize(w) <= end <= |file|
    ensures var at, fourcc := start + OthersSize(w.before), Be32(w.kind, 0);
            && Search(file, start, end) == Search(file, at, end)
            && GetChunk(file, at, CTTS) == ChunkInfo(8 + WaySize(w.inner), fourcc)
            && fourcc != CTTS && IsContainer(fourcc)
            && Holds(file, at + 8, WayBytes(w.inner)) && at + 8 + WaySize(w.inner) <= end
  {
    hide GetChunk, Be32, IsContainer, Box, IsCtts, IsEntered, OtherBytes, Search, WayBytes, Holds;
    IntoBytes(w);
    PassesOthers(file, start, w.before, Box(w.kind, WayBytes(w.inner)) + w.after, end);
    BoxReads(file, start + OthersSize(w.before), w.kind, WayBytes(w.inner), w.after);
    KindReads(w.kind);
  }

  lemma IntoBytes(w: Way)
    requires Proper(w) && w.Into?
    ensures WayBytes(w) == OtherBytes(w.before) + (Box(w.kind, WayBytes(w.inner)) + w.after)
  {
    hide Box, IsEntered, OtherBytes;
  }

  lemma {:induction false} FindsHere(file: seq<byte>, start: nat, before: seq<Other>, body: seq<byte>,
        after: seq<byte>, end: int)
    requires |file| < 0x8000_0000_0000_0000 && Others(before) && 8 + |body| < 0x1_0000_0000
    requires Holds(file, start, WayBytes(Here(before, body, after)))
    requires start + WaySize(Here(before, body, after)) <= end <= |file|
    ensures Search(file, start, end) == start + OthersSize(before)
  {
    hide GetChunk, Be32, IsContainer, Box, IsEntered, OtherBytes, Holds;
    assert WayBytes(Here(before, body, after)) == OtherBytes(before) + (Box(CTTS_TYPE, body) + after);
    PassesOthers(file, start, before, Box(CTTS_TYPE, body) + after, end);
    BoxReads(file, start + OthersSize(before), CTTS_TYPE, body, after);
    KindReads(CTTS_TYPE);
    hide OthersSize;
  }

  // ----- whole files --------------------------------------------------------

  lemma {:induction false} AfterFtyp(brands: seq<byte>, rest: seq<byte>, junk: uint32)
    requires 8 + |brands| < 0x1_0000_0000
    ensures var file := Box(FTYP_TYPE, brands) + rest;
            && CttsOffset(file, junk) == Search(file, 8 + |brands|, |file|)
            && Holds(file, 8 + |brands|, rest)
  {
    var file := Box(FTYP_TYPE, brands) + rest;
    WholeFile(file);
    BoxReads(file, 0, FTYP_TYPE, brands, rest);
    assert Be32(FTYP_TYPE, 0) == FTYP;
    JunkUnread(file, junk);
    hide Box, Be32, GetChunk, Search, Holds;
  }

  /** The offset of any file that starts with ftyp and has a way to a `ctts` box through the five types is that of the
      box, whatever the boxes of other types before it hold. */
  lemma {:induction false} WayIsFound(brands: seq<byte>, w: Way, junk: uint32)
    requires 8 + |brands| < 0x1_0000_0000 && Proper(w) && 8 + |brands| + WaySize(w) < 0x8000_0000_0000_0000
    ensures CttsOffset(Box(FTYP_TYPE, brands) + WayBytes(w), junk) == 8 + |brands| + CttsAt(w)
  {
    hide Search, Holds, CttsOffset, Box, WayBytes, CttsAt, Proper, WaySize;
    AfterFtyp(brands, WayBytes(w), junk);
    FindsTheWay(Box(FTYP_TYPE, brands) + WayBytes(w), 8 + |brands|, w, 8 + |brands| + WaySize(w));
  }

  /** And readers see four at signs for its type and every other byte as it is. */
  lemma {:induction false} WayIsHidden(brands: seq<byte>, w: Way, junk: uint32)
    requires 8 + |brands| < 0x1_0000_0000 && Proper(w) && 8 + |brands| + WaySize(w) < 0x8000_0000_0000_0000
    ensures var file := Box(FTYP_TYPE, brands) + WayBytes(w);
            TypeIsHidden(file, CttsOffset(file, junk))
  {
    hide *;
    FourCharacters();
    WayIsFound(brands, w, junk);
    WayHolds(w);
    HiddenAt(Box(FTYP_TYPE, brands), WayBytes(w), CttsAt(w), CttsOffset(Box(FTYP_TYPE, brands) + WayBytes(w), junk));
  }

  lemma FourCharacters()
    ensures |FTYP_TYPE| == 4
  {
  }

  ghost predicate TypeIsHidden(file: seq<byte>, at: int) {
    && 0 < at && at + 8 <= |file| == |View(file, at)| && file[at + 4..at + 8] == CTTS_TYPE
    && forall i :: 0 <= i < |file| ==> View(file, at)[i] == if at + 4 <= i < at + 8 then 0x40 else file[i]
  }

  lemma HiddenAt(head: seq<byte>, tail: seq<byte>, lo: nat, at: int)
    requires head != [] && lo + 8 <= |tail| && tail[lo + 4..lo + 8] == CTTS_TYPE && at == |head| + lo
    ensures TypeIsHidden(head + tail, at)
  {
    assert (head + tail)[at + 4..at + 8] == tail[lo + 4..lo + 8];
  }

  lemma {:induction false} WayHolds(w: Way)
    requires Proper(w)
    ensures CttsAt(w) + 8 <= |WayBytes(w)| && WayBytes(w)[CttsAt(w) + 4..CttsAt(w) + 8] == CTTS_TYPE
    decreases w
  {
    hide OtherBytes, IsEntered, Others, Box, WayBytes;
    match w
    case Here(before, body, after) =>
      HereHolds(before, body, after);
    case Into(before, kind, inner, after) =>
      WayHolds(inner);
      IntoBytes(w);
      InnerSlice(OtherBytes(before), kind, WayBytes(inner), after, CttsAt(inner) + 4, CttsAt(inner) + 8);
  }

  lemma HereHolds(before: seq<Other>, body: seq<byte>, after: seq<byte>)
    requires Others(before) && 8 + |body| < 0x1_0000_0000
    ensures var w := Here(before, body, after);
            && CttsAt(w) + 8 <= |WayBytes(w)| && WayBytes(w)[CttsAt(w) + 4..CttsAt(w) + 8] == CTTS_TYPE
  {
    hide OtherBytes, Others, SizeBytes;
    KindSlice(OtherBytes(before), body, after);
  }

  lemma KindSlice(a: seq<byte>, body: seq<byte>, after: seq<byte>)
    requires 8 + |body| < 0x1_0000_0000
    ensures (a + (Box(CTTS_TYPE, body) + after))[|a| + 4..|a| + 8] == CTTS_TYPE
  {
    hide SizeBytes;
  }

  lemma InnerSlice(a: seq<byte>, kind: seq<byte>, body: seq<byte>, after: seq<byte>, lo: nat, hi: nat)
    requires |kind| == 4 && 8 + |body| < 0x1_0000_0000 && lo <= hi <= |body|
    ensures (a + (Box(kind, body) + after))[|a| + 8 + lo..|a| + 8 + hi] == body[lo..hi]
  {
  }

  /** A `ctts` box inside a box of any other type is not found: nothing is found in a file of such boxes, whatever
      they hold. */
  lemma {:induction false} OthersAreNotEntered(brands: seq<byte>, os: seq<Other>, junk: uint32)
    requires 8 + |brands| < 0x1_0000_0000 && Others(os) && 8 + |brands| + OthersSize(os) < 0x8000_0000_0000_0000
    ensures CttsOffset(Box(FTYP_TYPE, brands) + OtherBytes(os), junk) == 0
  {
    var file, end := Box(FTYP_TYPE, brands) + OtherBytes(os), 8 + |brands| + OthersSize(os);
    AfterFtyp(brands, OtherBytes(os), junk);
    assert OtherBytes(os) + [] == OtherBytes(os);
    PassesOthers(file, 8 + |brands|, os, [], end);
    SearchEmpty(file, end);
    hide *;
  }

  /** A box with nothing beside it. */
  ghost function Alone(kind: seq<byte>, w: Way): Way { Into([], kind, w, []) }

  lemma AloneIs(kind: seq<byte>, w: Way)
    requires |kind| == 4 && IsEntered(kind) && Proper(w) && WaySize(w) < 100
    ensures Proper(Alone(kind, w)) && WaySize(Alone(kind, w)) == 8 + WaySize(w)
    ensures CttsAt(Alone(kind, w)) == 8 + CttsAt(w)
  {
    hide IsEntered;
  }

  /** The plain file: ftyp and then moov, trak, mdia, minf, stbl and ctts inside each other, without anything else. */
  lemma {:induction false} PlainFile(junk: uint32)
    ensures var stbl := Alone([0x73, 0x74, 0x62, 0x6c], Here([], [], []));
            var mdia := Alone([0x6d, 0x64, 0x69, 0x61], Alone([0x6d, 0x69, 0x6e, 0x66], stbl));
            var moov := Alone([0x6d, 0x6f, 0x6f, 0x76], Alone([0x74, 0x72, 0x61, 0x6b], mdia));
            Proper(moov) && WaySize(moov) == 48 && CttsOffset(Box(FTYP_TYPE, []) + WayBytes(moov), junk) == 48
  {
    var ctts := Here([], [], []);
    assert Proper(ctts) && WaySize(ctts) == 8 && CttsAt(ctts) == 0;
    var stbl := Alone([0x73, 0x74, 0x62, 0x6c], ctts);
    var minf := Alone([0x6d, 0x69, 0x6e, 0x66], stbl);
    var mdia := Alone([0x6d, 0x64, 0x69, 0x61], minf);
    var trak := Alone([0x74, 0x72, 0x61, 0x6b], mdia);
    hide CttsOffset, Box, WayBytes, Proper, WaySize, CttsAt, Alone;
    AloneIs([0x73, 0x74, 0x62, 0x6c], ctts);
    AloneIs([0x6d, 0x69, 0x6e, 0x66], stbl);
    AloneIs([0x6d, 0x64, 0x69, 0x61], minf);
    AloneIs([0x74, 0x72, 0x61, 0x6b], mdia);
    AloneIs([0x6d, 0x6f, 0x6f, 0x76], trak);
    WayIsFound([], Alone([0x6d, 0x6f, 0x6f, 0x76], trak), junk);
  }
}
