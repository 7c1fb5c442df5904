/** The samples of a rewritten chime in integers: what mixing and resampling make of the source samples
    (server/api/lock_chime.go lines 500-542). */
module WavSamples {
  import opened Bytes
  import opened DriveTypes
  import opened Blob
  import opened Wav

  /** num / den toward zero. */
  function Quotient(num: int, den: int): int
    requires den > 0
  {
    if num >= 0 then num / den else -(-num / den)
  }

  /** The weighted sum of two samples. */
  function Weighted(s0: int, s1: int, part: int): int { s0 * (44100 - part) + s1 * part }

  /** Output sample `i` of a resampled chime: it lies at `i * rate` 44100ths of a source sample, and is the two samples
      around that place weighted by their distance from it, rounded toward zero; on the last sample it is that. */
  ghost function Interpolated(mono: seq<int>, rate: uint32, i: nat): int
    requires i * rate / 44100 < |mono|
  {
    var idx, part := i * rate / 44100, i * rate % 44100;
    if idx + 1 < |mono| then Quotient(Weighted(mono[idx], mono[idx + 1], part), 44100) else mono[idx]
  }

  lemma PlaceIs(i: nat, rate: uint32)
    requires rate > 0
    ensures var p := Position(i, rate);
            && p.Floor == i * rate / 44100 && (p - p.Floor as real) * 44100.0 == (i * rate % 44100) as real
  {
    var p, k := Position(i, rate), i * rate;
    assert Ratio(rate) * 44100.0 == rate as real;
    assert p * 44100.0 == i as real * (Ratio(rate) * 44100.0);
    assert k as real == i as real * rate as real;
    hide Position, Ratio;
    FloorIs(p, k, 44100);
  }

  lemma FloorIs(x: real, n: nat, d: int)
    requires d > 0 && x * d as real == n as real
    ensures x >= 0.0 && x.Floor == n / d && (x - x.Floor as real) * d as real == (n % d) as real
  {
    var q, r := n / d, n % d;
    assert n == q * d + r;
    assert (q * d) as real == q as real * d as real;
    var e := x - q as real;
    assert e * d as real == r as real;
    assert e < 0.0 ==> e * d as real < 0.0;
    assert e >= 1.0 ==> e * d as real >= d as real;
  }

  lemma TruncIs(x: real, num: int, den: int)
    requires den > 0 && x * den as real == num as real
    ensures Trunc(x) == Quotient(num, den)
  {
    if num >= 0 {
      FloorIs(x, num, den);
    } else {
      assert (-x) * den as real == (-num) as real;
      FloorIs(-x, -num, den);
      assert x >= 0.0 ==> x * den as real >= 0.0;
    }
  }

  lemma WeightIs(s0: int, s1: int, frac: real, part: nat)
    requires frac * 44100.0 == part as real
    ensures Between(s0, s1, frac) == Quotient(Weighted(s0, s1, part), 44100)
  {
    var d := (s1 - s0) as real;
    var x := s0 as real + Portion(frac, d);
    assert Portion(frac, d) * 44100.0 == (frac * 44100.0) * d;
    assert part as real * d == (part * (s1 - s0)) as real;
    assert part * (s1 - s0) == part * s1 - part * s0;
    TruncIs(x, s0 * (44100 - part) + s1 * part, 44100);
  }

  /** Every sample of the resampled chime is interpolated between its two neighbours in the source. */
  lemma {:induction false} ResampleIs(mono: seq<int>, rate: uint32, i: nat)
    requires rate > 0 && rate != 44100
    ensures |Resample(mono, rate)| == 44100 * |mono| / rate
    ensures i < |Resample(mono, rate)| ==>
              i * rate / 44100 < |mono| && Resample(mono, rate)[i] == Interpolated(mono, rate, i)
  {
    OutLenIs(|mono|, rate);
    OutLenNonNegative(|mono|, rate);
    hide OutLen, Position, Between, Quotient;
    if i < |Resample(mono, rate)| {
      PositionInside(|mono|, rate, i);
      PlaceIs(i, rate);
      var idx := i * rate / 44100;
      if idx + 1 < |mono| {
        WeightIs(mono[idx], mono[idx + 1], Position(i, rate) - idx as real, i * rate % 44100);
      }
    }
  }

  lemma QuotientIs(num: int)
    ensures -44100 < Quotient(num, 44100) * 44100 - num < 44100
  {
  }

  lemma QuotientGrows(a: int, b: int)
    requires a <= b
    ensures Quotient(a, 44100) <= Quotient(b, 44100)
  {
  }

  lemma WeightedGrows(s0: int, s1: int, a: nat, b: nat)
    requires a <= b && s0 <= s1
    ensures Weighted(s0, s1, a) <= Weighted(s0, s1, b) && Weighted(s1, s0, a) >= Weighted(s1, s0, b)
  {
    assert Weighted(s0, s1, b) - Weighted(s0, s1, a) == (b - a) * (s1 - s0);
    assert Weighted(s1, s0, a) - Weighted(s1, s0, b) == (b - a) * (s1 - s0);
  }

  /** So it is a source sample where it falls on one, moves from one sample to the next without turning back, and is
      never a whole unit away from the straight line. */
  lemma {:induction false} InterpolationIsLinear(s0: int, s1: int, a: nat, b: nat)
    requires a <= b < 44100
    ensures Quotient(Weighted(s0, s1, 0), 44100) == s0
    ensures s0 <= s1 ==> Quotient(Weighted(s0, s1, a), 44100) <= Quotient(Weighted(s0, s1, b), 44100)
    ensures s0 >= s1 ==> Quotient(Weighted(s0, s1, a), 44100) >= Quotient(Weighted(s0, s1, b), 44100)
    ensures -44100 < Quotient(Weighted(s0, s1, a), 44100) * 44100 - Weighted(s0, s1, a) < 44100
  {
    assert Weighted(s0, s1, 0) == s0 * 44100;
    QuotientIs(Weighted(s0, s1, a));
    hide Weighted;
    if s0 <= s1 {
      WeightedGrows(s0, s1, a, b);
      QuotientGrows(Weighted(s0, s1, a), Weighted(s0, s1, b));
    }
    if s0 >= s1 {
      WeightedGrows(s1, s0, a, b);
      QuotientGrows(Weighted(s0, s1, b), Weighted(s0, s1, a));
    }
  }

  /** Three samples at 48000 Hz. */
  lemma {:induction false} ThreeSamples()
    ensures |Resample([0, 0, 1000], 48000)| == 2 && Resample([0, 0, 1000], 48000)[1] == 88
  {
    ResampleIs([0, 0, 1000], 48000, 1);
    hide Resample;
  }

  // ----- mixing -------------------------------------------------------------

  /** The sum of `k` samples from `lo` on. */
  ghost function Sum(s: seq<int>, lo: nat, k: nat): int
    requires lo + k <= |s|
    decreases k
  {
    if k == 0 then 0 else s[lo] + Sum(s, lo + 1, k - 1)
  }

  lemma {:induction false} SumSnoc(s: seq<int>, lo: nat, k: nat)
    requires lo + k < |s|
    ensures Sum(s, lo, k + 1) == Sum(s, lo, k) + s[lo + k]
    decreases k
  {
    if k > 0 {
      SumSnoc(s, lo + 1, k - 1);
    }
  }

  lemma {:induction false} SumIs(s: seq<int>, lo: nat, k: nat)
    requires lo + k <= |s|
    ensures SumOf(s[lo..lo + k]) == Sum(s, lo, k)
  {
    if k > 0 {
      SumIs(s, lo, k - 1);
      SumSnoc(s, lo, k - 1);
      assert s[lo..lo + k][..k - 1] == s[lo..lo + (k - 1)];
    }
  }

  /** Every mixed sample is the mean of the samples of its frame, rounded toward zero. */
  lemma {:induction false} MixIs(s: seq<int>, channels: nat, n: nat, i: nat)
    requires channels > 0 && |s| == n * channels && i < n
    ensures i * channels + channels <= |s|
    ensures Mix(s, channels, n)[i] == Quotient(Sum(s, i * channels, channels), channels)
  {
    MulMono(i, n, channels);
    MulStep(i, channels);
    SumIs(s, i * channels, channels);
    hide SumOf, Sum;
  }

  // ----- bytes --------------------------------------------------------------

  /** Two bytes as a signed number, the low one first. */
  function Signed(low: int, high: int): int { low + 0x100 * if high < 0x80 then high else high - 0x100 }

  /** Samples are read as signed little-endian numbers, two bytes each. */
  lemma {:induction false} SampleIs(data: seq<byte>, offset: nat, i: nat)
    ensures SampleAt(data, offset, i) ==
            if offset + 2 * i + 2 <= |data| then Signed(data[offset + 2 * i], data[offset + 2 * i + 1]) else 0
  {
    if offset + 2 * i + 2 <= |data| {
      LowFirst(data[offset + 2 * i..offset + 2 * i + 2]);
      hide Le;
    }
  }

  /** Where a format chunk holds its fields. */
  lemma {:induction false} FormatIs(data: seq<byte>, pos: nat)
    requires pos + 24 <= |data|
    ensures var f := FormatAt(data, pos);
            && f.audio == Two(data[pos + 8], data[pos + 9]) && f.channels == Two(data[pos + 10], data[pos + 11])
            && f.rate == Four(data[pos + 12], data[pos + 13], data[pos + 14], data[pos + 15])
            && f.bits == Two(data[pos + 22], data[pos + 23])
  {
    LowFirst(data[pos + 8..pos + 10]);
    LowFirst(data[pos + 10..pos + 12]);
    LowFirst(data[pos + 12..pos + 16]);
    LowFirst(data[pos + 22..pos + 24]);
    hide Le;
  }

  ghost predicate Chars(b: seq<byte>, i: nat, c0: byte, c1: byte, c2: byte, c3: byte)
    requires i + 4 <= |b|
  {
    b[i] == c0 && b[i + 1] == c1 && b[i + 2] == c2 && b[i + 3] == c3
  }

  ghost function Four4(b: seq<byte>, i: nat): int
    requires i + 4 <= |b|
  {
    Four(b[i], b[i + 1], b[i + 2], b[i + 3])
  }

  /** The first 44 bytes of a rewritten file with `size` bytes of samples: RIFF, the size of the rest, WAVE, a format
      chunk of 16 bytes for PCM, one channel, 44100 Hz, 88200 bytes a second, two bytes a frame and 16 bits, and the
      head of the data chunk. */
  ghost predicate HeaderBytes(b: seq<byte>, size: nat)
    requires |b| >= 44
  {
    && Chars(b, 0, 0x52, 0x49, 0x46, 0x46) && Four4(b, 4) == 36 + size
    && Chars(b, 8, 0x57, 0x41, 0x56, 0x45) && Chars(b, 12, 0x66, 0x6d, 0x74, 0x20) && Four4(b, 16) == 16
    && Two(b[20], b[21]) == 1 && Two(b[22], b[23]) == 1
    && Four4(b, 24) == 44100 && Four4(b, 28) == 88200
    && Two(b[32], b[33]) == 2 && Two(b[34], b[35]) == 16
    && Chars(b, 36, 0x64, 0x61, 0x74, 0x61) && Four4(b, 40) == size
  }

  lemma FourAt(b: seq<byte>, i: nat, v: nat)
    requires i + 4 <= |b| && U32(b, i) == v
    ensures Four4(b, i) == v
  {
    LowFirst(b[i..i + 4]);
    hide Le;
  }

  lemma CharsAt(b: seq<byte>, i: nat, c0: byte, c1: byte, c2: byte, c3: byte)
    requires i + 4 <= |b| && U32(b, i) == Four(c0, c1, c2, c3)
    ensures Chars(b, i, c0, c1, c2, c3)
  {
    FourAt(b, i, U32(b, i));
    hide U32;
    var a0: int, a1: int, a2: int, a3: int := b[i], b[i + 1], b[i + 2], b[i + 3];
    SameLow(a0, a1 + 0x100 * a2 + 0x1_0000 * a3, c0, c1 + 0x100 * c2 + 0x1_0000 * c3);
    SameLow(a1, a2 + 0x100 * a3, c1, c2 + 0x100 * c3);
    SameLow(a2, a3, c2, c3);
  }

  lemma SameLow(x: int, a: int, y: int, b: int)
    requires 0 <= x < 0x100 && 0 <= y < 0x100 && x + 0x100 * a == y + 0x100 * b
    ensures x == y && a == b
  {
  }

  /** The bytes of a rewritten file. */
  lemma {:induction false} BuiltBytes(samples: seq<int>)
    requires 44 + 2 * |samples| < 0x1_0000_0000
    ensures |Built(samples)| == 44 + 2 * |samples| && HeaderBytes(Built(samples), 2 * |samples|)
    ensures forall i :: 0 <= i < |samples| && -0x8000 <= samples[i] < 0x8000 ==>
              Signed(Built(samples)[44 + 2 * i], Built(samples)[44 + 2 * i + 1]) == samples[i]
  {
    var b, size := Built(samples), 2 * |samples|;
    Holding(b, size, samples);
    hide Built, Header, Signed, SampleAt, HeaderBytes;
    HeaderHolds(b, size);
    forall i | 0 <= i < |samples| && -0x8000 <= samples[i] < 0x8000
      ensures Signed(b[44 + 2 * i], b[44 + 2 * i + 1]) == samples[i]
    {
      BuiltSample(samples, b, i);
    }
  }

  lemma {:induction false} BuiltSample(samples: seq<int>, b: seq<byte>, i: nat)
    requires b == Built(samples) && i < |samples| && -0x8000 <= samples[i] < 0x8000 && |b| == 44 + 2 * |samples|
    ensures Signed(b[44 + 2 * i], b[44 + 2 * i + 1]) == samples[i]
  {
    hide Built, Signed, SampleAt;
    SampleIs(b, 44, i);
    BuiltHoldsSamples(samples, i);
  }

  lemma TypeWords()
    ensures RIFF == Four(0x52, 0x49, 0x46, 0x46) && WAVE == Four(0x57, 0x41, 0x56, 0x45)
    ensures FMT == Four(0x66, 0x6d, 0x74, 0x20) && DATA == Four(0x64, 0x61, 0x74, 0x61)
  {
  }

  lemma {:induction false} HeaderHolds(b: seq<byte>, size: nat)
    requires Holds(b, 0, Header(44100, size)) && 36 + size < 0x1_0000_0000
    ensures |b| >= 44 && HeaderBytes(b, size)
  {
    hide Holds, U32, U16, Header, Four, Two, Chars, FormatAt, RIFF, WAVE, FMT, DATA;
    HeaderReads(b, 44100, size);
    TypeWords();
    FormatIs(b, 12);
    CharsAt(b, 0, 0x52, 0x49, 0x46, 0x46);
    FourAt(b, 4, 36 + size);
    CharsAt(b, 8, 0x57, 0x41, 0x56, 0x45);
    CharsAt(b, 12, 0x66, 0x6d, 0x74, 0x20);
    FourAt(b, 16, 16);
    FourAt(b, 28, 88200);
    CharsAt(b, 36, 0x64, 0x61, 0x74, 0x61);
    FourAt(b, 40, size);
    BlockAlign(b);
  }

  lemma BlockAlign(b: seq<byte>)
    requires |b| >= 44
    ensures U16(b, 32) == Two(b[32], b[33])
  {
    LowFirst(b[32..34]);
    hide Le;
  }

  // ----- from file to file --------------------------------------------------

  /** The samples before resampling: one for every whole frame, the mean of its channels as the file holds them. */
  lemma {:induction false} MonoIs(data: seq<byte>, info: WavInfo, j: nat)
    requires info.fmt.channels > 0
    ensures |MonoOf(data, info)| == info.dataSize / (2 * info.fmt.channels)
    ensures j < |MonoOf(data, info)| ==>
              MonoOf(data, info)[j] == Quotient(ChannelSum(data, info, j, info.fmt.channels), info.fmt.channels)
  {
    var n, ch := FrameCount(info), info.fmt.channels;
    ProductNonNegative(n, ch);
    var s := Samples(data, info.dataOffset, n * ch);
    if j < n {
      MulMono(j, n, ch);
      MulStep(j, ch);
      FrameIs(data, info, j, ch, s);
      if ch > 1 {
        MixIs(s, ch, n, j);
      } else {
        OneChannel(s, j);
      }
    }
    hide Mix, Samples, Sum, Quotient, ChannelSum;
  }

  /** The sum of the first `k` channels of frame `j`. */
  ghost function ChannelSum(data: seq<byte>, info: WavInfo, j: nat, k: nat): int {
    if k == 0 then 0 else
      ChannelSum(data, info, j, k - 1) + SampleAt(data, info.dataOffset, j * info.fmt.channels + (k - 1))
  }

  lemma {:induction false} FrameIs(data: seq<byte>, info: WavInfo, j: nat, k: nat, s: seq<int>)
    requires k <= info.fmt.channels && j * info.fmt.channels + info.fmt.channels <= |s|
    requires s == Samples(data, info.dataOffset, |s|)
    ensures j * info.fmt.channels >= 0 && Sum(s, j * info.fmt.channels, k) == ChannelSum(data, info, j, k)
  {
    hide SampleAt;
    MulStep(j, info.fmt.channels);
    if k > 0 {
      FrameIs(data, info, j, k - 1, s);
      SumSnoc(s, j * info.fmt.channels, k - 1);
    }
  }

  lemma OneChannel(s: seq<int>, j: nat)
    requires j < |s|
    ensures Quotient(Sum(s, j * 1, 1), 1) == s[j]
  {
    assert Sum(s, j + 1, 0) == 0;
  }

  // ----- other chunks -------------------------------------------------------

  /** A chunk that is neither format nor data; `pad` follows a body of odd length. */
  datatype Chunk = Chunk(id: seq<byte>, size: seq<byte>, body: seq<byte>, pad: byte)

  ghost predicate IsId(id: seq<byte>, c0: byte, c1: byte, c2: byte, c3: byte) {
    |id| == 4 && Four(id[0], id[1], id[2], id[3]) == Four(c0, c1, c2, c3)
  }

  ghost predicate Sized(size: seq<byte>, n: nat) {
    |size| == 4 && Four(size[0], size[1], size[2], size[3]) == n
  }

  ghost predicate OtherChunk(c: Chunk) {
    && |c.id| == 4 && Sized(c.size, |c.body|)
    && !IsId(c.id, 0x66, 0x6d, 0x74, 0x20) && !IsId(c.id, 0x64, 0x61, 0x74, 0x61)
  }

  ghost function ChunkBytes(c: Chunk): seq<byte> {
    c.id + c.size + (c.body + if |c.body| % 2 == 1 then [c.pad] else [])
  }

  ghost predicate OtherChunks(cs: seq<Chunk>) { forall i :: 0 <= i < |cs| ==> OtherChunk(cs[i]) }

  ghost function AllChunks(cs: seq<Chunk>): seq<byte> {
    if cs == [] then [] else ChunkBytes(cs[0]) + AllChunks(cs[1..])
  }

  lemma IdReads(data: seq<byte>, at: nat, id: seq<byte>)
    requires |id| == 4 && Holds(data, at, id)
    ensures at + 4 <= |data| && U32(data, at) == Four(id[0], id[1], id[2], id[3])
  {
    assert data[at..at + 4] == id;
    LowFirst(id);
    hide Le;
  }

  lemma IsType(id: seq<byte>)
    requires |id| == 4
    ensures Four(id[0], id[1], id[2], id[3]) == FMT <==> IsId(id, 0x66, 0x6d, 0x74, 0x20)
    ensures Four(id[0], id[1], id[2], id[3]) == DATA <==> IsId(id, 0x64, 0x61, 0x74, 0x61)
  {
    hide Four, FMT, DATA;
    TypeWords();
  }

  lemma {:induction false} OneSkipped(data: seq<byte>, pos: nat, fmt: Option<Format>, c: Chunk)
    requires OtherChunk(c) && Holds(data, pos, ChunkBytes(c))
    ensures InfoFrom(data, pos, fmt) == InfoFrom(data, pos + |ChunkBytes(c)|, fmt)
  {
    hide Four, U32, InfoFrom, Holds, ChunkBytes, FMT, DATA;
    ChunkHead(data, pos, c);
    IsType(c.id);
    InfoStep(data, pos, fmt);
  }

  /** The head and the length of a chunk. */
  lemma ChunkHead(data: seq<byte>, pos: nat, c: Chunk)
    requires |c.id| == 4 && Sized(c.size, |c.body|) && Holds(data, pos, ChunkBytes(c))
    ensures |ChunkBytes(c)| == 8 + |c.body| + |c.body| % 2 && pos + |ChunkBytes(c)| <= |data|
    ensures U32(data, pos) == Four(c.id[0], c.id[1], c.id[2], c.id[3]) && U32(data, pos + 4) == |c.body|
    ensures Holds(data, pos + 8, c.body)
  {
    hide Four, Holds, U32;
    var pad: seq<byte> := if |c.body| % 2 == 1 then [c.pad] else [];
    assert |pad| == |c.body| % 2;
    Parts(data, pos, c.id, c.size, c.body + pad);
    Pair(data, pos + 8, c.body, pad);
    IdReads(data, pos, c.id);
    IdReads(data, pos + 4, c.size);
  }

  lemma {:induction false} AllSkipped(data: seq<byte>, pos: nat, fmt: Option<Format>, cs: seq<Chunk>, rest: seq<byte>)
    requires OtherChunks(cs) && Holds(data, pos, AllChunks(cs) + rest)
    ensures InfoFrom(data, pos, fmt) == InfoFrom(data, pos + |AllChunks(cs)|, fmt)
    ensures Holds(data, pos + |AllChunks(cs)|, rest)
    decreases cs
  {
    hide ChunkBytes, OtherChunk, InfoFrom, Holds;
    if cs == [] {
      assert AllChunks(cs) + rest == rest;
    } else {
      var first, more := ChunkBytes(cs[0]), AllChunks(cs[1..]) + rest;
      assert AllChunks(cs) + rest == first + more;
      Pair(data, pos, first, more);
      OneSkipped(data, pos, fmt, cs[0]);
      AllSkipped(data, pos + |first|, fmt, cs[1..], rest);
    }
  }

  const RIFF_ID: seq<byte> := [0x52, 0x49, 0x46, 0x46]
  const WAVE_ID: seq<byte> := [0x57, 0x41, 0x56, 0x45]
  const DATA_ID: seq<byte> := [0x64, 0x61, 0x74, 0x61]

  /** The four types as words. */
  lemma TypeIds()
    ensures |RIFF_ID| == 4 && |WAVE_ID| == 4 && |DATA_ID| == 4
    ensures Four(RIFF_ID[0], RIFF_ID[1], RIFF_ID[2], RIFF_ID[3]) == RIFF
    ensures Four(WAVE_ID[0], WAVE_ID[1], WAVE_ID[2], WAVE_ID[3]) == WAVE
    ensures Four(DATA_ID[0], DATA_ID[1], DATA_ID[2], DATA_ID[3]) == DATA
    ensures DATA != FMT
  {
  }

  /** A file: RIFF, anything, WAVE, any chunks, a format chunk, any chunks, and the data chunk, which may lack bytes. */
  ghost function WavFile(total: seq<byte>, before: seq<Chunk>, fmt: Chunk, between: seq<Chunk>, size: seq<byte>,
        payload: seq<byte>): seq<byte>
  {
    var last := DATA_ID + size + payload;
    RIFF_ID + total + WAVE_ID + (AllChunks(before) + (ChunkBytes(fmt) + (AllChunks(between) + last)))
  }

  lemma {:induction false} FormatRead(data: seq<byte>, pos: nat, fmt: Option<Format>, c: Chunk, rest: seq<byte>)
    requires |c.id| == 4 && IsId(c.id, 0x66, 0x6d, 0x74, 0x20) && Sized(c.size, |c.body|) && |c.body| >= 16
    requires Holds(data, pos, ChunkBytes(c) + rest)
    ensures pos + 24 <= |data| && Holds(data, pos + |ChunkBytes(c)|, rest)
    ensures InfoFrom(data, pos, fmt) == InfoFrom(data, pos + |ChunkBytes(c)|, Some(FormatAt(data, pos)))
    ensures var f, b := FormatAt(data, pos), c.body;
            && f.audio == Two(b[0], b[1]) && f.channels == Two(b[2], b[3])
            && f.rate == Four(b[4], b[5], b[6], b[7]) && f.bits == Two(b[14], b[15])
  {
    hide Four, Two, U32, FormatAt, InfoFrom, Holds, ChunkBytes, FMT, DATA;
    Pair(data, pos, ChunkBytes(c), rest);
    ChunkHead(data, pos, c);
    IsType(c.id);
    InfoStep(data, pos, fmt);
    BodyAt(data, pos + 8, c.body);
    FormatIs(data, pos);
  }

  lemma BodyAt(data: seq<byte>, at: nat, body: seq<byte>)
    requires Holds(data, at, body) && |body| >= 16
    ensures at + 16 <= |data| && data[at] == body[0] && data[at + 1] == body[1] && data[at + 2] == body[2]
    ensures data[at + 3] == body[3] && data[at + 4] == body[4] && data[at + 5] == body[5] && data[at + 6] == body[6]
    ensures data[at + 7] == body[7] && data[at + 14] == body[14] && data[at + 15] == body[15]
  {
  }

  /** Chunks of other types, padded to an even size, are passed over before and after the format chunk: the format is
      that of its bytes and the samples lie behind the head of the data chunk. */
  lemma {:induction false} ChunksAreSkipped(total: seq<byte>, before: seq<Chunk>, fmt: Chunk, between: seq<Chunk>,
        size: seq<byte>, payload: seq<byte>)
    requires |total| == 4 && |size| == 4 && OtherChunks(before) && OtherChunks(between)
    requires |fmt.id| == 4 && IsId(fmt.id, 0x66, 0x6d, 0x74, 0x20) && Sized(fmt.size, |fmt.body|) && |fmt.body| >= 16
    ensures var file := WavFile(total, before, fmt, between, size, payload);
            var at := 12 + |AllChunks(before)|;
            |file| >= 44 ==>
              && Info(file).Ok?
              && var info := Info(file).value;
              && info.dataOffset == at + |ChunkBytes(fmt)| + |AllChunks(between)| + 8
              && info.dataSize == Four(size[0], size[1], size[2], size[3])
              && info.fmt.audio == Two(fmt.body[0], fmt.body[1]) && info.fmt.channels == Two(fmt.body[2], fmt.body[3])
              && info.fmt.rate == Four(fmt.body[4], fmt.body[5], fmt.body[6], fmt.body[7])
              && info.fmt.bits == Two(fmt.body[14], fmt.body[15])
  {
    hide RIFF_ID, WAVE_ID, DATA_ID, ChunkBytes, AllChunks, InfoFrom, Info, FormatAt, U32, InfoOf, Holds, Four, Two,
         OtherChunks;
    var file := WavFile(total, before, fmt, between, size, payload);
    var last := DATA_ID + size + payload;
    var later := ChunkBytes(fmt) + (AllChunks(between) + last);
    var at := 12 + |AllChunks(before)|;
    var d := at + |ChunkBytes(fmt)| + |AllChunks(between)|;
    TypeIds();
    RiffHead(file, RIFF_ID, total, WAVE_ID, AllChunks(before) + later);
    if |file| >= 44 {
      AllSkipped(file, 12, None, before, later);
      FormatRead(file, at, None, fmt, AllChunks(between) + last);
      var f := FormatAt(file, at);
      AllSkipped(file, at + |ChunkBytes(fmt)|, Some(f), between, last);
      DataFound(file, d, f, size, payload);
    }
  }

  lemma RiffHead(file: seq<byte>, riff: seq<byte>, total: seq<byte>, wave: seq<byte>, rest: seq<byte>)
    requires |riff| == 4 && |total| == 4 && |wave| == 4 && file == riff + total + wave + rest
    requires Four(riff[0], riff[1], riff[2], riff[3]) == RIFF && Four(wave[0], wave[1], wave[2], wave[3]) == WAVE
    ensures Holds(file, 12, rest)
    ensures |file| >= 44 ==> Info(file) == InfoFrom(file, 12, None)
  {
    hide *;
    HeadAndRest(file, riff + total + wave, rest);
    TypesRead(file, riff, total, wave);
    HeaderPasses(file);
  }

  lemma HeadAndRest(file: seq<byte>, head: seq<byte>, rest: seq<byte>)
    requires file == head + rest
    ensures Holds(file, 0, head) && Holds(file, |head|, rest)
  {
    WholeFile(file);
    Pair(file, 0, head, rest);
  }

  lemma TypesRead(file: seq<byte>, riff: seq<byte>, total: seq<byte>, wave: seq<byte>)
    requires |riff| == 4 && |total| == 4 && |wave| == 4 && Holds(file, 0, riff + total + wave)
    requires Four(riff[0], riff[1], riff[2], riff[3]) == RIFF && Four(wave[0], wave[1], wave[2], wave[3]) == WAVE
    ensures 12 <= |file| && U32(file, 0) == RIFF && U32(file, 8) == WAVE
  {
    hide *;
    Parts(file, 0, riff, total, wave);
    IdReads(file, 0, riff);
    IdReads(file, 8, wave);
  }

  lemma HeaderPasses(file: seq<byte>)
    requires |file| >= 12 && U32(file, 0) == RIFF && U32(file, 8) == WAVE
    ensures |file| >= 44 ==> Info(file) == InfoFrom(file, 12, None)
  {
    hide U32, InfoFrom, RIFF, WAVE;
  }

  lemma {:induction false} DataFound(file: seq<byte>, d: nat, f: Format, size: seq<byte>, payload: seq<byte>)
    requires |size| == 4 && Holds(file, d, DATA_ID + size + payload)
    ensures d + 8 <= |file|
    ensures InfoFrom(file, d, Some(f)) == Ok(InfoOf(f, d + 8, U32(file, d + 4)))
    ensures U32(file, d + 4) == Four(size[0], size[1], size[2], size[3])
    ensures InfoOf(f, d + 8, U32(file, d + 4)).fmt == f && InfoOf(f, d + 8, U32(file, d + 4)).dataOffset == d + 8
    ensures InfoOf(f, d + 8, U32(file, d + 4)).dataSize == U32(file, d + 4)
  {
    hide DATA_ID, Four, U32, Holds, DATA, FMT, InfoFrom;
    TypeIds();
    Parts(file, d, DATA_ID, size, payload);
    IdReads(file, d, DATA_ID);
    IdReads(file, d + 4, size);
    InfoStep(file, d, Some(f));
  }

  /** One turn of the chunk walk. */
  lemma {:induction false} InfoStep(data: seq<byte>, pos: nat, fmt: Option<Format>)
    requires pos + 8 <= |data|
    ensures var id, size := U32(data, pos), U32(data, pos + 4);
            && (id != FMT && (id != DATA || fmt.None?) ==>
                  InfoFrom(data, pos, fmt) == InfoFrom(data, pos + 8 + size + size % 2, fmt))
            && (id == FMT && pos + 8 + size <= |data| && size >= 16 ==>
                  InfoFrom(data, pos, fmt) ==
                  InfoFrom(data, pos + 8 + size + size % 2, Some(FormatAt(data, pos))))
            && (id != FMT && id == DATA && fmt.Some? ==>
                  InfoFrom(data, pos, fmt) == Ok(InfoOf(fmt.value, pos + 8, size)))
  {
    hide U32, FormatAt, InfoOf, FMT, DATA;
  }

  /** Fewer than 44 bytes are refused, and so is what does not begin with RIFF, four bytes and WAVE. */
  lemma {:induction false} HeadDecides(data: seq<byte>)
    ensures |data| < 44 ==> Refused(data)
    ensures |data| >= 44 && !(IsId(data[..4], 0x52, 0x49, 0x46, 0x46) && IsId(data[8..12], 0x57, 0x41, 0x56, 0x45)) ==>
              Refused(data)
  {
    hide *;
    NoHeader(data);
    if |data| >= 44 {
      HeadIds(data);
    }
  }

  ghost predicate Refused(data: seq<byte>) {
    Info(data) == Bad && Duration(data) == Bad && Normalized(data) == Rejected
  }

  lemma NoHeader(data: seq<byte>)
    ensures |data| < 44 || U32(data, 0) != RIFF || U32(data, 8) != WAVE ==> Refused(data)
  {
    hide U32, InfoFrom, DurationFrom, Converted, Built, RIFF, WAVE;
  }

  lemma HeadIds(data: seq<byte>)
    requires |data| >= 12
    ensures U32(data, 0) == RIFF <==> IsId(data[..4], 0x52, 0x49, 0x46, 0x46)
    ensures U32(data, 8) == WAVE <==> IsId(data[8..12], 0x57, 0x41, 0x56, 0x45)
  {
    hide U32, Four, RIFF, WAVE, Le;
    TypeWords();
    IdReads(data, 0, data[..4]);
    IdReads(data, 8, data[8..12]);
  }
}
