/** Reading a WAV file and normalising it to 16-bit PCM, mono, 44100 Hz (parseWAVDuration, parseWAVInfo
    and ensureMonoWav in server/api/lock_chime.go).  Interpolation is exact real arithmetic. */
module Wav {
  import opened Bytes
  import opened DriveTypes
  import opened Blob

  const RIFF: uint32 := 0x46464952
  const WAVE: uint32 := 0x45564157
  const FMT: uint32 := 0x20746d66
  const DATA: uint32 := 0x61746164

  function U32(d: seq<byte>, i: nat): uint32
    requires i + 4 <= |d|
  {
    Word32(d[i..i + 4])
  }

  function U16(d: seq<byte>, i: nat): (w: uint16)
    requires i + 2 <= |d|
    ensures w == Le(d[i..i + 2])
  {
    Pow256Values();
    Le(d[i..i + 2])
  }

  function Signed16(w: uint16): int { if w < 0x8000 then w else w - 0x1_0000 }
  function Unsigned16(x: int): uint16 { x % 0x1_0000 }
  predicate Int16(x: int) { -0x8000 <= x < 0x8000 }

  // ----- the parsers --------------------------------------------------------

  datatype Format = Format(audio: uint16, channels: uint16, rate: uint32, bits: uint16, at: nat)
  datatype WavInfo = WavInfo(fmt: Format, duration: real, dataOffset: nat, dataSize: uint32)

  /** The next chunk: chunks are padded to an even size. */
  function Advance(pos: nat, size: uint32): nat { pos + 8 + size + size % 2 }

  predicate GoodFormat(data: seq<byte>, pos: nat, size: uint32) { pos + 8 + size <= |data| && size >= 16 }

  function FormatAt(data: seq<byte>, pos: nat): Format
    requires pos + 24 <= |data|
  {
    Format(U16(data, pos + 8), U16(data, pos + 10), U32(data, pos + 12), U16(data, pos + 22), pos)
  }

  /** The byte rate in 32-bit arithmetic, wrap-around included. */
  function ByteRate(f: Format): uint32 {
    Times32(f.rate, Times32(f.channels, f.bits) / 8)
  }

  function Times32(a: uint32, b: uint32): uint32 { a * b % TWO_32 }

  function Seconds(size: nat, byteRate: nat): real {
    if byteRate > 0 then size as real / byteRate as real else 0.0
  }

  function InfoOf(f: Format, offset: nat, size: uint32): WavInfo {
    WavInfo(f, if f.rate > 0 && f.channels > 0 && f.bits > 0 then Seconds(size, ByteRate(f)) else 0.0, offset, size)
  }

  ghost function InfoFrom(data: seq<byte>, pos: nat, fmt: Option<Format>): Result<WavInfo>
    decreases |data| - pos
  {
    if pos + 8 > |data| then Bad else
    var id, size := U32(data, pos), U32(data, pos + 4);
    if id == FMT then
      if GoodFormat(data, pos, size) then InfoFrom(data, Advance(pos, size), Some(FormatAt(data, pos))) else Bad
    else if id == DATA && fmt.Some? then Ok(InfoOf(fmt.value, pos + 8, size))
    else InfoFrom(data, Advance(pos, size), fmt)
  }

  predicate HasWavHeader(data: seq<byte>) {
    |data| >= 44 && U32(data, 0) == RIFF && U32(data, 8) == WAVE
  }

  ghost function Info(data: seq<byte>): Result<WavInfo> {
    if HasWavHeader(data) then InfoFrom(data, 12, None) else Bad
  }

  method ParseWavInfo(data: seq<byte>) returns (r: Result<WavInfo>)
    ensures r == Info(data)
  {
    hide U32, U16, FormatAt, InfoOf;
    if |data| < 44 {
      return Bad;
    }
    if U32(data, 0) != RIFF || U32(data, 8) != WAVE {
      return Bad;
    }
    var pos: nat, fmt: Option<Format> := 12, None;
    while pos + 8 <= |data|
      invariant Info(data) == InfoFrom(data, pos, fmt)
      decreases |data| - pos
    {
      var id, size := U32(data, pos), U32(data, pos + 4);
      if id == FMT {
        if pos + 8 + size > |data| || size < 16 {
          return Bad;
        }
        fmt := Some(FormatAt(data, pos));
      } else if id == DATA && fmt.Some? {
        return Ok(InfoOf(fmt.value, pos + 8, size));
      }
      pos := pos + 8 + size + size % 2;
    }
    return Bad;
  }

  /** The duration by the byte rate the header claims; `byteRate` is None before a format chunk. */
  ghost function DurationFrom(data: seq<byte>, pos: nat, byteRate: Option<uint32>): Result<real>
    decreases |data| - pos
  {
    if pos + 8 > |data| then Bad else
    var id, size := U32(data, pos), U32(data, pos + 4);
    if id == FMT then
      if GoodFormat(data, pos, size) then DurationFrom(data, Advance(pos, size), Some(U32(data, pos + 16))) else Bad
    else if id == DATA && byteRate.Some? && byteRate.value > 0 then Ok(Seconds(size, byteRate.value))
    else DurationFrom(data, Advance(pos, size), byteRate)
  }

  ghost function Duration(data: seq<byte>): Result<real> {
    if HasWavHeader(data) then DurationFrom(data, 12, None) else Bad
  }

  method ParseWavDuration(data: seq<byte>) returns (r: Result<real>)
    ensures r == Duration(data)
  {
    hide U32;
    if |data| < 44 {
      return Bad;
    }
    if U32(data, 0) != RIFF || U32(data, 8) != WAVE {
      return Bad;
    }
    var pos: nat, byteRate, fmtFound := 12, 0, false;
    while pos + 8 <= |data|
      invariant 0 <= byteRate < TWO_32
      invariant Duration(data) == DurationFrom(data, pos, if fmtFound then Some(byteRate) else None)
      decreases |data| - pos
    {
      var id, size := U32(data, pos), U32(data, pos + 4);
      if id == FMT {
        if pos + 8 + size > |data| {
          return Bad;
        }
        if size < 16 {
          return Bad;
        }
        byteRate, fmtFound := U32(data, pos + 16), true;
      } else if id == DATA && fmtFound && byteRate > 0 {
        return Ok(size as real / byteRate as real);
      }
      pos := pos + 8 + size + size % 2;
    }
    return Bad;
  }

  function Quot(a: nat, n: nat): nat
    requires n > 0
  {
    a / n
  }

  function Mul(a: nat, b: nat): nat { a * b }

  // ----- samples ------------------------------------------------------------

  /** The i-th 16-bit sample of the payload; silence past the end of the file. */
  function SampleAt(data: seq<byte>, offset: nat, i: nat): (x: int)
    ensures Int16(x)
  {
    if offset + 2 * i + 2 <= |data| then Signed16(U16(data, offset + 2 * i)) else 0
  }

  ghost function Samples(data: seq<byte>, offset: nat, n: nat): (s: seq<int>)
    ensures |s| == n && forall i :: 0 <= i < n ==> Int16(s[i])
  {
    seq(n, i requires 0 <= i < n => SampleAt(data, offset, i))
  }

  method ReadSamples(data: seq<byte>, offset: nat, n: nat) returns (samples: seq<int>)
    ensures samples == Samples(data, offset, n)
  {
    var buf := new int[n](_ => 0);
    for i := 0 to n
      invariant forall k :: 0 <= k < i ==> buf[k] == SampleAt(data, offset, k)
      invariant forall k :: i <= k < n ==> buf[k] == 0
    {
      var idx := offset + 2 * i;
      if idx + 2 > |data| {
        break;
      }
      buf[i] := Signed16(U16(data, idx));
    }
    samples := buf[..];
  }

  // ----- mixing -------------------------------------------------------------

  ghost function SumOf(s: seq<int>): int {
    if s == [] then 0 else SumOf(s[..|s| - 1]) + s[|s| - 1]
  }

  /** Go's integer division truncates toward zero. */
  function TruncDiv(a: int, b: int): int
    requires b > 0
  {
    if a >= 0 then a / b else -(-a / b)
  }

  ghost function MixedAt(s: seq<int>, channels: nat, i: nat): int
    requires channels > 0 && (i + 1) * channels <= |s|
  {
    MulStep(i, channels);
    TruncDiv(SumOf(s[i * channels..i * channels + channels]), channels)
  }

  lemma MulStep(i: nat, k: nat)
    ensures (i + 1) * k == i * k + k && i * k >= 0
  {
  }

  lemma MulMono(i: nat, n: nat, k: nat)
    requires i < n
    ensures (i + 1) * k <= n * k
  {
    MulLe(i + 1, n, k);
  }

  ghost function MixAt(s: seq<int>, channels: nat, n: nat, i: nat): int
    requires channels > 0 && |s| == n * channels && i < n
  {
    MulMono(i, n, channels);
    MixedAt(s, channels, i)
  }

  ghost function Mix(s: seq<int>, channels: nat, n: nat): (mono: seq<int>)
    requires channels > 0 && |s| == n * channels
    ensures |mono| == n
  {
    seq(n, i requires 0 <= i < n => MixAt(s, channels, n, i))
  }

  method MixDown(s: seq<int>, channels: nat, n: nat) returns (mono: seq<int>)
    requires channels > 0 && |s| == n * channels
    ensures mono == Mix(s, channels, n)
  {
    hide MixAt;
    var buf := new int[n](_ => 0);
    for i := 0 to n
      invariant forall k :: 0 <= k < i ==> buf[k] == MixAt(s, channels, n, k)
    {
      var x := MixFrame(s, channels, n, i);
      buf[i] := x;
    }
    mono := buf[..];
  }

  method MixFrame(s: seq<int>, channels: nat, n: nat, i: nat) returns (x: int)
    requires channels > 0 && |s| == n * channels && i < n
    ensures x == MixAt(s, channels, n, i)
  {
    MulMono(i, n, channels);
    MulStep(i, channels);
    ghost var frame := s[i * channels..i * channels + channels];
    var first := i * channels;
    var sum := 0;
    for ch := 0 to channels
      invariant sum == SumOf(frame[..ch])
    {
      assert frame[..ch + 1][..ch] == frame[..ch];
      assert frame[ch] == s[first + ch];
      sum := sum + s[first + ch];
    }
    assert frame[..channels] == frame;
    x := TruncDiv(sum, channels);
  }

  lemma {:induction false} SumBounds(s: seq<int>, lo: int, hi: int)
    requires forall i :: 0 <= i < |s| ==> lo <= s[i] <= hi
    ensures |s| * lo <= SumOf(s) <= |s| * hi
  {
    if s != [] {
      var n := |s| - 1;
      SumBounds(s[..n], lo, hi);
      assert (n + 1) * lo == n * lo + lo && (n + 1) * hi == n * hi + hi;
    }
  }

  /** A mean lies between its bounds; equal channels mix to themselves. */
  lemma TruncDivBounds(sum: int, n: nat, lo: int, hi: int)
    requires n > 0 && n * lo <= sum <= n * hi && lo <= 0 <= hi
    ensures lo <= TruncDiv(sum, n) <= hi
  {
    if sum >= 0 {
      DivBound(sum, n, hi);
    } else {
      DivBound(-sum, n, -lo);
    }
  }

  lemma {:induction false} Above(n: nat, q: int, h: int)
    ensures q > h ==> n * q >= n * h + n
    decreases q - h
  {
    if q > h + 1 {
      Above(n, q - 1, h);
      assert n * q == n * (q - 1) + n;
    } else if q == h + 1 {
      assert n * q == n * h + n;
    }
  }

  lemma DivBound(a: nat, n: nat, hi: nat)
    requires n > 0 && a <= n * hi
    ensures 0 <= a / n <= hi
  {
    var q, r := a / n, a % n;
    assert a == n * q + r;
    Above(n, q, hi);
  }

  lemma EqualChannels(x: int, n: nat)
    requires n > 0
    ensures TruncDiv(n * x, n) == x
  {
    if x >= 0 {
      DivExact(x, n);
    } else {
      DivExact(-x, n);
      assert -(n * x) == n * -x;
      assert n * x < 0;
    }
  }

  lemma DivExact(x: nat, n: nat)
    requires n > 0
    ensures n * x >= 0 && n * x / n == x
  {
    DivBound(n * x, n, x);
    var q, r := n * x / n, n * x % n;
    assert n * x == n * q + r;
    Above(n, x, q);
  }

  lemma MixInRange(s: seq<int>, channels: nat, n: nat)
    requires channels > 0 && |s| == n * channels && forall i :: 0 <= i < |s| ==> Int16(s[i])
    ensures forall i :: 0 <= i < n ==> Int16(Mix(s, channels, n)[i])
  {
    forall i | 0 <= i < n
      ensures Int16(Mix(s, channels, n)[i])
    {
      hide TruncDiv, SumOf;
      MulMono(i, n, channels);
      MulStep(i, channels);
      var frame := s[i * channels..i * channels + channels];
      SumBounds(frame, -0x8000, 0x7FFF);
      TruncDivBounds(SumOf(frame), channels, -0x8000, 0x7FFF);
    }
  }

  /** Frames whose channels are all equal mix to that value. */
  lemma MixOfEqualChannels(s: seq<int>, channels: nat, n: nat, i: nat, x: int)
    requires channels > 0 && |s| == n * channels && i < n
    requires i * channels + channels <= |s| && forall k :: i * channels <= k < i * channels + channels ==> s[k] == x
    ensures Mix(s, channels, n)[i] == x
  {
    hide TruncDiv, SumOf;
    MulMono(i, n, channels);
    MulStep(i, channels);
    var frame := s[i * channels..i * channels + channels];
    SumBounds(frame, x, x);
    EqualChannels(x, channels);
  }

  // ----- resampling ---------------------------------------------------------

  const RATE: uint32 := 44100

  function Ratio(rate: uint32): (r: real)
    requires rate > 0
    ensures r > 0.0
  {
    rate as real / 44100.0
  }

  function OutLen(n: nat, rate: uint32): int
    requires rate > 0
  {
    (n as real / Ratio(rate)).Floor
  }

  function Position(i: nat, rate: uint32): (p: real)
    requires rate > 0
    ensures p >= 0.0
  {
    i as real * Ratio(rate)
  }

  /** Conversion to an integer truncates toward zero. */
  function Trunc(x: real): int { if x >= 0.0 then x.Floor else -(-x).Floor }

  function Between(s0: int, s1: int, frac: real): int {
    Trunc(s0 as real + Portion(frac, (s1 - s0) as real))
  }

  function Portion(frac: real, d: real): real { frac * d }

  function ResampleAt(mono: seq<int>, rate: uint32, i: nat): int
    requires rate > 0
  {
    var p := Position(i, rate);
    var idx := p.Floor;
    if idx + 1 < |mono| then Between(mono[idx], mono[idx + 1], p - idx as real)
    else if idx < |mono| then mono[idx]
    else 0
  }

  lemma OutLenNonNegative(n: nat, rate: uint32)
    requires rate > 0
    ensures OutLen(n, rate) >= 0
  {
    NonNegativeQuotient(n as real, Ratio(rate));
  }

  lemma NonNegativeQuotient(x: real, y: real)
    requires x >= 0.0 && y > 0.0
    ensures x / y >= 0.0
  {
    var q := x / y;
    assert q * y == x;
    assert q < 0.0 ==> q * y < 0.0;
  }

  ghost function Resample(mono: seq<int>, rate: uint32): (r: seq<int>)
    requires rate > 0
  {
    if rate == RATE then mono else
      OutLenNonNegative(|mono|, rate);
      seq(OutLen(|mono|, rate), i requires 0 <= i < OutLen(|mono|, rate) => ResampleAt(mono, rate, i))
  }

  method ResampleTo44100(mono: seq<int>, rate: uint32) returns (resampled: seq<int>)
    requires rate > 0
    ensures resampled == Resample(mono, rate)
  {
    hide Ratio, Between;
    if rate == RATE {
      return mono;
    }
    OutLenNonNegative(|mono|, rate);
    var outLen := OutLen(|mono|, rate);
    var buf := new int[outLen](_ => 0);
    for i := 0 to outLen
      invariant forall k :: 0 <= k < i ==> buf[k] == ResampleAt(mono, rate, k)
      invariant forall k :: i <= k < outLen ==> buf[k] == 0
    {
      var srcPos := Position(i, rate);
      var idx := srcPos.Floor;
      var frac := srcPos - idx as real;
      if idx + 1 < |mono| {
        buf[i] := Between(mono[idx], mono[idx + 1], frac);
      } else if idx < |mono| {
        buf[i] := mono[idx];
      }
    }
    resampled := buf[..];
  }

  lemma BetweenNeighbours(s0: int, s1: int, frac: real)
    requires 0.0 <= frac < 1.0
    ensures if s0 <= s1 then s0 <= Between(s0, s1, frac) <= s1 else s1 <= Between(s0, s1, frac) <= s0
  {
    hide Trunc, Portion;
    var d := (s1 - s0) as real;
    PortionBounds(frac, d);
    var x := s0 as real + Portion(frac, d);
    if s0 <= s1 {
      TruncInside(x, s0, s1);
    } else {
      TruncInside(x, s1, s0);
    }
  }

  lemma TruncInside(x: real, lo: int, hi: int)
    requires lo as real <= x <= hi as real
    ensures lo <= Trunc(x) <= hi
  {
  }

  lemma PortionBounds(frac: real, d: real)
    requires 0.0 <= frac < 1.0
    ensures if d >= 0.0 then 0.0 <= Portion(frac, d) <= d else d <= Portion(frac, d) <= 0.0
  {
    if d > 0.0 {
      Scale(0.0, frac, d);
      Scale(frac, 1.0, d);
    } else if d < 0.0 {
      Scale(0.0, frac, -d);
      Scale(frac, 1.0, -d);
      assert frac * -d == -(frac * d);
    }
  }

  /** Resampling stays between neighbouring samples, hence in range. */
  lemma ResampleInRange(mono: seq<int>, rate: uint32)
    requires rate > 0 && forall i :: 0 <= i < |mono| ==> Int16(mono[i])
    ensures forall i :: 0 <= i < |Resample(mono, rate)| ==> Int16(Resample(mono, rate)[i])
  {
    hide Ratio, Between, OutLen;
    OutLenNonNegative(|mono|, rate);
    forall i | 0 <= i < |Resample(mono, rate)|
      ensures Int16(Resample(mono, rate)[i])
    {
      if rate != RATE {
        var p := Position(i, rate);
        var idx := p.Floor;
        if idx + 1 < |mono| {
          BetweenNeighbours(mono[idx], mono[idx + 1], p - idx as real);
        }
      }
    }
  }

  /** The number of output samples, in integers. */
  lemma OutLenIs(n: nat, rate: uint32)
    requires rate > 0
    ensures OutLen(n, rate) == 44100 * n / rate
  {
    var r, x := Ratio(rate), n as real / Ratio(rate);
    assert x * r == n as real;
    assert r * 44100.0 == rate as real;
    var q := x.Floor;
    assert x * (rate as real) == 44100.0 * n as real by { assert x * (r * 44100.0) == (x * r) * 44100.0; }
    RealSides(q, x, rate, 44100 * n);
    QuotientIs(44100 * n, rate, q);
  }

  lemma RealSides(q: int, x: real, rate: nat, a: nat)
    requires rate > 0 && q as real <= x < q as real + 1.0 && x * (rate as real) == a as real
    ensures q * rate <= a < (q + 1) * rate
  {
    Scale(q as real, x, rate as real);
    Scale(x, (q + 1) as real, rate as real);
    AsReal(q, rate);
    AsReal(q + 1, rate);
  }

  lemma Scale(x: real, y: real, r: real)
    requires r > 0.0
    ensures (x < y ==> x * r < y * r) && (x <= y ==> x * r <= y * r)
  {
    assert y * r - x * r == (y - x) * r;
  }

  lemma AsReal(q: int, n: int)
    ensures (q * n) as real == q as real * n as real
  {
  }

  lemma QuotientIs(a: nat, n: nat, q: int)
    requires n > 0 && q * n <= a < (q + 1) * n
    ensures a / n == q
  {
    var p, r := a / n, a % n;
    assert a == n * p + r;
    assert (q + 1) * n == n * q + n && q * n == n * q;
    Above(n, p, q);
    Above(n, q, p);
  }

  /** Every output sample stems from a source sample. */
  lemma PositionInside(n: nat, rate: uint32, i: nat)
    requires rate > 0 && i < OutLen(n, rate)
    ensures Position(i, rate).Floor < n
  {
    var r, x := Ratio(rate), n as real / Ratio(rate);
    assert x * r == n as real;
    assert (x - i as real) * r > 0.0;
  }

  // ----- the rewritten file -------------------------------------------------

  ghost function RiffPart(size: nat): seq<byte> { ToLe(RIFF, 4) + ToLe(36 + size, 4) + ToLe(WAVE, 4) }

  /** PCM, mono, 16 bits. */
  ghost function FmtPart(rate: nat): seq<byte> {
    (ToLe(FMT, 4) + ToLe(16, 4) + ToLe(1, 2)) + (ToLe(1, 2) + ToLe(rate, 4) + ToLe(2 * rate, 4))
    + (ToLe(2, 2) + ToLe(16, 2))
  }

  ghost function DataPart(size: nat): seq<byte> { ToLe(DATA, 4) + ToLe(size, 4) }

  ghost function Header(rate: nat, size: nat): (h: seq<byte>)
    ensures |h| == 44
  {
    RiffPart(size) + FmtPart(rate) + DataPart(size)
  }

  ghost function Payload(samples: seq<int>): (b: seq<byte>)
    ensures |b| == 2 * |samples|
  {
    if samples == [] then [] else Payload(samples[..|samples| - 1]) + ToLe(Unsigned16(samples[|samples| - 1]), 2)
  }

  /** Mono, 44100 Hz, 16 bits. */
  ghost function Built(samples: seq<int>): seq<byte> {
    Header(44100, 2 * |samples|) + Payload(samples)
  }

  /** One field after what is already there. */
  method Append(buf: array<byte>, off: nat, v: nat, k: nat)
    requires off + k <= buf.Length
    modifies buf
    ensures buf[..off + k] == old(buf[..off]) + ToLe(v, k)
  {
    hide ToLe;
    PutLe(buf, off, v, k);
    assert buf[..off + k] == buf[..off] + buf[off..off + k];
  }

  method PutHeader(buf: array<byte>, size: nat)
    requires buf.Length >= 44
    modifies buf
    ensures buf[..44] == Header(44100, size)
  {
    hide ToLe;
    Append(buf, 0, RIFF, 4);
    Append(buf, 4, 36 + size, 4);
    Append(buf, 8, WAVE, 4);
    assert buf[..12] == RiffPart(size) by { assert buf[..0] == []; }
    PutFmt(buf);
    PutData(buf, size);
  }

  method PutFmt(buf: array<byte>)
    requires buf.Length >= 44
    modifies buf
    ensures buf[..36] == old(buf[..12]) + FmtPart(44100)
  {
    hide ToLe;
    ghost var p := buf[..12];
    Append(buf, 12, FMT, 4);
    Append(buf, 16, 16, 4);
    Append(buf, 20, 1, 2);
    ghost var a := ToLe(FMT, 4) + ToLe(16, 4) + ToLe(1, 2);
    assert buf[..22] == p + a;
    Append(buf, 22, 1, 2);
    Append(buf, 24, 44100, 4);
    Append(buf, 28, 88200, 4);
    ghost var b := ToLe(1, 2) + ToLe(44100, 4) + ToLe(88200, 4);
    assert buf[..32] == p + a + b;
    Append(buf, 32, 2, 2);
    Append(buf, 34, 16, 2);
    assert buf[..36] == p + (a + b + (ToLe(2, 2) + ToLe(16, 2)));
  }

  method PutData(buf: array<byte>, size: nat)
    requires buf.Length >= 44
    modifies buf
    ensures buf[..44] == old(buf[..36]) + DataPart(size)
  {
    hide ToLe;
    Append(buf, 36, DATA, 4);
    Append(buf, 40, size, 4);
  }

  method BuildWav(samples: seq<int>) returns (out: seq<byte>)
    ensures out == Built(samples)
  {
    hide ToLe, Header;
    var n := |samples|;
    var buf := new byte[44 + 2 * n];
    PutHeader(buf, 2 * n);
    for i := 0 to n
      invariant buf[..44 + 2 * i] == Header(44100, 2 * n) + Payload(samples[..i])
    {
      assert samples[..i + 1][..i] == samples[..i];
      Append(buf, 44 + 2 * i, Unsigned16(samples[i]), 2);
      assert buf[..44 + 2 * (i + 1)] == Header(44100, 2 * n) + Payload(samples[..i + 1]);
    }
    assert samples[..n] == samples && buf[..44 + 2 * n] == buf[..];
    out := buf[..];
  }

  lemma Read32(file: seq<byte>, i: nat, v: nat)
    requires v < TWO_32 && Holds(file, i, ToLe(v, 4))
    ensures i + 4 <= |file| && U32(file, i) == v
  {
    Pow256Values();
    LeOfToLe(v, 4);
    hide ToLe, Le;
    assert file[i..i + 4] == ToLe(v, 4);
  }

  lemma Read16(file: seq<byte>, i: nat, v: nat)
    requires v < 0x1_0000 && Holds(file, i, ToLe(v, 2))
    ensures i + 2 <= |file| && U16(file, i) == v
  {
    Pow256Values();
    LeOfToLe(v, 2);
    hide ToLe, Le;
    assert file[i..i + 2] == ToLe(v, 2);
  }

  lemma Pair(file: seq<byte>, start: nat, a: seq<byte>, b: seq<byte>)
    requires Holds(file, start, a + b)
    ensures Holds(file, start, a) && Holds(file, start + |a|, b)
  {
    assert a + b + [] == a + b;
    Parts(file, start, a, b, []);
  }

  /** The fields of a file with this header. */
  lemma HeaderReads(file: seq<byte>, rate: nat, size: nat)
    requires Holds(file, 0, Header(rate, size)) && 36 + size < TWO_32 && 2 * rate < TWO_32
    ensures |file| >= 44
    ensures U32(file, 0) == RIFF && U32(file, 4) == 36 + size && U32(file, 8) == WAVE
    ensures U32(file, 12) == FMT && U32(file, 16) == 16 && U32(file, 28) == 2 * rate && U16(file, 32) == 2
    ensures FormatAt(file, 12) == Format(1, 1, rate, 16, 12)
    ensures U32(file, 36) == DATA && U32(file, 40) == size
  {
    hide Holds, U16, U32, ToLe;
    Parts(file, 0, RiffPart(size), FmtPart(rate), DataPart(size));
    Parts(file, 0, ToLe(RIFF, 4), ToLe(36 + size, 4), ToLe(WAVE, 4));
    Read32(file, 0, RIFF);
    Read32(file, 4, 36 + size);
    Read32(file, 8, WAVE);
    FmtReads(file, rate);
    Pair(file, 36, ToLe(DATA, 4), ToLe(size, 4));
    Read32(file, 36, DATA);
    Read32(file, 40, size);
  }

  lemma FmtReads(file: seq<byte>, rate: nat)
    requires Holds(file, 12, FmtPart(rate)) && 2 * rate < TWO_32
    ensures |file| >= 36
    ensures U32(file, 12) == FMT && U32(file, 16) == 16 && U32(file, 28) == 2 * rate && U16(file, 32) == 2
    ensures FormatAt(file, 12) == Format(1, 1, rate, 16, 12)
  {
    hide Holds, U16, U32, ToLe;
    var a, b := ToLe(FMT, 4) + ToLe(16, 4) + ToLe(1, 2), ToLe(1, 2) + ToLe(rate, 4) + ToLe(2 * rate, 4);
    var c := ToLe(2, 2) + ToLe(16, 2);
    Parts(file, 12, a, b, c);
    Parts(file, 12, ToLe(FMT, 4), ToLe(16, 4), ToLe(1, 2));
    Parts(file, 22, ToLe(1, 2), ToLe(rate, 4), ToLe(2 * rate, 4));
    Pair(file, 32, ToLe(2, 2), ToLe(16, 2));
    Read32(file, 12, FMT);
    Read32(file, 16, 16);
    Read16(file, 20, 1);
    Read16(file, 22, 1);
    Read32(file, 24, rate);
    Read32(file, 28, 2 * rate);
    Read16(file, 32, 2);
    Read16(file, 34, 16);
  }

  lemma {:induction false} PayloadAt(samples: seq<int>, i: nat)
    requires i < |samples|
    ensures Payload(samples)[2 * i..2 * i + 2] == ToLe(Unsigned16(samples[i]), 2)
  {
    hide ToLe;
    var n := |samples| - 1;
    var front := Payload(samples[..n]);
    if i < n {
      PayloadAt(samples[..n], i);
      assert Payload(samples)[2 * i..2 * i + 2] == front[2 * i..2 * i + 2];
    }
  }

  lemma Signed16Back(x: int)
    requires Int16(x)
    ensures Signed16(Unsigned16(x)) == x
  {
    if x < 0 {
      assert x == -1 * 0x1_0000 + (x + 0x1_0000);
      assert x % 0x1_0000 == x + 0x1_0000;
    }
  }

  /** A file with this header parses as PCM, mono, 16 bits, with its payload at offset 44. */
  lemma HeaderParses(file: seq<byte>, rate: nat, size: nat)
    requires Holds(file, 0, Header(rate, size)) && 36 + size < TWO_32 && 0 < 2 * rate < TWO_32
    ensures Info(file) == Ok(WavInfo(Format(1, 1, rate, 16, 12), Seconds(size, 2 * rate), 44, size))
  {
    hide Header, Holds, U32, U16, ByteRate, Seconds, FormatAt;
    HeaderReads(file, rate, size);
    SmallRate(rate);
    DataChunk(file, rate, size);
    assert InfoFrom(file, 12, None) == InfoFrom(file, 36, Some(FormatAt(file, 12)));
  }

  lemma DataChunk(file: seq<byte>, rate: uint32, size: uint32)
    requires |file| >= 44 && U32(file, 36) == DATA && U32(file, 40) == size && 0 < 2 * rate < TWO_32
    ensures var f := Format(1, 1, rate, 16, 12);
            InfoFrom(file, 36, Some(f)) == Ok(WavInfo(f, Seconds(size, 2 * rate), 44, size))
  {
    hide U32, U16, ByteRate, Seconds;
    SmallRate(rate);
  }

  lemma SmallRate(rate: uint32)
    requires 2 * rate < TWO_32
    ensures ByteRate(Format(1, 1, rate, 16, 12)) == 2 * rate
  {
    assert Times32(1, 16) == 16;
    SmallModulus(2 * rate);
  }

  lemma SmallModulus(x: nat)
    requires x < TWO_32
    ensures x % TWO_32 == x
  {
  }

  /** A rewritten file parses as PCM, mono, 44100 Hz, 16 bits, with its payload at offset 44. */
  lemma BuiltParses(samples: seq<int>)
    requires 44 + 2 * |samples| < TWO_32
    ensures var out, size := Built(samples), 2 * |samples|;
            Info(out) == Ok(WavInfo(Format(1, 1, 44100, 16, 12), Seconds(size, 88200), 44, size))
  {
    var out, size := Built(samples), 2 * |samples|;
    Holding(out, size, samples);
    hide Header, Payload, Built, Info, Seconds;
    HeaderParses(out, 44100, size);
  }

  lemma Holding(out: seq<byte>, size: nat, samples: seq<int>)
    requires out == Built(samples) && size == 2 * |samples|
    ensures Holds(out, 0, Header(44100, size)) && |out| == 44 + size
  {
    hide Header, Payload;
  }

  lemma BuiltDuration(samples: seq<int>)
    requires 44 + 2 * |samples| < TWO_32
    ensures Duration(Built(samples)) == Ok(Seconds(2 * |samples|, 88200))
  {
    var out, size := Built(samples), 2 * |samples|;
    Holding(out, size, samples);
    hide Header, Payload, U32, U16;
    HeaderReads(out, 44100, size);
    assert DurationFrom(out, 36, Some(88200)) == Ok(Seconds(size, 88200));
    assert DurationFrom(out, 12, None) == DurationFrom(out, 36, Some(88200));
  }

  /** And its payload is the samples. */
  lemma BuiltHoldsSamples(samples: seq<int>, i: nat)
    requires i < |samples| && Int16(samples[i])
    ensures SampleAt(Built(samples), 44, i) == samples[i]
  {
    hide Header, Payload, ToLe, Le;
    PayloadAt(samples, i);
    Signed16Back(samples[i]);
    var out := Built(samples);
    assert out[44 + 2 * i..44 + 2 * i + 2] == Payload(samples)[2 * i..2 * i + 2];
    Pow256Values();
    LeOfToLe(Unsigned16(samples[i]), 2);
  }

  // ----- normalisation ------------------------------------------------------

  /** Undefined: a division by zero, a conversion of an infinity, or an output of 4 GiB. */
  datatype Outcome = Accepted(data: seq<byte>) | Rejected | Undefined

  function FrameCount(info: WavInfo): (n: nat)
    requires info.fmt.channels > 0
  {
    Quot(info.dataSize, info.fmt.channels * 2)
  }

  ghost function MonoOf(data: seq<byte>, info: WavInfo): (mono: seq<int>)
    requires info.fmt.channels > 0
    ensures |mono| == FrameCount(info)
  {
    var n, ch := FrameCount(info), info.fmt.channels;
    MulStep(0, n);
    ProductNonNegative(n, ch);
    if ch > 1 then Mix(Samples(data, info.dataOffset, n * ch), ch, n) else Samples(data, info.dataOffset, n * ch)
  }

  lemma ProductNonNegative(a: nat, b: nat)
    ensures a * b >= 0
  {
  }

  ghost function Converted(data: seq<byte>, info: WavInfo): seq<int>
    requires info.fmt.channels > 0 && info.fmt.rate > 0
  {
    Resample(MonoOf(data, info), info.fmt.rate)
  }

  predicate Normal(f: Format) { f.rate == RATE && f.channels == 1 }

  ghost function Normalized(data: seq<byte>): Outcome {
    match Info(data)
    case Bad => Rejected
    case Ok(info) =>
      if info.fmt.audio != 1 || info.fmt.bits != 16 then Rejected
      else if info.fmt.channels == 0 then Undefined
      else if Normal(info.fmt) then Accepted(data)
      else if info.fmt.rate == 0 then Undefined
      else var s := Converted(data, info);
           if 44 + 2 * |s| < TWO_32 then Accepted(Built(s)) else Undefined
  }

  method EnsureMonoWav(data: seq<byte>) returns (r: Outcome)
    ensures r == Normalized(data)
  {
    hide Info, Samples, Mix, Resample, Built;
    var parsed := ParseWavInfo(data);
    if parsed.Bad? {
      return Rejected;
    }
    var info := parsed.value;
    if info.fmt.audio != 1 {
      return Rejected;
    }
    if info.fmt.bits != 16 {
      return Rejected;
    }
    var channels: nat := info.fmt.channels;
    if channels == 0 {
      return Undefined;
    }
    var numFrames := FrameCount(info);
    var needsResample, needsMono := info.fmt.rate != RATE, channels > 1;
    if !needsResample && !needsMono {
      return Accepted(data);
    }
    if info.fmt.rate == 0 {
      return Undefined;
    }
    ProductNonNegative(numFrames, channels);
    var samples := ReadSamples(data, info.dataOffset, numFrames * channels);
    var mono := samples;
    if needsMono {
      mono := MixDown(samples, channels, numFrames);
    }
    var resampled := ResampleTo44100(mono, info.fmt.rate);
    if 44 + 2 * |resampled| >= TWO_32 {
      return Undefined;
    }
    var out := BuildWav(resampled);
    return Accepted(out);
  }

  lemma ConvertedInRange(data: seq<byte>, info: WavInfo)
    requires info.fmt.channels > 0 && info.fmt.rate > 0
    ensures forall i :: 0 <= i < |Converted(data, info)| ==> Int16(Converted(data, info)[i])
  {
    hide Samples, Mix, Resample, Int16;
    var n, ch := FrameCount(info), info.fmt.channels;
    ProductNonNegative(n, ch);
    if ch > 1 {
      MixInRange(Samples(data, info.dataOffset, n * ch), ch, n);
    }
    ResampleInRange(MonoOf(data, info), info.fmt.rate);
  }

  /** What is accepted is PCM, mono, 44100 Hz, 16 bits, and normalising it again changes nothing. */
  lemma NormalisationIsNormalForm(data: seq<byte>)
    requires Normalized(data).Accepted?
    ensures var out := Normalized(data).data;
            && Normalized(out) == Accepted(out)
            && Info(out).Ok? && var f := Info(out).value.fmt;
            f.audio == 1 && f.channels == 1 && f.rate == 44100 && f.bits == 16
  {
    hide Info, Converted, Built;
    var info := Info(data).value;
    if !Normal(info.fmt) {
      BuiltParses(Converted(data, info));
    }
  }

  /** Reading a rewritten file back gives the converted samples. */
  lemma RewrittenPayload(data: seq<byte>, i: nat)
    requires Info(data).Ok? && Normalized(data).Accepted? && !Normal(Info(data).value.fmt)
    requires i < |Converted(data, Info(data).value)|
    ensures SampleAt(Normalized(data).data, 44, i) == Converted(data, Info(data).value)[i]
  {
    hide Info, Converted, Built, SampleAt;
    ConvertedInRange(data, Info(data).value);
    BuiltHoldsSamples(Converted(data, Info(data).value), i);
  }

  // ----- duration -----------------------------------------------------------

  lemma Compare(a: nat, b: nat, c: nat, d: nat)
    requires b > 0 && d > 0
    ensures a as real / b as real < c as real / d as real <==> a * d < c * b
    ensures a as real / b as real <= c as real / d as real <==> a * d <= c * b
  {
    var x, y, rb, rd := a as real / b as real, c as real / d as real, b as real, d as real;
    Cleared(a, b, d);
    Cleared(c, d, b);
    PositiveProduct(rb, rd);
    Scale(x, y, rb * rd);
    Scale(y, x, rb * rd);
    assert y * (rb * rd) == y * (rd * rb);
  }

  lemma Cleared(a: nat, b: nat, d: nat)
    requires b > 0
    ensures a as real / b as real * (b as real * d as real) == (a * d) as real
  {
    var x, rb, rd := a as real / b as real, b as real, d as real;
    assert x * rb == a as real;
    assert x * (rb * rd) == x * rb * rd;
    AsReal(a, d);
  }

  lemma PositiveProduct(x: real, y: real)
    requires x > 0.0 && y > 0.0
    ensures x * y > 0.0
  {
  }

  /** The samples at 44100 Hz that `size` bytes of payload last, `block` bytes per source frame. */
  function FullSamples(size: nat, rate: nat, block: nat): nat
    requires rate > 0 && block > 0
  {
    PositiveInt(rate, block);
    Quot(44100 * size, Mul(rate, block))
  }

  lemma PositiveInt(a: nat, b: nat)
    requires a > 0 && b > 0
    ensures a * b > 0 && Mul(a, b) > 0
  {
  }

  /** Counting whole frames only never gives more samples; it gives as many for whole frames and at 44100 Hz. */
  lemma WholeFrames(size: nat, rate: nat, block: nat)
    requires rate > 0 && block > 0
    ensures Quot(44100 * Quot(size, block), rate) <= FullSamples(size, rate, block)
    ensures size % block == 0 || rate == 44100 ==>
              Quot(44100 * Quot(size, block), rate) == FullSamples(size, rate, block)
  {
    PositiveInt(rate, block);
    if size % block == 0 {
      ExactDivision(size, block);
    }
    DivExact(Quot(size, block), 44100);
    assert Quot(44100 * Quot(size, block), 44100) == Quot(size, block);
    var k := Mul(rate, block);
    hide Quot, Mul;
    var f := Quot(size, block);
    DivSides(size, block);
    DivSides(44100 * f, rate);
    DivSides(44100 * size, k);
    Quotients(size, rate, block, k, f, Quot(44100 * f, rate), Quot(44100 * size, k));
  }

  /** The same without divisions: f frames, n samples from whole frames, m from all bytes. */
  lemma Quotients(size: nat, rate: nat, block: nat, k: nat, f: nat, n: nat, m: nat)
    requires block > 0 && k == Mul(rate, block)
    requires Mul(f, block) <= size < Mul(f + 1, block)
    requires Mul(n, rate) <= 44100 * f < Mul(n + 1, rate)
    requires Mul(m, k) <= 44100 * size < Mul(m + 1, k)
    ensures n <= m
    ensures size == Mul(f, block) || (rate == 44100 && n == f) ==> n == m
  {
    LowerEnd(f, n, size, rate, block);
    NotAbove(n, m, k, 44100 * size);
    if size == f * block {
      UpperEnd(f, n, size, rate, block);
      NotAbove(m, n, k, 44100 * size);
    } else if rate == 44100 && n == f {
      UpperSame(f, size, block);
      NotAbove(m, n, k, 44100 * size);
    }
  }

  lemma ExactDivision(size: nat, block: nat)
    requires block > 0 && size % block == 0
    ensures size == Mul(Quot(size, block), block)
  {
  }

  lemma LowerEnd(f: nat, n: nat, size: nat, rate: nat, block: nat)
    requires n * rate <= 44100 * f && f * block <= size
    ensures n * (rate * block) <= 44100 * size
  {
    Regroup(n, rate, block);
    MulLe(n * rate, 44100 * f, block);
    Regroup(44100, f, block);
  }

  lemma UpperEnd(f: nat, n: nat, size: nat, rate: nat, block: nat)
    requires 44100 * f < (n + 1) * rate && size == f * block && block > 0
    ensures 44100 * size < (n + 1) * (rate * block)
  {
    Regroup(n + 1, rate, block);
    MulLt(44100 * f, (n + 1) * rate, block);
    Regroup(44100, f, block);
  }

  lemma UpperSame(f: nat, size: nat, block: nat)
    requires size < (f + 1) * block
    ensures 44100 * size < (f + 1) * (44100 * block)
  {
    Regroup(44100, f + 1, block);
    Regroup(f + 1, 44100, block);
    assert 44100 * (f + 1) == (f + 1) * 44100;
  }

  lemma DivSides(a: nat, n: nat)
    requires n > 0
    ensures Mul(Quot(a, n), n) <= a < Mul(Quot(a, n) + 1, n)
  {
    var q, r := a / n, a % n;
    assert a == n * q + r;
    assert (q + 1) * n == n * q + n;
  }

  lemma Regroup(n: nat, rate: nat, block: nat)
    ensures n * (rate * block) == n * rate * block
  {
  }

  lemma MulLe(a: nat, b: nat, k: nat)
    requires a <= b
    ensures a * k <= b * k
  {
    assert b * k - a * k == (b - a) * k;
  }

  lemma MulLt(a: nat, b: nat, k: nat)
    requires a < b && k > 0
    ensures a * k < b * k
  {
    assert b * k - a * k == (b - a) * k;
    PositiveInt(b - a, k);
  }

  lemma NotAbove(n: nat, m: nat, k: nat, a: nat)
    requires n * k <= a < (m + 1) * k
    ensures n <= m
  {
    Above(k, n, m);
    assert (m + 1) * k == k * m + k && n * k == k * n;
  }

  /** How long a source of `size` payload bytes lasts. */
  function SourceSeconds(info: WavInfo): real
    requires info.fmt.channels > 0 && info.fmt.rate > 0
  {
    PositiveInt(info.fmt.rate, info.fmt.channels * 2);
    Seconds(info.dataSize, Mul(info.fmt.rate, info.fmt.channels * 2))
  }

  /** The parser reports that duration whenever the byte rate fits 32 bits. */
  lemma ReportedDuration(data: seq<byte>)
    requires Info(data).Ok?
    requires var f := Info(data).value.fmt;
             f.bits == 16 && f.channels > 0 && f.rate > 0 && f.rate * (f.channels * 2) < TWO_32
    ensures Info(data).value.duration == SourceSeconds(Info(data).value)
  {
    InfoShape(data, 12, None);
    RateFits(Info(data).value.fmt);
    hide InfoFrom, U32, Seconds, ByteRate;
    PositiveInt(Info(data).value.fmt.rate, Info(data).value.fmt.channels * 2);
  }

  lemma RateFits(f: Format)
    requires f.bits == 16 && f.rate * (f.channels * 2) < TWO_32
    ensures ByteRate(f) == f.rate * (f.channels * 2)
  {
    assert Times32(f.channels, f.bits) == f.channels * 16;
    SmallModulus(f.rate * (f.channels * 2));
  }

  lemma {:induction false} InfoShape(data: seq<byte>, pos: nat, fmt: Option<Format>)
    requires InfoFrom(data, pos, fmt).Ok?
    ensures var i := InfoFrom(data, pos, fmt).value; i == InfoOf(i.fmt, i.dataOffset, i.dataSize)
    decreases |data| - pos
  {
    hide U32, U16, ByteRate, Seconds, FormatAt;
    var id, size := U32(data, pos), U32(data, pos + 4);
    if id == FMT {
      InfoShape(data, Advance(pos, size), Some(FormatAt(data, pos)));
    } else if id == DATA && fmt.Some? {
    } else {
      InfoShape(data, Advance(pos, size), fmt);
    }
  }

  lemma ConvertedLength(data: seq<byte>, info: WavInfo)
    requires info.fmt.channels > 0 && info.fmt.rate > 0
    ensures |Converted(data, info)| == Quot(44100 * FrameCount(info), info.fmt.rate)
  {
    hide MonoOf;
    OutLenIs(FrameCount(info), info.fmt.rate);
    DivExact(FrameCount(info), 44100);
  }

  /** The output never lasts longer than the input, and the loss stays below one output sample exactly when a
      partial last frame would not have completed one more sample: always for whole frames, and at 44100 Hz. */
  lemma DurationShrinks(data: seq<byte>)
    requires Info(data).Ok? && Normalized(data).Accepted? && !Normal(Info(data).value.fmt)
    ensures var info := Info(data).value;
            var block := info.fmt.channels * 2;
            var whole := Quot(44100 * FrameCount(info), info.fmt.rate);
            && Duration(Normalized(data).data).Ok?
            && var loss := SourceSeconds(info) - Duration(Normalized(data).data).value;
            && 0.0 <= loss
            && (loss < 1.0 / 44100.0 <==> FullSamples(info.dataSize, info.fmt.rate, block) == whole)
            && (info.dataSize % block == 0 || info.fmt.rate == 44100 ==> loss < 1.0 / 44100.0)
  {
    hide *;
    var info := Info(data).value;
    RewrittenIs(data);
    var s := Converted(data, info);
    ConvertedLength(data, info);
    BuiltDuration(s);
    PositiveInt(info.fmt.rate, info.fmt.channels * 2);
    FramesAre(info);
    SourceLonger(info.dataSize, info.fmt.rate, info.fmt.channels * 2, |s|);
  }

  lemma RewrittenIs(data: seq<byte>)
    requires Info(data).Ok? && Normalized(data).Accepted? && !Normal(Info(data).value.fmt)
    ensures var info := Info(data).value;
            && info.fmt.channels > 0 && info.fmt.rate > 0 && 44 + 2 * |Converted(data, info)| < TWO_32
            && Normalized(data).data == Built(Converted(data, info))
  {
    hide Info, Converted, Built;
  }

  lemma FramesAre(info: WavInfo)
    requires info.fmt.channels > 0
    ensures FrameCount(info) == Quot(info.dataSize, info.fmt.channels * 2)
    ensures info.fmt.rate > 0 && Mul(info.fmt.rate, info.fmt.channels * 2) > 0 ==>
              SourceSeconds(info) == Seconds(info.dataSize, Mul(info.fmt.rate, info.fmt.channels * 2))
  {
    hide Seconds;
  }

  lemma SourceLonger(size: nat, rate: nat, block: nat, n: nat)
    requires rate > 0 && block > 0 && n == Quot(44100 * Quot(size, block), rate) && Mul(rate, block) > 0
    ensures var loss := Seconds(size, Mul(rate, block)) - Seconds(2 * n, 88200);
            && 0.0 <= loss
            && (loss < 1.0 / 44100.0 <==> FullSamples(size, rate, block) == n)
            && (size % block == 0 || rate == 44100 ==> loss < 1.0 / 44100.0)
  {
    WholeFrames(size, rate, block);
    PositiveInt(rate, block);
    var k := Mul(rate, block);
    DivSides(44100 * size, k);
    hide Quot;
    Compare(n, 44100, size, k);
    Compare(size, k, n + 1, 44100);
    HalfRate(n);
    var m := FullSamples(size, rate, block);
    if m == n {
      assert 44100 * size < (n + 1) * k;
    } else {
      MulLe(n + 1, m, k);
    }
  }

  lemma HalfRate(n: nat)
    ensures Seconds(2 * n, 88200) == n as real / 44100.0
    ensures (n + 1) as real / 44100.0 == n as real / 44100.0 + 1.0 / 44100.0
  {
  }

  /** A file of 16-bit mono at 48000 Hz with three bytes of payload. */
  ghost function OddFile(): seq<byte> { Header(48000, 3) + [0, 0, 0] }

  lemma OddFileParses()
    ensures Info(OddFile()) == Ok(WavInfo(Format(1, 1, 48000, 16, 12), Seconds(3, 96000), 44, 3))
  {
    hide Header, Info, Seconds;
    assert Holds(OddFile(), 0, Header(48000, 3));
    HeaderParses(OddFile(), 48000, 3);
  }

  lemma OddNumbers()
    ensures Quot(3, 2) == 1 && Quot(44100 * 1, 48000) == 0
    ensures Mul(48000, 2) == 96000 && FullSamples(3, 48000, 2) == 1
    ensures 0.0 - Seconds(0, 88200) == 0.0 && Seconds(3, 96000) >= 1.0 / 44100.0
  {
  }

  /** It is accepted and rewritten to no sample at all: its odd byte would have completed one, and the loss is
      more than an output sample. */
  lemma PartialFrameLosesMore()
    ensures var data := OddFile();
            && |data| == 47 && Info(data).Ok? && Normalized(data).Accepted? && !Normal(Info(data).value.fmt)
            && Info(data).value.fmt.channels == 1 && Info(data).value.fmt.rate == 48000
            && Duration(Normalized(data).data) == Ok(0.0)
            && SourceSeconds(Info(data).value) - Duration(Normalized(data).data).value >= 1.0 / 44100.0
  {
    var data := OddFile();
    OddFileParses();
    OddNumbers();
    hide Header, Info, Seconds, Quot, Mul, Converted, Built, Duration, FullSamples;
    var info := Info(data).value;
    ConvertedLength(data, info);
    var s := Converted(data, info);
    assert |s| == 0;
    assert Normalized(data) == Accepted(Built(s));
    BuiltDuration(s);
  }
}
