/** SEI messages byte by byte: the tags, the byte order and the range of a fix as the wire format and IEEE 754 give
    them (server/drives/extract.go lines 98-271). */
module SeiBytes {
  import opened Bytes
  import opened Sei
  import opened Mdat

  // ----- the bytes of a message ---------------------------------------------

  /** A word in four bytes and one in eight, the low byte first. */
  ghost function Bytes4(n: uint32): (s: seq<byte>)
    ensures |s| == 4
  {
    [n % 0x100, n / 0x100 % 0x100, n / 0x1_0000 % 0x100, n / 0x100_0000]
  }

  ghost function Bytes8(n: uint64): (s: seq<byte>)
    ensures |s| == 8
  {
    var a := n / 0x100;
    var b := a / 0x100;
    var c := b / 0x100;
    var d := c / 0x100;
    var e := d / 0x100;
    var f := e / 0x100;
    [n % 0x100, a % 0x100, b % 0x100, c % 0x100, d % 0x100, e % 0x100, f % 0x100, f / 0x100]
  }

  /** A byte as a varint. */
  ghost function Small(b: byte): seq<byte> { if b < 0x80 then [b] else [b, 1] }

  /** Gear, speed, pedal, autopilot state, latitude and longitude with their tags: field number times eight plus wire
      type. */
  ghost function MessageBytes(t: Telemetry): seq<byte> {
    ([0x10] + Small(t.gear)) + (([0x25] + Bytes4(t.speed)) + (([0x2d] + Bytes4(t.accel)) + (([0x50] + Small(t.apState))
    + (([0x59] + Bytes8(t.lat)) + ([0x61] + Bytes8(t.lon))))))
  }

  ghost function FieldsOf(t: Telemetry): seq<Field> {
    [VarintField(2, t.gear)] + ([Fixed32Field(4, t.speed)] + ([Fixed32Field(5, t.accel)]
    + ([VarintField(10, t.apState)] + ([Fixed64Field(11, t.lat)] + [Fixed64Field(12, t.lon)]))))
  }

  lemma {:induction false} LowByteFirst(n: nat, k: nat)
    requires k > 0
    ensures ToLe(n, k)[0] == n % 0x100 && ToLe(n, k)[1..] == ToLe(n / 0x100, k - 1)
  {
  }

  lemma {:induction false} FourBytes(n: uint32)
    ensures ToLe(n, 4) == Bytes4(n)
  {
    var a, b, c := n / 0x100, n / 0x1_0000, n / 0x100_0000;
    assert a / 0x100 == b && b / 0x100 == c;
    LowByteFirst(n, 4);
    LowByteFirst(a, 3);
    LowByteFirst(b, 2);
    LowByteFirst(c, 1);
    hide ToLe;
    var s := ToLe(n, 4);
    assert s[1] == s[1..][0] && s[2] == s[1..][1..][0] && s[3] == s[1..][1..][1..][0];
  }

  lemma {:induction false} EightBytes(n: uint64)
    ensures ToLe(n, 8) == Bytes8(n)
  {
    var a := n / 0x100;
    var b := a / 0x100;
    var c := b / 0x100;
    var d := c / 0x100;
    var e := d / 0x100;
    var f := e / 0x100;
    var g := f / 0x100;
    assert g < 0x100;
    LowByteFirst(n, 8);
    LowByteFirst(a, 7);
    LowByteFirst(b, 6);
    LowByteFirst(c, 5);
    LowByteFirst(d, 4);
    LowByteFirst(e, 3);
    LowByteFirst(f, 2);
    LowByteFirst(g, 1);
    hide ToLe;
    Eight(ToLe(n, 8), ToLe(a, 7), ToLe(b, 6), ToLe(c, 5), ToLe(d, 4), ToLe(e, 3), ToLe(f, 2), ToLe(g, 1));
  }

  lemma Eight(s: seq<byte>, a: seq<byte>, b: seq<byte>, c: seq<byte>, d: seq<byte>, e: seq<byte>, f: seq<byte>,
        g: seq<byte>)
    requires |s| == 8 && s[1..] == a && a[1..] == b && b[1..] == c && c[1..] == d && d[1..] == e && e[1..] == f
             && f[1..] == g && |g| == 1
    ensures s == [s[0], a[0], b[0], c[0], d[0], e[0], f[0], g[0]]
  {
  }

  lemma {:induction false} ByteVarint(b: byte)
    ensures EncodeVarint(b) == Small(b)
  {
    if b >= 0x80 {
      assert EncodeVarint(1) == [1];
    }
  }

  lemma {:induction false} Tags()
    ensures EncodeVarint(0x10) == [0x10] && EncodeVarint(0x25) == [0x25] && EncodeVarint(0x2d) == [0x2d]
    ensures EncodeVarint(0x50) == [0x50] && EncodeVarint(0x59) == [0x59] && EncodeVarint(0x61) == [0x61]
  {
  }

  lemma {:induction false} Encoded(f: Field, rest: seq<Field>)
    ensures EncodeMessage([f] + rest) == EncodeField(f) + EncodeMessage(rest)
    ensures EncodeMessage([f]) == EncodeField(f)
  {
    assert ([f] + rest)[1..] == rest && [f][1..] == [];
    assert EncodeMessage([]) == [];
  }

  lemma {:induction false} FieldBytes(t: Telemetry)
    ensures EncodeField(VarintField(2, t.gear)) == [0x10] + Small(t.gear)
    ensures EncodeField(Fixed32Field(4, t.speed)) == [0x25] + Bytes4(t.speed)
    ensures EncodeField(Fixed32Field(5, t.accel)) == [0x2d] + Bytes4(t.accel)
    ensures EncodeField(VarintField(10, t.apState)) == [0x50] + Small(t.apState)
    ensures EncodeField(Fixed64Field(11, t.lat)) == [0x59] + Bytes8(t.lat)
    ensures EncodeField(Fixed64Field(12, t.lon)) == [0x61] + Bytes8(t.lon)
  {
    Tags();
    ByteVarint(t.gear);
    ByteVarint(t.apState);
    FourBytes(t.speed);
    FourBytes(t.accel);
    EightBytes(t.lat);
    EightBytes(t.lon);
    hide EncodeVarint, ToLe, Bytes4, Bytes8, Small;
  }

  lemma {:induction false} MessageIs(t: Telemetry)
    ensures EncodeMessage(FieldsOf(t)) == MessageBytes(t)
  {
    FieldBytes(t);
    hide EncodeMessage, EncodeField, Bytes4, Bytes8, Small;
    var f6 := [Fixed64Field(12, t.lon)];
    var f5 := [Fixed64Field(11, t.lat)] + f6;
    var f4 := [VarintField(10, t.apState)] + f5;
    var f3 := [Fixed32Field(5, t.accel)] + f4;
    var f2 := [Fixed32Field(4, t.speed)] + f3;
    Encoded(Fixed64Field(12, t.lon), []);
    Encoded(Fixed64Field(11, t.lat), f6);
    Encoded(VarintField(10, t.apState), f5);
    Encoded(Fixed32Field(5, t.accel), f4);
    Encoded(Fixed32Field(4, t.speed), f3);
    Encoded(VarintField(2, t.gear), f2);
  }

  // ----- a fix --------------------------------------------------------------

  function Pow2(k: nat): (p: nat)
    ensures p >= 1
  {
    if k == 0 then 1 else 2 * Pow2(k - 1)
  }

  /** The exponent and the fraction of a double. */
  function Exponent(bits: uint64): nat { bits / 0x10_0000_0000_0000 % 0x800 }
  function Fraction(bits: uint64): nat { bits % 0x10_0000_0000_0000 }

  /** Neither infinite nor NaN. */
  predicate Finite(bits: uint64) { Exponent(bits) != 0x7FF }

  /** The magnitude of a finite double, a multiple of 2^-1074. */
  function Magnitude(bits: uint64): nat {
    if Exponent(bits) == 0 then Fraction(bits)
    else (0x10_0000_0000_0000 + Fraction(bits)) * Pow2(Exponent(bits) - 1)
  }

  lemma {:induction false} Pow2Sum(a: nat, b: nat)
    ensures Pow2(a + b) == Pow2(a) * Pow2(b)
  {
    if a > 0 {
      Pow2Sum(a - 1, b);
      assert 2 * (Pow2(a - 1) * Pow2(b)) == 2 * Pow2(a - 1) * Pow2(b);
    }
  }

  lemma {:induction false} Pow2Grows(a: nat, b: nat)
    requires a <= b
    ensures Pow2(a) <= Pow2(b)
  {
    if a < b {
      Pow2Grows(a, b - 1);
    }
  }

  lemma Pow2Of46()
    ensures Pow2(46) == 0x4000_0000_0000
  {
    assert Pow2(5) == 32 && Pow2(3) == 8;
    hide Pow2;
    Pow2Sum(5, 5);
    Pow2Sum(10, 10);
    Pow2Sum(20, 3);
    Pow2Sum(23, 23);
  }

  /** Of two fractions with exponents, the larger word has the larger value. */
  lemma {:induction false} Below(e: nat, f: nat, m: nat, n: nat)
    requires e < f && m < 0x10_0000_0000_0000
    ensures (if e == 0 then m else (0x10_0000_0000_0000 + m) * Pow2(e - 1)) < (0x10_0000_0000_0000 + n) * Pow2(f - 1)
  {
    var b := 0x10_0000_0000_0000;
    Pow2Grows(e, f - 1);
    hide Pow2;
    Times(b, Pow2(e), b + n, Pow2(f - 1));
    if e > 0 {
      assert Pow2(e) == 2 * Pow2(e - 1) by { Pow2Step(e); }
      Halved(b, m, Pow2(e - 1));
    }
  }

  lemma Pow2Step(e: nat)
    requires e > 0
    ensures Pow2(e) == 2 * Pow2(e - 1)
  {
  }

  lemma Times(a: nat, x: nat, b: nat, y: nat)
    requires a <= b && x <= y
    ensures a * x <= b * y
  {
    assert b * y - a * x == (b - a) * y + a * (y - x);
    assert (b - a) * y >= 0 && a * (y - x) >= 0;
  }

  lemma Halved(b: nat, m: nat, x: nat)
    requires m < b && x >= 1
    ensures (b + m) * x < b * (2 * x)
  {
    Times(b + m, x, 2 * b - 1, x);
    Distribute(2 * b - 1, 1, x);
    Twice(b, x);
  }

  lemma Distribute(a: int, b: int, x: int)
    ensures (a + b) * x == a * x + b * x
  {
  }

  lemma Twice(b: int, x: int)
    ensures b * (2 * x) == (2 * b) * x
  {
  }

  /** Doubles are ordered as their words are, signs dropped. */
  lemma {:induction false} Ordered(x: uint64, y: uint64)
    requires Finite(x) && Finite(y)
    ensures x % 0x8000_0000_0000_0000 <= y % 0x8000_0000_0000_0000 <==> Magnitude(x) <= Magnitude(y)
  {
    WordIs(x);
    WordIs(y);
    var e, f, m, n := Exponent(x), Exponent(y), Fraction(x), Fraction(y);
    if e < f {
      Below(e, f, m, n);
    } else if f < e {
      Below(f, e, n, m);
    } else if e > 0 {
      hide Pow2;
      SameScale(m, n, Pow2(e - 1));
    }
  }

  lemma SameScale(m: nat, n: nat, x: nat)
    requires x >= 1
    ensures m <= n <==> (0x10_0000_0000_0000 + m) * x <= (0x10_0000_0000_0000 + n) * x
  {
    if m <= n {
      Times(0x10_0000_0000_0000 + m, x, 0x10_0000_0000_0000 + n, x);
    } else {
      Times(0x10_0000_0000_0000 + n + 1, x, 0x10_0000_0000_0000 + m, x);
      Distribute(0x10_0000_0000_0000 + n, 1, x);
    }
  }

  lemma WordIs(x: uint64)
    ensures x % 0x8000_0000_0000_0000 == 0x10_0000_0000_0000 * Exponent(x) + Fraction(x)
  {
  }

  /** The words of ninety and one hundred and eighty. */
  lemma {:induction false} NinetyIs()
    ensures Finite(BITS_OF_90) && Magnitude(BITS_OF_90) == 90 * Pow2(1074)
    ensures Finite(BITS_OF_180) && Magnitude(BITS_OF_180) == 180 * Pow2(1074)
  {
    hide Pow2, Exponent, Fraction, BITS_OF_90, BITS_OF_180;
    NinetyParts();
    Pow2Of46();
    Pow2Sum(46, 1028);
    Pow2Step(1029);
  }

  lemma NinetyParts()
    ensures Exponent(BITS_OF_90) == 1029 && Exponent(BITS_OF_180) == 1030
    ensures Fraction(BITS_OF_90) == 0x6_8000_0000_0000 && Fraction(BITS_OF_180) == 0x6_8000_0000_0000
  {
  }

  /** A fix is good exactly when both coordinates are finite, not both zero, and at most 90 and 180 degrees away from
      zero. */
  ghost predicate GoodFix(t: Telemetry) {
    && Finite(t.lat) && Finite(t.lon) && !(Magnitude(t.lat) == 0 && Magnitude(t.lon) == 0)
    && Magnitude(t.lat) <= 90 * Pow2(1074) && Magnitude(t.lon) <= 180 * Pow2(1074)
  }

  lemma {:induction false} FixIs(t: Telemetry)
    ensures ValidFix(t) <==> GoodFix(t)
  {
    NinetyIs();
    InRange(t.lat, BITS_OF_90);
    InRange(t.lon, BITS_OF_180);
    ZeroIs(t.lat);
    ZeroIs(t.lon);
    hide Pow2, Exponent, Fraction, Magnitude, Finite;
  }

  lemma {:induction false} InRange(x: uint64, y: uint64)
    requires Finite(y)
    ensures x % 0x8000_0000_0000_0000 <= y % 0x8000_0000_0000_0000 <==> Finite(x) && Magnitude(x) <= Magnitude(y)
  {
    WordIs(x);
    WordIs(y);
    if Finite(x) {
      Ordered(x, y);
    }
  }

  lemma {:induction false} ZeroIs(x: uint64)
    ensures Finite(x) ==> (x % 0x8000_0000_0000_0000 == 0 <==> Magnitude(x) == 0)
  {
    WordIs(x);
    if Exponent(x) > 0 {
      hide Pow2;
      assert (0x10_0000_0000_0000 + Fraction(x)) * Pow2(Exponent(x) - 1) >= Pow2(Exponent(x) - 1);
    }
  }

  // ----- messages -----------------------------------------------------------

  /** These bytes, escaped and framed, are read as the message, and its fix is good exactly when its coordinates are. */
  lemma {:induction false} MessageDecodes(header: seq<byte>, k: nat, t: Telemetry, trailer: byte)
    requires |header| == 3 && k >= 1
    ensures ParseSei(Frame(header, k, MessageBytes(t), trailer)) == Sample(t, GoodFix(t))
  {
    MessageIs(t);
    FieldsSet(t);
    MessageSize(t);
    FixIs(t);
    hide ParseSei, Frame, EncodeMessage, MessageBytes, ApplyAll, ValidFix, GoodFix, FieldsOf;
    SeiRoundTrip(header, k, FieldsOf(t), trailer);
  }

  lemma {:induction false} FieldsSet(t: Telemetry)
    ensures ApplyAll(ZERO, FieldsOf(t)) == t
    ensures forall i :: 0 <= i < |FieldsOf(t)| ==> GoodField(FieldsOf(t)[i])
  {
    var f6 := [Fixed64Field(12, t.lon)];
    var f5 := [Fixed64Field(11, t.lat)] + f6;
    var f4 := [VarintField(10, t.apState)] + f5;
    var f3 := [Fixed32Field(5, t.accel)] + f4;
    var f2 := [Fixed32Field(4, t.speed)] + f3;
    Applied(ZERO, VarintField(2, t.gear), f2);
    var t1 := ZERO.(gear := t.gear);
    Applied(t1, Fixed32Field(4, t.speed), f3);
    var t2 := t1.(speed := t.speed);
    Applied(t2, Fixed32Field(5, t.accel), f4);
    var t3 := t2.(accel := t.accel);
    Applied(t3, VarintField(10, t.apState), f5);
    var t4 := t3.(apState := t.apState);
    Applied(t4, Fixed64Field(11, t.lat), f6);
    Applied(t4.(lat := t.lat), Fixed64Field(12, t.lon), []);
    hide ApplyAll;
  }

  lemma Applied(t: Telemetry, f: Field, rest: seq<Field>)
    ensures ApplyAll(t, [f] + rest) == ApplyAll(Apply(t, f), rest) && ApplyAll(t, [f]) == Apply(t, f)
  {
    assert ([f] + rest)[1..] == rest && [f][1..] == [];
    hide Apply;
  }

  lemma MessageSize(t: Telemetry)
    ensures |MessageBytes(t)| < TWO_63 - TWO_32
  {
    hide Bytes4, Bytes8;
  }

  // ----- messages that end badly --------------------------------------------

  /** No varint ends within ten bytes. */
  ghost predicate Unfinished(s: seq<byte>) { forall k :: 0 <= k < |s| && k < 10 ==> s[k] >= 0x80 }

  lemma {:induction false} UnfinishedReads(s: seq<byte>, k: nat)
    requires Unfinished(s) && k <= |s|
    ensures VarintEnd(s, k) == 0
    decreases |s| - k
  {
    if k < 10 && k < |s| {
      UnfinishedReads(s, k + 1);
    }
  }

  lemma OneByteTag(tag: byte, rest: seq<byte>)
    requires tag < 0x80
    ensures ReadVarint([tag] + rest) == Varint(tag, 1)
  {
    VarintRoundTrip(tag, rest);
    assert EncodeVarint(tag) == [tag];
    hide ReadVarint, EncodeVarint;
  }

  /** Whether what follows a tag of this wire type is cut off; types 3, 4, 6 and 7 are not known. */
  ghost predicate BadField(tag: byte, rest: seq<byte>) {
    match tag % 8
    case 0 => Unfinished(rest)
    case 1 => |rest| < 8
    case 2 => Unfinished(rest)
    case 5 => |rest| < 4
    case _ => true
  }

  lemma {:induction false} BadTurn(data: seq<byte>, i: nat, t: Telemetry, seen: set<int>, tag: byte, rest: seq<byte>)
    requires i < |data| && data[i..] == [tag] + rest && tag < 0x80 && i !in seen && BadField(tag, rest)
    ensures Decode(data, i, t, seen) == Sample(Telemetry(0, 0, 0, 0, 0, 0), false)
  {
    hide ReadVarint, Unfinished, SetVarint, SetFixed32, SetFixed64, Wrap, Positions, ValidFix;
    OneByteTag(tag, rest);
    assert data[i + 1..] == data[i..][1..] == rest;
    if Unfinished(rest) {
      UnfinishedVarint(rest);
    }
  }

  lemma UnfinishedVarint(s: seq<byte>)
    requires Unfinished(s)
    ensures ReadVarint(s).n == 0
  {
    UnfinishedReads(s, 0);
  }

  lemma {:induction false} LastTurn(data: seq<byte>, i: nat, t: Telemetry, seen: set<int>)
    requires i <= |data| && i !in seen && Unfinished(data[i..])
    ensures Decode(data, i, t, seen) == Sample(t, ValidFix(t))
  {
    UnfinishedVarint(data[i..]);
    hide ReadVarint, ValidFix;
  }

  /** A message is refused when a field after it is cut off or has an unknown wire type; it counts when nothing but an
      unfinished tag follows. */
  lemma {:induction false} TailDecides(fs: seq<Field>, tag: byte, rest: seq<byte>)
    requires forall k :: 0 <= k < |fs| ==> GoodField(fs[k])
    requires |EncodeMessage(fs) + [tag] + rest| < 0x7FFF_FFFF_0000_0000
    ensures var data, t := EncodeMessage(fs) + ([tag] + rest), ApplyAll(ZERO, fs);
            && (tag < 0x80 && BadField(tag, rest) ==>
                  Decode(data, 0, ZERO, {}) == Sample(Telemetry(0, 0, 0, 0, 0, 0), false))
            && (Unfinished([tag] + rest) ==> Decode(data, 0, ZERO, {}) == Sample(t, GoodFix(t)))
  {
    hide Decode, GoodField, EncodeMessage, ApplyAll, Starts, BadField, Unfinished, GoodFix, ValidFix;
    var m, t := EncodeMessage(fs), ApplyAll(ZERO, fs);
    var data := m + ([tag] + rest);
    FixIs(t);
    assert data[0..] == data;
    DecodeMessage(data, 0, ZERO, {}, fs, [tag] + rest);
    StartsBelow(fs, 0);
    assert data[|m|..] == [tag] + rest;
    var seen := {} + Starts(fs, 0);
    if tag < 0x80 && BadField(tag, rest) {
      BadTurn(data, |m|, t, seen, tag, rest);
    }
    if Unfinished([tag] + rest) {
      LastTurn(data, |m|, t, seen);
    }
  }

  // ----- units --------------------------------------------------------------

  /** A NAL unit of a recording: a SEI message, or anything that is no SEI unit or longer than 64 KiB. */
  datatype Nal = Message(header: seq<byte>, k: nat, t: Telemetry, trailer: byte) | Else(bytes: seq<byte>)

  ghost function NalBytes(u: Nal): seq<byte> {
    match u
    case Message(header, k, t, trailer) => Frame(header, k, MessageBytes(t), trailer)
    case Else(bytes) => bytes
  }

  ghost predicate GoodNal(u: Nal) {
    && 2 <= |NalBytes(u)| < 0x1_0000_0000
    && match u
       case Message(header, k, _, _) => |header| == 3 && header[0] % 32 == 6 && k >= 1 && |NalBytes(u)| <= 65536
       case Else(bytes) => bytes[0] % 32 != 6 || |bytes| > 65536
  }

  /** A length in four bytes, the high one first. */
  ghost function LengthBytes(n: uint32): (s: seq<byte>)
    ensures |s| == 4
  {
    [n / 0x100_0000, n / 0x1_0000 % 0x100, n / 0x100 % 0x100, n % 0x100]
  }

  ghost predicate GoodNals(us: seq<Nal>) { forall i :: 0 <= i < |us| ==> GoodNal(us[i]) }

  /** The units one after the other, each behind its length. */
  ghost function Recording(us: seq<Nal>): seq<byte>
    requires GoodNals(us)
  {
    if us == [] then [] else
      assert GoodNal(us[0]);
      LengthBytes(|NalBytes(us[0])|) + NalBytes(us[0]) + Recording(us[1..])
  }

  /** The messages with a good fix. */
  ghost function Fixes(us: seq<Nal>): seq<Telemetry> {
    if us == [] then []
    else (if us[0].Message? && GoodFix(us[0].t) then [us[0].t] else []) + Fixes(us[1..])
  }

  ghost function AllBytes(us: seq<Nal>): (s: seq<seq<byte>>)
    requires GoodNals(us)
    ensures |s| == |us| && forall i :: 0 <= i < |us| ==> s[i] == NalBytes(us[i]) && 2 <= |s[i]| < 0x1_0000_0000
  {
    assert forall i :: 0 <= i < |us| ==> GoodNal(us[i]);
    seq(|us|, i requires 0 <= i < |us| => NalBytes(us[i]))
  }

  lemma LengthIs(n: uint32)
    ensures ToBe32(n) == LengthBytes(n)
  {
    var a, b, c := n / 0x100_0000, n / 0x1_0000, n / 0x100;
    assert b / 0x100 == a && c / 0x100 == b;
  }

  lemma {:induction false} RecordingIs(us: seq<Nal>)
    requires GoodNals(us)
    ensures Recording(us) == EncodeNals(AllBytes(us))
  {
    hide NalBytes, ToBe32, LengthBytes, GoodNal;
    if us != [] {
      assert GoodNal(us[0]);
      assert |AllBytes(us)[0]| < 0x1_0000_0000;
      LengthIs(|NalBytes(us[0])|);
      RecordingIs(us[1..]);
      assert AllBytes(us)[1..] == AllBytes(us[1..]);
    }
  }

  lemma {:induction false} UnitIs(u: Nal)
    requires GoodNal(u)
    ensures match Unit(NalBytes(u))
            case Sample(t, ok) => (ok <==> u.Message? && GoodFix(u.t)) && (ok ==> t == u.t)
            case _ => false
  {
    match u
    case Message(header, k, t, trailer) =>
      MessageDecodes(header, k, t, trailer);
      hide ParseSei, MessageBytes, GoodFix, Escape;
      assert NalBytes(u)[0] == header[0];
    case Else(bytes) =>
      hide ParseSei;
  }

  lemma {:induction false} UnitsAre(us: seq<Nal>)
    requires GoodNals(us)
    ensures AllUnits(AllBytes(us)) == Extracted(Fixes(us))
  {
    hide Unit, NalBytes, GoodFix, GoodNal;
    if us != [] {
      UnitIs(us[0]);
      UnitsAre(us[1..]);
      assert AllBytes(us)[1..] == AllBytes(us[1..]);
    }
  }

  /** A recording is read as the messages with a good fix, in order, whatever else it holds. */
  lemma {:induction false} RecordingDecodes(file: seq<byte>, offset: nat, us: seq<Nal>)
    requires GoodNals(us)
    requires Holds(file, offset, Recording(us))
    ensures Walked(file, offset, offset + |Recording(us)|) == Extracted(Fixes(us))
  {
    hide GoodNal, GoodNals, NalBytes, Recording, EncodeNals, AllUnits, Walked, Holds, Fixes, AllBytes;
    RecordingIs(us);
    UnitsAre(us);
    ExtractionReadsEveryNal(file, offset, AllBytes(us));
  }

  /** A length below two, or one that reaches past the end of the box, ends the walk. */
  lemma {:induction false} BadLengthEnds(file: seq<byte>, cursor: nat, end: int, n: uint32)
    requires Holds(file, cursor, LengthBytes(n)) && (n < 2 || cursor + 4 + n > end)
    ensures Walked(file, cursor, end) == Extracted([])
  {
    hide Unit, ToBe32, Be32, Holds, LengthBytes;
    LengthIs(n);
    WordAt(file, cursor, ToBe32(n), 0);
  }

  // ----- which bytes are stripped -------------------------------------------

  /** The zeros counted after `data`, from `zeros` before it. */
  ghost function Zeros(data: seq<byte>, zeros: nat): nat {
    if data == [] then zeros
    else if zeros >= 2 && data[0] == 3 then Zeros(data[1..], 0)
    else Zeros(data[1..], if data[0] == 0 then zeros + 1 else 0)
  }

  lemma {:induction false} ZerosSnoc(data: seq<byte>, b: byte, zeros: nat)
    ensures Zeros(data + [b], zeros) == if b == 0 then Zeros(data, zeros) + 1 else 0
  {
    if data != [] {
      assert (data + [b])[1..] == data[1..] + [b];
      ZerosSnoc(data[1..], b, if data[0] == 0 then zeros + 1 else 0);
    } else {
      assert (data + [b])[1..] == [];
    }
  }

  lemma {:induction false} StripSnoc(data: seq<byte>, b: byte, zeros: nat)
    ensures Strip(data + [b], zeros) == Strip(data, zeros) + if Zeros(data, zeros) >= 2 && b == 3 then [] else [b]
  {
    if data != [] {
      var next := if data[0] == 0 then zeros + 1 else 0;
      assert (data + [b])[1..] == data[1..] + [b];
      StripSnoc(data[1..], b, next);
      if !(zeros >= 2 && data[0] == 3) {
        var last := if Zeros(data[1..], next) >= 2 && b == 3 then [] else [b];
        assert [data[0]] + (Strip(data[1..], next) + last) == [data[0]] + Strip(data[1..], next) + last;
      }
    } else {
      assert (data + [b])[1..] == [];
    }
  }

  /** A byte behind `data` is stripped exactly when it is a 3 and the two bytes before it are zero. */
  lemma {:induction false} StrippedIs(data: seq<byte>, b: byte)
    ensures Strip([], 0) == []
    ensures var n := |data|;
            var stripped := b == 3 && n >= 2 && data[n - 1] == 0 && data[n - 2] == 0;
            Strip(data + [b], 0) == Strip(data, 0) + if stripped then [] else [b]
  {
    hide Strip, Zeros;
    var n := |data|;
    StripSnoc(data, b, 0);
    StripNothing();
    if n >= 1 {
      ZerosSnoc(data[..n - 1], data[n - 1], 0);
      assert data == data[..n - 1] + [data[n - 1]];
    }
    if n >= 2 {
      ZerosSnoc(data[..n - 2], data[n - 2], 0);
      assert data[..n - 1] == data[..n - 2] + [data[n - 2]];
    }
    if n == 1 {
      assert data[..0] == [];
    }
  }

  lemma StripNothing()
    ensures Strip([], 0) == [] && Zeros([], 0) == 0
  {
  }
}
