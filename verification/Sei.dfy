/** The SEI decoder of server/drives/extract.go.  Floating-point fields are kept as
    their IEEE 754 bit patterns, so nothing here depends on rounding. */
module Sei {
  import opened Bytes

  // ----- base-128 varints ---------------------------------------------------

  function Pow128(k: nat): (p: nat)
    ensures p >= 1
  {
    if k == 0 then 1 else 0x80 * Pow128(k - 1)
  }

  /** The number written by the low seven bits of each byte, least significant group first. */
  function Base128(s: seq<byte>): nat {
    if s == [] then 0 else
      var low: int := s[0] % 0x80;
      low + 0x80 * Base128(s[1..])
  }

  datatype Varint = Varint(value: uint64, n: nat)

  /** `n` is 0 when no byte below 0x80 ends the number within ten bytes; then the value is 0 too. */
  ghost predicate IsVarint(data: seq<byte>, v: Varint) {
    if v.n == 0
    then v.value == 0 && forall k :: 0 <= k < |data| && k < 10 ==> data[k] >= 0x80
    else && v.n <= 10 && v.n <= |data| && data[v.n - 1] < 0x80
         && (forall k :: 0 <= k < v.n - 1 ==> data[k] >= 0x80)
         && v.value == Base128(data[..v.n]) % TWO_64
  }

  ghost function VarintEnd(data: seq<byte>, k: nat): (n: nat)
    requires k <= |data|
    ensures n == 0 || k < n <= |data|
    decreases |data| - k
  {
    if k >= 10 || k == |data| then 0 else if data[k] < 0x80 then k + 1 else VarintEnd(data, k + 1)
  }

  ghost function ReadVarint(data: seq<byte>): (v: Varint)
    ensures v.n <= |data|
  {
    var n := VarintEnd(data, 0);
    if n == 0 then Varint(0, 0) else Varint(Base128(data[..n]) % TWO_64, n)
  }

  method DecodeVarint(data: seq<byte>) returns (v: Varint)
    ensures v == ReadVarint(data)
    ensures IsVarint(data, v)
  {
    var val: uint64 := 0;
    var weight := 1;
    for i := 0 to |data|
      invariant i <= 10 && weight == Pow128(i)
      invariant forall k :: 0 <= k < i ==> data[k] >= 0x80
      invariant VarintEnd(data, 0) == VarintEnd(data, i)
      invariant val == Base128(data[..i]) % TWO_64
    {
      if i >= 10 {
        return Varint(0, 0);
      }
      var group: int := data[i] % 0x80;
      Base128Snoc(data[..i], data[i]);
      assert data[..i] + [data[i]] == data[..i + 1];
      AddMod(Base128(data[..i]), group * weight);
      val := (val + group * weight) % TWO_64;
      if data[i] < 0x80 {
        return Varint(val, i + 1);
      }
      weight := weight * 0x80;
    }
    return Varint(0, 0);
  }

  lemma AddMod(a: nat, b: nat)
    ensures (a % TWO_64 + b) % TWO_64 == (a + b) % TWO_64
  {
  }

  lemma {:induction false} Base128Snoc(s: seq<byte>, b: byte)
    ensures Base128(s + [b]) == Base128(s) + (b % 0x80) * Pow128(|s|)
  {
    if s == [] {
      assert s + [b] == [b];
      assert ([b])[1..] == [];
    } else {
      assert (s + [b])[0] == s[0] && (s + [b])[1..] == s[1..] + [b];
      Base128Snoc(s[1..], b);
      var d: int := b % 0x80;
      Distribute(0x80, Base128(s[1..]), d, Pow128(|s| - 1));
    }
  }

  lemma Distribute(c: int, x: int, y: int, z: int)
    ensures c * (x + y * z) == c * x + y * (c * z)
  {
  }

  ghost function EncodeVarint(v: nat): (s: seq<byte>)
    ensures |s| >= 1
  {
    if v < 0x80 then [v] else
      var group: int := v % 0x80 + 0x80;
      [group] + EncodeVarint(v / 0x80)
  }

  lemma {:induction false} EncodedShape(v: nat, k: nat)
    requires v < Pow128(k) && k >= 1
    ensures var s := EncodeVarint(v);
            |s| <= k && s[|s| - 1] < 0x80 && (forall i :: 0 <= i < |s| - 1 ==> s[i] >= 0x80) && Base128(s) == v
  {
    if v >= 0x80 {
      EncodedShape(v / 0x80, k - 1);
    }
  }

  lemma TenGroupsHold64Bits()
    ensures TWO_64 <= Pow128(10)
  {
    assert Pow128(2) == 0x4000;
    assert Pow128(4) == 0x1000_0000;
    assert Pow128(6) == 0x1000_0000 * 0x4000;
    assert Pow128(8) == 0x1000_0000 * 0x1000_0000;
  }

  lemma {:induction false} VarintEndIs(data: seq<byte>, k: nat, n: nat)
    requires k < n <= |data| && n <= 10 && data[n - 1] < 0x80
    requires forall i :: k <= i < n - 1 ==> data[i] >= 0x80
    ensures VarintEnd(data, k) == n
    decreases n - k
  {
    if k + 1 < n {
      VarintEndIs(data, k + 1, n);
    }
  }

  /** decodeVarint inverts base-128 encoding for every 64-bit value, whatever follows it. */
  lemma VarintRoundTrip(v: uint64, rest: seq<byte>)
    ensures ReadVarint(EncodeVarint(v) + rest) == Varint(v, |EncodeVarint(v)|)
  {
    hide Base128, EncodeVarint, Pow128, VarintEnd;
    var s := EncodeVarint(v);
    TenGroupsHold64Bits();
    EncodedShape(v, 10);
    VarintEndIs(s + rest, 0, |s|);
    assert (s + rest)[..|s|] == s;
  }

  // ----- emulation prevention (ITU-T H.264, sections 7.3.1 and 7.4.1) ---------

  ghost function Strip(data: seq<byte>, zeros: nat): seq<byte> {
    if data == [] then []
    else if zeros >= 2 && data[0] == 3 then Strip(data[1..], 0)
    else [data[0]] + Strip(data[1..], if data[0] == 0 then zeros + 1 else 0)
  }

  method StripEmulationBytes(data: seq<byte>) returns (out: seq<byte>)
    ensures out == Strip(data, 0)
  {
    out := [];
    var zeros := 0;
    for i := 0 to |data|
      invariant out + Strip(data[i..], zeros) == Strip(data, 0)
    {
      var b := data[i];
      assert data[i..][1..] == data[i + 1..];
      if zeros >= 2 && b == 3 {
        zeros := 0;
      } else {
        ghost var before := out;
        out := out + [b];
        zeros := if b == 0 then zeros + 1 else 0;
        assert before + ([b] + Strip(data[i + 1..], zeros)) == out + Strip(data[i + 1..], zeros);
      }
    }
    assert data[|data|..] == [];
  }

  /** The encoder's side: a 3 goes in front of any byte below 4 that follows two zeros. */
  ghost function Escape(data: seq<byte>, zeros: nat): seq<byte> {
    if data == [] then []
    else if zeros == 2 && data[0] <= 3 then [3, data[0]] + Escape(data[1..], if data[0] == 0 then 1 else 0)
    else [data[0]] + Escape(data[1..], if data[0] == 0 then zeros + 1 else 0)
  }

  lemma {:induction false} StripInvertsEscape(data: seq<byte>, zeros: nat)
    requires zeros <= 2
    ensures Strip(Escape(data, zeros), zeros) == data
  {
    if data != [] {
      var b := data[0];
      if zeros == 2 && b <= 3 {
        var rest := Escape(data[1..], if b == 0 then 1 else 0);
        var e := Escape(data, zeros);
        assert e[1..] == [b] + rest && ([b] + rest)[1..] == rest;
        StripInvertsEscape(data[1..], if b == 0 then 1 else 0);
      } else {
        var z := if b == 0 then zeros + 1 else 0;
        assert Escape(data, zeros)[1..] == Escape(data[1..], z);
        StripInvertsEscape(data[1..], z);
      }
    }
  }

  /** No start-code-like triple survives escaping: two zeros are never followed by 0, 1 or 2. */
  ghost predicate NoStartCode(data: seq<byte>, zeros: nat) {
    if data == [] then true
    else !(zeros >= 2 && data[0] <= 2) && NoStartCode(data[1..], if data[0] == 0 then zeros + 1 else 0)
  }

  lemma {:induction false} EscapeHasNoStartCode(data: seq<byte>, zeros: nat)
    requires zeros <= 2
    ensures NoStartCode(Escape(data, zeros), zeros)
  {
    if data != [] {
      var b := data[0];
      var e := Escape(data, zeros);
      if zeros == 2 && b <= 3 {
        var rest := Escape(data[1..], if b == 0 then 1 else 0);
        assert e[1..] == [b] + rest && ([b] + rest)[1..] == rest;
        EscapeHasNoStartCode(data[1..], if b == 0 then 1 else 0);
      } else {
        var z := if b == 0 then zeros + 1 else 0;
        assert e[1..] == Escape(data[1..], z);
        EscapeHasNoStartCode(data[1..], z);
      }
    }
  }

  // ----- the protobuf message -----------------------------------------------

  datatype Telemetry = Telemetry(lat: uint64, lon: uint64, gear: byte, apState: byte, speed: uint32, accel: uint32)

  const ZERO := Telemetry(0, 0, 0, 0, 0, 0)

  /** A length of 2^63 or more moves the cursor back: to a negative index, where slicing panics, to a position
      it has been at, from where it goes round for ever, or to another one, where decoding goes on. */
  datatype SeiResult = Panics | Loops | Sample(data: Telemetry, ok: bool)

  const REJECT := Sample(ZERO, false)

  const BITS_OF_90 := 0x4056_8000_0000_0000
  const BITS_OF_180 := 0x4066_8000_0000_0000

  /** The final test on latitude and longitude, on magnitudes: bit patterns of non-negative
      doubles are ordered like their values, and infinities and NaNs lie above every bound. */
  predicate ValidFix(t: Telemetry) {
    && t.lat % TWO_63 <= BITS_OF_90 && t.lon % TWO_63 <= BITS_OF_180
    && !(t.lat % TWO_63 == 0 && t.lon % TWO_63 == 0)
  }

  function SetVarint(t: Telemetry, num: nat, v: uint64): Telemetry {
    if num == 2 then t.(gear := v % 0x100) else if num == 10 then t.(apState := v % 0x100) else t
  }

  function SetFixed64(t: Telemetry, num: nat, v: uint64): Telemetry {
    if num == 11 then t.(lat := v) else if num == 12 then t.(lon := v) else t
  }

  function SetFixed32(t: Telemetry, num: nat, v: uint32): Telemetry {
    if num == 4 then t.(speed := v) else if num == 5 then t.(accel := v) else t
  }

  function Le32(s: seq<byte>): uint32
    requires |s| == 4
  {
    Pow256Values();
    Le(s)
  }

  function Le64(s: seq<byte>): uint64
    requires |s| == 8
  {
    Pow256Values();
    Le(s)
  }

  /** One turn of the field loop: it stops with a result, or moves the cursor. */
  datatype Turn = Stops(r: SeiResult) | Moves(next: int, t: Telemetry)

  ghost function TurnAt(data: seq<byte>, i: nat, t: Telemetry): Turn
    requires i < |data|
  {
    var tag := ReadVarint(data[i..]);
    if tag.n == 0 then Stops(Sample(t, ValidFix(t))) else
    var j := i + tag.n;
    var num := tag.value / 8;
    match tag.value % 8
    case 0 =>
      var v := ReadVarint(data[j..]);
      if v.n == 0 then Stops(REJECT) else Moves(j + v.n, SetVarint(t, num, v.value))
    case 1 =>
      if j + 8 > |data| then Stops(REJECT) else Moves(j + 8, SetFixed64(t, num, Le64(data[j..j + 8])))
    case 2 =>
      var length := ReadVarint(data[j..]);
      if length.n == 0 then Stops(REJECT) else Moves(Wrap(j + length.n + length.value), t)
    case 5 =>
      if j + 4 > |data| then Stops(REJECT) else Moves(j + 4, SetFixed32(t, num, Le32(data[j..j + 4])))
    case _ => Stops(REJECT)
  }

  /** The positions of `n` bytes. */
  ghost function Positions(n: nat): (r: set<int>)
    ensures forall k :: k in r <==> 0 <= k < n
  {
    if n == 0 then {} else Positions(n - 1) + {n - 1}
  }

  /** `seen` holds the positions the cursor has been at. */
  ghost function Decode(data: seq<byte>, i: int, t: Telemetry, seen: set<int>): SeiResult
    decreases Positions(|data|) - seen
  {
    if i >= |data| then Sample(t, ValidFix(t))
    else if i < 0 then Panics
    else if i in seen then Loops else
    assert i in Positions(|data|) - seen;
    match TurnAt(data, i, t)
    case Stops(r) => r
    case Moves(next, u) => Decode(data, next, u, seen + {i})
  }

  /** The original keeps no set of positions: it has no test for going round. */
  method DecodeSeiGPS(data: seq<byte>) returns (r: SeiResult)
    ensures r == Decode(data, 0, ZERO, {})
  {
    hide ReadVarint, ValidFix, Le32, Le64, IsVarint, SetVarint, SetFixed32, SetFixed64, Wrap, Positions;
    var i, t := 0, ZERO;
    var seen: set<int> := {};
    while i < |data|
      invariant Decode(data, i, t, seen) == Decode(data, 0, ZERO, {})
      decreases Positions(|data|) - seen
    {
      if i < 0 {
        return Panics;
      }
      if i in seen {
        return Loops;
      }
      assert i in Positions(|data|) - seen;
      var tag := DecodeVarint(data[i..]);
      if tag.n == 0 {
        break;
      }
      var j := i + tag.n;
      var num, wireType := tag.value / 8, tag.value % 8;
      if wireType == 0 {
        var v := DecodeVarint(data[j..]);
        if v.n == 0 {
          return REJECT;
        }
        seen, i, t := seen + {i}, j + v.n, SetVarint(t, num, v.value);
      } else if wireType == 1 {
        if j + 8 > |data| {
          return REJECT;
        }
        seen, i, t := seen + {i}, j + 8, SetFixed64(t, num, Le64(data[j..j + 8]));
      } else if wireType == 2 {
        var length := DecodeVarint(data[j..]);
        if length.n == 0 {
          return REJECT;
        }
        seen, i := seen + {i}, Wrap(j + length.n + length.value);
      } else if wireType == 5 {
        if j + 4 > |data| {
          return REJECT;
        }
        seen, i, t := seen + {i}, j + 4, SetFixed32(t, num, Le32(data[j..j + 4]));
      } else {
        return REJECT;
      }
    }
    return Sample(t, ValidFix(t));
  }

  // ----- when the cursor moves back --------------------------------------------

  /** The field at `i` has a length that moves the cursor back: its end lies between 2^63 and 2^64 + i. */
  ghost predicate LongField(data: seq<byte>, i: nat)
    requires i < |data|
  {
    var tag := ReadVarint(data[i..]);
    && tag.n > 0 && tag.value % 8 == 2
    && var length := ReadVarint(data[i + tag.n..]);
    length.n > 0 && TWO_63 <= i + tag.n + length.n + length.value <= TWO_64 + i
  }

  lemma TurnGoesBack(data: seq<byte>, i: nat, t: Telemetry)
    requires i < |data| < TWO_63
    ensures match TurnAt(data, i, t)
            case Stops(r) => r.Sample?
            case Moves(next, _) => next <= i <==> LongField(data, i)
  {
    hide ReadVarint, ValidFix, Le32, Le64, SetVarint, SetFixed32, SetFixed64;
  }

  /** Going forward from `i` the cursor meets such a field. */
  ghost predicate MeetsLong(data: seq<byte>, i: nat, t: Telemetry)
    requires |data| < TWO_63
    decreases |data| - i
  {
    i < |data| && TurnAt(data, i, t).Moves? &&
    (LongField(data, i) ||
     (TurnGoesBack(data, i, t); MeetsLong(data, TurnAt(data, i, t).next, TurnAt(data, i, t).t)))
  }

  /** Going forward as far as it goes: to a result, or to the first move back and where it leads. */
  datatype Course = Ends(r: SeiResult) | Back(at: int, t: Telemetry, seen: set<int>)

  ghost function Forward(data: seq<byte>, i: nat, t: Telemetry, seen: set<int>): Course
    decreases |data| - i
  {
    if i >= |data| then Ends(Sample(t, ValidFix(t))) else
    match TurnAt(data, i, t)
    case Stops(r) => Ends(r)
    case Moves(next, u) => if next <= i then Back(next, u, seen + {i}) else Forward(data, next, u, seen + {i})
  }

  /** What moving the cursor to `at` leads to. */
  ghost function Landing(data: seq<byte>, at: int, t: Telemetry, seen: set<int>): SeiResult {
    if at < 0 then Panics else if at in seen then Loops else Decode(data, at, t, seen)
  }

  /** On any bytes: without such a field there is a result; with one, the first of them makes the decoder panic,
      loop for ever or go on at a new position, by where it leads. */
  lemma {:induction false} ResultUnlessLong(data: seq<byte>, i: nat, t: Telemetry, seen: set<int>)
    requires |data| < TWO_63 && forall k :: k in seen ==> k < i
    ensures Forward(data, i, t, seen).Back? <==> MeetsLong(data, i, t)
    ensures match Forward(data, i, t, seen)
            case Ends(r) => r.Sample? && Decode(data, i, t, seen) == r
            case Back(at, u, s) => Decode(data, i, t, seen) == Landing(data, at, u, s)
    decreases |data| - i
  {
    hide TurnAt, LongField, ValidFix;
    if i < |data| {
      TurnGoesBack(data, i, t);
      match TurnAt(data, i, t)
      case Stops(r) =>
      case Moves(next, u) =>
        if next > i {
          ResultUnlessLong(data, next, u, seen + {i});
        } else {
          OffTheEnds(data, next, u, seen + {i});
        }
    }
  }

  lemma OffTheEnds(data: seq<byte>, i: int, t: Telemetry, seen: set<int>)
    ensures i >= |data| ==> Decode(data, i, t, seen) == Sample(t, ValidFix(t))
    ensures i < 0 ==> Decode(data, i, t, seen) == Panics
    ensures 0 <= i < |data| && i in seen ==> Decode(data, i, t, seen) == Loops
  {
    hide ValidFix, TurnAt;
  }

  // ----- messages and their encoding ----------------------------------------

  datatype Field =
    | VarintField(num: nat, v: uint64)
    | Fixed64Field(num: nat, bits: uint64)
    | BytesField(num: nat, payload: seq<byte>)
    | Fixed32Field(num: nat, word: uint32)

  ghost function Wire(f: Field): nat {
    match f
    case VarintField(_, _) => 0
    case Fixed64Field(_, _) => 1
    case BytesField(_, _) => 2
    case Fixed32Field(_, _) => 5
  }

  /** Field numbers below 2^29, as protobuf has them, and payloads shorter than 2^31. */
  ghost predicate GoodField(f: Field) {
    f.num < 0x2000_0000 && (f.BytesField? ==> |f.payload| < 0x8000_0000)
  }

  ghost function Body(f: Field): seq<byte> {
    match f
    case VarintField(_, v) => EncodeVarint(v)
    case Fixed64Field(_, bits) => ToLe(bits, 8)
    case BytesField(_, payload) => EncodeVarint(|payload|) + payload
    case Fixed32Field(_, word) => ToLe(word, 4)
  }

  ghost function EncodeField(f: Field): seq<byte> {
    EncodeVarint(8 * f.num + Wire(f)) + Body(f)
  }

  ghost function EncodeMessage(fs: seq<Field>): seq<byte> {
    if fs == [] then [] else EncodeField(fs[0]) + EncodeMessage(fs[1..])
  }

  ghost function Apply(t: Telemetry, f: Field): Telemetry {
    match f
    case VarintField(num, v) => SetVarint(t, num, v)
    case Fixed64Field(num, bits) => SetFixed64(t, num, bits)
    case BytesField(_, _) => t
    case Fixed32Field(num, word) => SetFixed32(t, num, word)
  }

  ghost function ApplyAll(t: Telemetry, fs: seq<Field>): Telemetry
    decreases |fs|
  {
    if fs == [] then t else ApplyAll(Apply(t, fs[0]), fs[1..])
  }

  lemma {:induction false} StepVarint(data: seq<byte>, i: nat, t: Telemetry, seen: set<int>, num: nat, n: nat,
        v: uint64, rest: seq<byte>)
    requires i + n <= |data| && n > 0 && num < 0x2000_0000 && i !in seen
    requires ReadVarint(data[i..]) == Varint(8 * num, n) && data[i + n..] == EncodeVarint(v) + rest
    ensures Decode(data, i, t, seen) == Decode(data, i + n + |EncodeVarint(v)|, SetVarint(t, num, v), seen + {i})
  {
    hide ReadVarint, ValidFix, SetVarint, SetFixed32, SetFixed64, Le32, Le64, Wrap, EncodeVarint, ToLe;
    VarintRoundTrip(v, rest);
  }

  lemma {:induction false} StepFixed64(data: seq<byte>, i: nat, t: Telemetry, seen: set<int>, num: nat, n: nat,
        bits: uint64, rest: seq<byte>)
    requires i + n <= |data| && n > 0 && num < 0x2000_0000 && i !in seen
    requires ReadVarint(data[i..]) == Varint(8 * num + 1, n) && data[i + n..] == ToLe(bits, 8) + rest
    ensures Decode(data, i, t, seen) == Decode(data, i + n + 8, SetFixed64(t, num, bits), seen + {i})
  {
    hide ReadVarint, ValidFix, SetVarint, SetFixed32, SetFixed64, Le32, Le64, Wrap, EncodeVarint, ToLe;
    Fixed64Reads(bits);
    assert data[i + n..i + n + 8] == data[i + n..][..8] == ToLe(bits, 8);
  }

  /** A length moves the cursor by itself modulo 2^64, backwards from 2^63 on. */
  lemma StepLength(data: seq<byte>, i: nat, t: Telemetry, seen: set<int>, num: nat, n: nat, length: uint64,
        rest: seq<byte>)
    requires i + n <= |data| && n > 0 && num < 0x2000_0000 && i !in seen
    requires ReadVarint(data[i..]) == Varint(8 * num + 2, n) && data[i + n..] == EncodeVarint(length) + rest
    ensures Decode(data, i, t, seen) == Decode(data, Wrap(i + n + |EncodeVarint(length)| + length), t, seen + {i})
  {
    hide ReadVarint, ValidFix, SetVarint, SetFixed32, SetFixed64, Le32, Le64, Wrap, EncodeVarint, ToLe;
    VarintRoundTrip(length, rest);
  }

  lemma {:induction false} StepFixed32(data: seq<byte>, i: nat, t: Telemetry, seen: set<int>, num: nat, n: nat,
        word: uint32, rest: seq<byte>)
    requires i + n <= |data| && n > 0 && num < 0x2000_0000 && i !in seen
    requires ReadVarint(data[i..]) == Varint(8 * num + 5, n) && data[i + n..] == ToLe(word, 4) + rest
    ensures Decode(data, i, t, seen) == Decode(data, i + n + 4, SetFixed32(t, num, word), seen + {i})
  {
    hide ReadVarint, ValidFix, SetVarint, SetFixed32, SetFixed64, Le32, Le64, Wrap, EncodeVarint, ToLe;
    Fixed32Reads(word);
    assert data[i + n..i + n + 4] == data[i + n..][..4] == ToLe(word, 4);
  }

  lemma StepBytes(data: seq<byte>, i: nat, t: Telemetry, seen: set<int>, num: nat, n: nat, payload: seq<byte>,
        rest: seq<byte>)
    requires i + n <= |data| < TWO_63 - TWO_32 && n > 0 && num < 0x2000_0000 && i !in seen
    requires |payload| < 0x8000_0000 && ReadVarint(data[i..]) == Varint(8 * num + 2, n)
    requires data[i + n..] == EncodeVarint(|payload|) + payload + rest
    ensures Decode(data, i, t, seen) == Decode(data, i + n + |EncodeVarint(|payload|) + payload|, t, seen + {i})
  {
    hide ReadVarint, EncodeVarint, Decode, Wrap;
    var head := EncodeVarint(|payload|);
    assert data[i + n..] == head + (payload + rest);
    assert |head| + |payload| <= |data|;
    StepLength(data, i, t, seen, num, n, |payload|, payload + rest);
  }

  lemma TagReads(data: seq<byte>, i: nat, f: Field, rest: seq<byte>)
    requires GoodField(f) && i <= |data| && data[i..] == EncodeField(f) + rest
    ensures var n := |EncodeVarint(8 * f.num + Wire(f))|;
            && n > 0 && i + n <= |data| && |EncodeField(f)| == n + |Body(f)|
            && ReadVarint(data[i..]) == Varint(8 * f.num + Wire(f), n)
            && data[i + n..] == Body(f) + rest
  {
    hide ReadVarint, EncodeVarint, Body;
    var head := EncodeVarint(8 * f.num + Wire(f));
    VarintRoundTrip(8 * f.num + Wire(f), Body(f) + rest);
    assert EncodeField(f) + rest == head + (Body(f) + rest);
    assert data[i + |head|..] == data[i..][|head|..];
  }

  lemma FieldStep(data: seq<byte>, i: nat, t: Telemetry, seen: set<int>, f: Field, n: nat, rest: seq<byte>)
    requires GoodField(f) && n > 0 && i + n <= |data| < TWO_63 - TWO_32 && i !in seen
    requires ReadVarint(data[i..]) == Varint(8 * f.num + Wire(f), n) && data[i + n..] == Body(f) + rest
    ensures Decode(data, i, t, seen) == Decode(data, i + n + |Body(f)|, Apply(t, f), seen + {i})
  {
    hide ReadVarint, EncodeVarint, SetVarint, SetFixed32, SetFixed64, ToLe, Decode, Wrap;
    match f
    case VarintField(num, v) => StepVarint(data, i, t, seen, num, n, v, rest);
    case Fixed64Field(num, bits) => StepFixed64(data, i, t, seen, num, n, bits, rest);
    case BytesField(num, payload) => StepBytes(data, i, t, seen, num, n, payload, rest);
    case Fixed32Field(num, word) => StepFixed32(data, i, t, seen, num, n, word, rest);
  }

  /** One turn of the decoder consumes exactly one encoded field. */
  lemma {:induction false} DecodeField(data: seq<byte>, i: nat, t: Telemetry, seen: set<int>, f: Field,
        rest: seq<byte>)
    requires GoodField(f) && i <= |data| < TWO_63 - TWO_32 && data[i..] == EncodeField(f) + rest && i !in seen
    ensures Decode(data, i, t, seen) == Decode(data, i + |EncodeField(f)|, Apply(t, f), seen + {i})
  {
    hide *;
    TagReads(data, i, f, rest);
    FieldStep(data, i, t, seen, f, |EncodeVarint(8 * f.num + Wire(f))|, rest);
  }

  lemma Fixed64Reads(bits: uint64)
    ensures Le64(ToLe(bits, 8)) == bits
  {
    Pow256Values();
    LeOfToLe(bits, 8);
  }

  lemma Fixed32Reads(word: uint32)
    ensures Le32(ToLe(word, 4)) == word
  {
    Pow256Values();
    LeOfToLe(word, 4);
  }

  /** A message is decoded field by field, whatever follows it. */
  lemma {:induction false} DecodeMessage(data: seq<byte>, i: nat, t: Telemetry, seen: set<int>, fs: seq<Field>,
        rest: seq<byte>)
    requires forall k :: 0 <= k < |fs| ==> GoodField(fs[k])
    requires forall k :: k in seen ==> k < i
    requires i <= |data| < TWO_63 - TWO_32 && data[i..] == EncodeMessage(fs) + rest
    ensures Decode(data, i, t, seen) ==
            Decode(data, i + |EncodeMessage(fs)|, ApplyAll(t, fs), seen + Starts(fs, i))
    decreases |fs|
  {
    hide ReadVarint, EncodeField, Apply, GoodField, Decode, Positions;
    if fs == [] {
      assert seen + Starts(fs, i) == seen;
    } else {
      var f, after := EncodeField(fs[0]), EncodeMessage(fs[1..]) + rest;
      assert data[i..] == f + after;
      DecodeField(data, i, t, seen, fs[0], after);
      FieldNonEmpty(fs[0]);
      var j := i + |f|;
      assert data[j..] == data[i..][|f|..] == after;
      DecodeMessage(data, j, Apply(t, fs[0]), seen + {i}, fs[1..], rest);
      assert seen + {i} + Starts(fs[1..], j) == seen + Starts(fs, i);
    }
  }

  lemma FieldNonEmpty(f: Field)
    ensures |EncodeField(f)| > 0
  {
    hide EncodeVarint, Body;
  }

  // ----- a cursor that moves back ---------------------------------------------

  lemma {:induction false} VarintLength(v: nat, k: nat)
    requires v >= Pow128(k)
    ensures |EncodeVarint(v)| > k
  {
    if k > 0 {
      VarintLength(v / 0x80, k - 1);
    }
  }

  lemma TenBytes(v: uint64)
    requires v >= TWO_63
    ensures |EncodeVarint(v)| == 10
  {
    TenGroupsHold64Bits();
    EncodedShape(v, 10);
    NineGroups();
    VarintLength(v, 9);
  }

  lemma NineGroups()
    ensures Pow128(9) == TWO_63
  {
    assert Pow128(3) == 0x20_0000;
    assert Pow128(6) == 0x20_0000 * 0x20_0000;
    assert Pow128(9) == 0x20_0000 * 0x20_0000 * 0x20_0000;
  }

  /** A length-delimited field with this length and nothing after it. */
  ghost function Jump(length: uint64): seq<byte> { [0x0A] + EncodeVarint(length) }

  lemma SmallVarints()
    ensures EncodeVarint(89) == [89] && EncodeVarint(97) == [97] && EncodeVarint(20) == [20]
    ensures EncodeVarint(10) == [0x0A] && EncodeVarint(127) == [127]
  {
  }

  lemma JumpReads(data: seq<byte>, i: nat, t: Telemetry, seen: set<int>, length: uint64, rest: seq<byte>)
    requires i <= |data| && data[i..] == Jump(length) + rest && i !in seen
    ensures Decode(data, i, t, seen) == Decode(data, Wrap(i + 1 + |EncodeVarint(length)| + length), t, seen + {i})
  {
    SmallVarints();
    hide EncodeVarint, Decode, Wrap, ReadVarint;
    assert data[i..] == EncodeVarint(10) + (EncodeVarint(length) + rest);
    VarintRoundTrip(10, EncodeVarint(length) + rest);
    assert data[i + 1..] == data[i..][1..] == EncodeVarint(length) + rest;
    StepLength(data, i, t, seen, 1, 1, length, rest);
  }

  /** Where the fields of a message start that begins at `i`. */
  ghost function Starts(fs: seq<Field>, i: nat): set<int> {
    if fs == [] then {} else {i} + Starts(fs[1..], i + |EncodeField(fs[0])|)
  }

  lemma JumpEnds(p: nat, length: uint64)
    requires p < TWO_63 - TWO_32
    ensures var n := |EncodeVarint(length)|;
            && 1 <= n <= 10
            && (length >= TWO_63 ==> n == 10 && Wrap(p + 1 + n + length) == p + 11 + length - TWO_64)
            && (length < TWO_63 && p + 1 + n + length >= TWO_63 ==> Wrap(p + 1 + n + length) < 0)
            && (p + 1 + n + length < TWO_63 ==> Wrap(p + 1 + n + length) == p + 1 + n + length)
  {
    TenGroupsHold64Bits();
    EncodedShape(length, 10);
    hide EncodeVarint;
    if length >= TWO_63 {
      TenBytes(length);
    }
  }

  lemma MessageThenJump(data: seq<byte>, fs: seq<Field>, length: uint64, rest: seq<byte>)
    requires forall k :: 0 <= k < |fs| ==> GoodField(fs[k])
    requires |data| < TWO_63 - TWO_32 && data == EncodeMessage(fs) + Jump(length) + rest
    ensures var p := |EncodeMessage(fs)|;
            Decode(data, 0, ZERO, {}) ==
            Decode(data, Wrap(p + 1 + |EncodeVarint(length)| + length), ApplyAll(ZERO, fs), Starts(fs, 0) + {p})
  {
    hide *;
    JumpParts(fs, length, rest);
    StartsBelow(fs, 0);
    var p := |EncodeMessage(fs)|;
    DecodeMessage(data, 0, ZERO, {}, fs, Jump(length) + rest);
    assert {} + Starts(fs, 0) == Starts(fs, 0);
    JumpReads(data, p, ApplyAll(ZERO, fs), Starts(fs, 0), length, rest);
  }

  lemma LandingIs(data: seq<byte>, at: int, t: Telemetry, seen: set<int>)
    requires forall k :: k in seen ==> k < |data|
    ensures Decode(data, at, t, seen) == Landing(data, at, t, seen)
  {
    OffTheEnds(data, at, t, seen);
    hide Decode;
  }

  /** Any message, any length after it and any bytes after that: below 2^63 the cursor skips ahead, or, when the
      end passes 2^63, decoding panics.  From 2^63 on it moves back to `back`: before the first byte decoding panics,
      at the start of a field it loops for ever, and anywhere else it goes on with what it has read. */
  lemma JumpAfterMessage(data: seq<byte>, fs: seq<Field>, length: uint64, rest: seq<byte>)
    requires forall k :: 0 <= k < |fs| ==> GoodField(fs[k])
    requires |data| < TWO_63 - TWO_32 && data == EncodeMessage(fs) + Jump(length) + rest
    ensures var p, t := |EncodeMessage(fs)|, ApplyAll(ZERO, fs);
            var end, back := p + 1 + |EncodeVarint(length)| + length, p + 11 + length - TWO_64;
            var seen := Starts(fs, 0) + {p};
            Decode(data, 0, ZERO, {}) ==
            if length >= TWO_63 then Landing(data, back, t, seen)
            else if end >= TWO_63 then Panics
            else Decode(data, end, t, seen)
  {
    hide *;
    var p := |EncodeMessage(fs)|;
    var at, t, seen := Wrap(p + 1 + |EncodeVarint(length)| + length), ApplyAll(ZERO, fs), Starts(fs, 0) + {p};
    MessageThenJump(data, fs, length, rest);
    JumpFits(data, fs, length, rest);
    JumpEnds(p, length);
    LandingIs(data, at, t, seen);
    OffTheEnds(data, at, t, seen);
  }

  lemma JumpFits(data: seq<byte>, fs: seq<Field>, length: uint64, rest: seq<byte>)
    requires |data| < TWO_63 - TWO_32 && data == EncodeMessage(fs) + Jump(length) + rest
    ensures |EncodeMessage(fs)| < |data| && |EncodeMessage(fs)| < TWO_63 - TWO_32
    ensures forall k :: k in Starts(fs, 0) + {|EncodeMessage(fs)|} ==> k < |data|
  {
    hide *;
    JumpParts(fs, length, rest);
    StartsBelow(fs, 0);
  }

  lemma JumpParts(fs: seq<Field>, length: uint64, rest: seq<byte>)
    ensures var data, p := EncodeMessage(fs) + Jump(length) + rest, |EncodeMessage(fs)|;
            && data[0..] == EncodeMessage(fs) + (Jump(length) + rest) && data[p..] == Jump(length) + rest
            && |data| > p
  {
    hide EncodeMessage, EncodeVarint;
  }

  lemma {:induction false} StartsBelow(fs: seq<Field>, i: nat)
    ensures forall k :: k in Starts(fs, i) ==> i <= k < i + |EncodeMessage(fs)|
  {
    hide EncodeField;
    if fs != [] {
      FieldNonEmpty(fs[0]);
      StartsBelow(fs[1..], i + |EncodeField(fs[0])|);
    }
  }

  /** Latitude and longitude inside the payload of a field that the decoder skips first. */
  ghost function Hidden(lat: uint64, lon: uint64): seq<byte> {
    EncodeField(Fixed64Field(11, lat)) + EncodeField(Fixed64Field(12, lon)) + Jump(127)
  }

  /** 31 below 2^64. */
  const BACK_31: uint64 := 0xFFFF_FFFF_FFFF_FFE1

  ghost function JumpingBack(lat: uint64, lon: uint64): seq<byte> {
    EncodeField(BytesField(1, Hidden(lat, lon))) + Jump(BACK_31)
  }

  lemma FixSize(num: nat, bits: uint64)
    requires num == 11 || num == 12
    ensures |EncodeField(Fixed64Field(num, bits))| == 9
  {
    SmallVarints();
    hide ToLe, EncodeVarint;
  }

  lemma JumpSizes()
    ensures |Jump(127)| == 2 && |EncodeVarint(127)| == 1
    ensures |Jump(BACK_31)| == 11 && |EncodeVarint(BACK_31)| == 10
  {
    SmallVarints();
    TenBytes(BACK_31);
    hide EncodeVarint;
  }

  lemma OuterIs(payload: seq<byte>)
    requires |payload| == 20
    ensures EncodeField(BytesField(1, payload)) == [0x0A, 20] + payload
  {
    SmallVarints();
    hide EncodeVarint;
  }

  lemma WrapsTo()
    ensures Wrap(149) == 149 && Wrap(33 + BACK_31) == 2
  {
  }

  /** The parts of 33 bytes, from the start and from position 2. */
  lemma SplitAt(data: seq<byte>, a: seq<byte>, b: seq<byte>, c: seq<byte>, tail: seq<byte>)
    requires |a| == 9 && |b| == 9 && |c| == 2 && |tail| == 11
    requires data == [0x0A, 20] + (a + b + c) + tail
    ensures data[0..] == data && data[2..] == a + data[11..] && data[11..] == b + data[20..]
    ensures data[20..] == c + tail && data[22..] == tail + []
  {
  }

  lemma FixDecodes(data: seq<byte>, i: nat, t: Telemetry, seen: set<int>, num: nat, bits: uint64)
    requires num == 11 || num == 12
    requires |data| == 33 && i + 9 <= 33 && i !in seen
    requires data[i..] == EncodeField(Fixed64Field(num, bits)) + data[i + 9..]
    ensures Decode(data, i, t, seen) == Decode(data, i + 9, SetFixed64(t, num, bits), seen + {i})
  {
    FixSize(num, bits);
    hide EncodeField, Decode;
    DecodeField(data, i, t, seen, Fixed64Field(num, bits), data[i + 9..]);
  }

  lemma JumpsToEnd(data: seq<byte>, t: Telemetry, seen: set<int>, tail: seq<byte>)
    requires |data| == 33 && data[20..] == Jump(127) + tail && 20 !in seen
    ensures Decode(data, 20, t, seen) == Sample(t, ValidFix(t))
  {
    JumpSizes();
    WrapsTo();
    hide *;
    JumpReads(data, 20, t, seen, 127, tail);
    OffTheEnds(data, 149, t, seen + {20});
  }

  lemma HiddenDecodes(data: seq<byte>, lat: uint64, lon: uint64, seen: set<int>, tail: seq<byte>)
    requires |data| == 33 && 2 !in seen && 11 !in seen && 20 !in seen
    requires data[2..] == EncodeField(Fixed64Field(11, lat)) + data[11..]
    requires data[11..] == EncodeField(Fixed64Field(12, lon)) + data[20..]
    requires data[20..] == Jump(127) + tail
    ensures var t := ZERO.(lat := lat, lon := lon); Decode(data, 2, ZERO, seen) == Sample(t, ValidFix(t))
  {
    hide EncodeField, Decode, Jump, ValidFix;
    FixDecodes(data, 2, ZERO, seen, 11, lat);
    FixDecodes(data, 11, ZERO.(lat := lat), seen + {2}, 12, lon);
    JumpsToEnd(data, ZERO.(lat := lat, lon := lon), seen + {2} + {11}, tail);
  }

  lemma OuterSkips(data: seq<byte>, inner: seq<byte>, tail: seq<byte>)
    requires |data| == 33 && |inner| == 20 && data[0..] == EncodeField(BytesField(1, inner)) + tail
    ensures Decode(data, 0, ZERO, {}) == Decode(data, 22, ZERO, {} + {0})
  {
    OuterIs(inner);
    hide EncodeField, Decode;
    DecodeField(data, 0, ZERO, {}, BytesField(1, inner), tail);
  }

  lemma JumpsToTwo(data: seq<byte>, seen: set<int>)
    requires |data| == 33 && data[22..] == Jump(BACK_31) + [] && 22 !in seen
    ensures Decode(data, 22, ZERO, seen) == Decode(data, 2, ZERO, seen + {22})
  {
    JumpSizes();
    WrapsTo();
    hide *;
    JumpReads(data, 22, ZERO, seen, BACK_31, []);
  }

  lemma JumpingParts(lat: uint64, lon: uint64)
    ensures var data, inner, jump := JumpingBack(lat, lon), Hidden(lat, lon), Jump(127);
            && |data| == 33 && |inner| == 20
            && data[0..] == EncodeField(BytesField(1, inner)) + Jump(BACK_31)
            && data[2..] == EncodeField(Fixed64Field(11, lat)) + data[11..]
            && data[11..] == EncodeField(Fixed64Field(12, lon)) + data[20..]
            && data[20..] == jump + Jump(BACK_31) && data[22..] == Jump(BACK_31) + []
  {
    FixSize(11, lat);
    FixSize(12, lon);
    JumpSizes();
    OuterIs(Hidden(lat, lon));
    var a, b := EncodeField(Fixed64Field(11, lat)), EncodeField(Fixed64Field(12, lon));
    hide EncodeField, Jump, EncodeVarint;
    SplitAt(JumpingBack(lat, lon), a, b, Jump(127), Jump(BACK_31));
  }

  /** Back to a new position, and decoding goes on there: these 33 bytes give a sample. */
  lemma JumpDecodes(lat: uint64, lon: uint64)
    ensures var t := ZERO.(lat := lat, lon := lon);
            |JumpingBack(lat, lon)| == 33 && Decode(JumpingBack(lat, lon), 0, ZERO, {}) == Sample(t, ValidFix(t))
  {
    hide *;
    JumpingParts(lat, lon);
    var data := JumpingBack(lat, lon);
    OuterSkips(data, Hidden(lat, lon), Jump(BACK_31));
    JumpsToTwo(data, {} + {0});
    HiddenDecodes(data, lat, lon, {} + {0} + {22}, Jump(BACK_31));
  }

  // ----- the frame ----------------------------------------------------------

  /** Where the run of 0x42 bytes that starts at `i` ends. */
  ghost function MagicEnd(nal: seq<byte>, i: nat): (e: nat)
    ensures e >= i
    decreases |nal| - i
  {
    if i < |nal| && nal[i] == 0x42 then MagicEnd(nal, i + 1) else i
  }

  ghost function ParseSei(nal: seq<byte>): SeiResult {
    var i := MagicEnd(nal, 3);
    if i <= 3 || i + 1 >= |nal| || nal[i] != 0x69 then REJECT else
    var payload := nal[i + 1..];
    var trimmed := if |payload| > 1 then payload[..|payload| - 1] else payload;
    Decode(Strip(trimmed, 0), 0, ZERO, {})
  }

  method ParseTeslaSEI(nal: seq<byte>) returns (r: SeiResult)
    ensures r == ParseSei(nal)
  {
    hide Decode, Strip;
    var i := 3;
    while i < |nal| && nal[i] == 0x42
      invariant 3 <= i && MagicEnd(nal, i) == MagicEnd(nal, 3)
    {
      i := i + 1;
    }
    if i <= 3 || i + 1 >= |nal| || nal[i] != 0x69 {
      return REJECT;
    }
    var payload := nal[i + 1..];
    if |payload| > 1 {
      payload := payload[..|payload| - 1];
    }
    var stripped := StripEmulationBytes(payload);
    r := DecodeSeiGPS(stripped);
  }

  ghost function Magic(k: nat): (s: seq<byte>)
    ensures |s| == k && forall i :: 0 <= i < k ==> s[i] == 0x42
  {
    seq(k, _ => 0x42)
  }

  /** A SEI NAL unit: three header bytes, 0x42 repeated, 0x69, the escaped message, a trailing byte. */
  ghost function Frame(header: seq<byte>, k: nat, body: seq<byte>, trailer: byte): seq<byte> {
    header + Magic(k) + [0x69] + Escape(body, 0) + [trailer]
  }

  lemma {:induction false} MagicEndIs(nal: seq<byte>, i: nat, e: nat)
    requires i <= e < |nal| && nal[e] != 0x42 && forall k :: i <= k < e ==> nal[k] == 0x42
    ensures MagicEnd(nal, i) == e
    decreases e - i
  {
    if i < e {
      MagicEndIs(nal, i + 1, e);
    }
  }

  /** Decoding inverts encoding: the parser returns, for every field, what the message set last. */
  lemma {:induction false} SeiRoundTrip(header: seq<byte>, k: nat, fs: seq<Field>, trailer: byte)
    requires |header| == 3 && k >= 1 && |EncodeMessage(fs)| < TWO_63 - TWO_32
    requires forall i :: 0 <= i < |fs| ==> GoodField(fs[i])
    ensures ParseSei(Frame(header, k, EncodeMessage(fs), trailer)) ==
            Sample(ApplyAll(ZERO, fs), ValidFix(ApplyAll(ZERO, fs)))
  {
    hide Decode, Strip, Escape, ValidFix, EncodeMessage, ApplyAll, GoodField;
    var body := EncodeMessage(fs);
    var nal := Frame(header, k, body, trailer);
    var e := 3 + k;
    assert forall i :: 3 <= i < e ==> nal[i] == Magic(k)[i - 3];
    assert nal[e] == 0x69;
    MagicEndIs(nal, 3, e);
    var payload := nal[e + 1..];
    assert payload == Escape(body, 0) + [trailer];
    if fs == [] {
      EmptyMessage(trailer);
      assert Escape(body, 0) == [] by { EmptyEscape(fs); }
      assert payload == [trailer];
    } else {
      assert |Escape(body, 0)| >= 1 by { EscapeGrows(body, 0); MessageNonEmpty(fs); }
      assert payload[..|payload| - 1] == Escape(body, 0);
      StripInvertsEscape(body, 0);
      assert body[0..] == body;
      assert body[0..] == body + [];
      DecodeMessage(body, 0, ZERO, {}, fs, []);
      OffTheEnds(body, |body|, ApplyAll(ZERO, fs), {} + Starts(fs, 0));
    }
  }

  lemma EmptyEscape(fs: seq<Field>)
    requires fs == []
    ensures Escape(EncodeMessage(fs), 0) == []
  {
  }

  lemma MessageNonEmpty(fs: seq<Field>)
    requires fs != []
    ensures |EncodeMessage(fs)| >= 1
  {
    hide EncodeVarint, Body;
  }

  lemma {:induction false} EscapeGrows(data: seq<byte>, zeros: nat)
    ensures |Escape(data, zeros)| >= |data|
  {
    if data != [] {
      EscapeGrows(data[1..], if zeros == 2 && data[0] <= 3 then (if data[0] == 0 then 1 else 0)
                             else if data[0] == 0 then zeros + 1 else 0);
    }
  }

  /** An empty message leaves only the trailing byte, which is then not trimmed but decodes to nothing. */
  lemma EmptyMessage(trailer: byte)
    ensures Decode(Strip([trailer], 0), 0, ZERO, {}) == Sample(ApplyAll(ZERO, []), ValidFix(ApplyAll(ZERO, [])))
  {
    assert Strip([trailer], 0) == [trailer];
    var data := [trailer];
    assert data[0..] == data;
    if trailer < 0x80 {
      assert ReadVarint(data).n == 1;
      assert data[1..] == [];
      assert ReadVarint(data[1..]).n == 0;
    }
  }

  /** What "set last" means, field by field. */
  ghost function Latest(fs: seq<Field>, wire: nat, num: nat, default: nat): nat {
    if fs == [] then default else
    var last := fs[|fs| - 1];
    if Wire(last) == wire && last.num == num
    then match last
         case VarintField(_, v) => v % 0x100
         case Fixed64Field(_, bits) => bits
         case BytesField(_, _) => 0
         case Fixed32Field(_, word) => word
    else Latest(fs[..|fs| - 1], wire, num, default)
  }

  lemma {:induction false} ApplyAllIsLatest(fs: seq<Field>)
    ensures var t := ApplyAll(ZERO, fs);
            && t.gear == Latest(fs, 0, 2, 0) && t.apState == Latest(fs, 0, 10, 0)
            && t.lat == Latest(fs, 1, 11, 0) && t.lon == Latest(fs, 1, 12, 0)
            && t.speed == Latest(fs, 5, 4, 0) && t.accel == Latest(fs, 5, 5, 0)
  {
    if fs != [] {
      var front, last := fs[..|fs| - 1], fs[|fs| - 1];
      assert fs == front + [last];
      ApplySnoc(ZERO, front, last);
      ApplyAllIsLatest(front);
    }
  }

  lemma {:induction false} ApplySnoc(t: Telemetry, fs: seq<Field>, f: Field)
    ensures ApplyAll(t, fs + [f]) == Apply(ApplyAll(t, fs), f)
    decreases |fs|
  {
    hide Apply;
    if fs == [] {
      assert (fs + [f])[1..] == [];
    } else {
      assert (fs + [f])[0] == fs[0] && (fs + [f])[1..] == fs[1..] + [f];
      ApplySnoc(Apply(t, fs[0]), fs[1..], f);
    }
  }
}
