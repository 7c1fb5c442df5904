/** A client of the BLE interface: it reads a message as a JSON object, field by field, and puts a response together
    from messages in any order.  What server/ble/sentryusb-ble.py sends (lines 936-971) is read back as it was. */
module BleReader {
  import opened DriveTypes
  import opened BleSplit

  // ----- JSON values --------------------------------------------------------

  /** How many characters of `s` belong to the value it starts with: all up to the first comma or closing bracket
      that is neither in a string nor in brackets of the value. */
  function Extent(s: string, depth: nat, quoted: bool): (n: nat)
    ensures n <= |s|
  {
    if s == "" then 0
    else if quoted && s[0] == '\\' then (if |s| == 1 then 1 else 2 + Extent(s[2..], depth, true))
    else if quoted then 1 + Extent(s[1..], depth, s[0] != '\"')
    else if s[0] == '\"' then 1 + Extent(s[1..], depth, true)
    else if s[0] == '{' || s[0] == '[' then 1 + Extent(s[1..], depth + 1, false)
    else if s[0] == '}' || s[0] == ']' then (if depth == 0 then 0 else 1 + Extent(s[1..], depth - 1, false))
    else if s[0] == ',' && depth == 0 then 0
    else 1 + Extent(s[1..], depth, false)
  }

  /** The text is one JSON value as far as its extent goes: what follows a comma after it does not matter. */
  predicate OneValue(s: string) { Extent(s + ",", 0, false) == |s| }

  /** The value of a decimal digit, and of a hexadecimal one. */
  function Digit(c: char): Option<nat> { if '0' <= c <= '9' then Some((c - '0') as nat) else None }

  function Hex(c: char): (h: Option<nat>)
    ensures h.Some? ==> h.value < 16
  {
    if '0' <= c <= '9' then Some((c - '0') as nat)
    else if 'a' <= c <= 'f' then Some((c - 'a') as nat + 10)
    else if 'A' <= c <= 'F' then Some((c - 'A') as nat + 10)
    else None
  }

  function Number(s: string): Option<nat> {
    if s == "" then None else
      var d, front := Digit(s[|s| - 1]), s[..|s| - 1];
      if d.None? then None
      else if front == "" then d
      else if Number(front).None? then None
      else Some(10 * Number(front).value + d.value)
  }

  /** Four hexadecimal digits after \u. */
  function Unit(s: string): (u: Option<nat>)
    ensures u.Some? ==> |s| >= 6 && u.value < 0x1_0000
  {
    if |s| < 6 || s[0] != '\\' || s[1] != 'u' then None else
      var a, b, c, d := Hex(s[2]), Hex(s[3]), Hex(s[4]), Hex(s[5]);
      if a.None? || b.None? || c.None? || d.None? then None
      else Some(0x1000 * a.value + 0x100 * b.value + 0x10 * c.value + d.value)
  }

  /** The character that an escape at the start of `s` stands for, and its length; a character beyond 0xffff takes a
      pair of surrogates. */
  function Unescaped1(s: string): (r: Option<(char, nat)>)
    ensures r.Some? ==> 1 <= r.value.1 <= |s|
  {
    if s == "" then None
    else if s[0] != '\\' then Some((s[0], 1))
    else if |s| == 1 then None
    else if s[1] == '\"' || s[1] == '\\' || s[1] == '/' then Some((s[1], 2))
    else if s[1] == 'b' then Some((8 as char, 2))
    else if s[1] == 't' then Some((9 as char, 2))
    else if s[1] == 'n' then Some((10 as char, 2))
    else if s[1] == 'f' then Some((12 as char, 2))
    else if s[1] == 'r' then Some((13 as char, 2))
    else
      var u := Unit(s);
      if u.None? then None
      else if !(0xd800 <= u.value < 0xe000) then Some((u.value as char, 6))
      else
        var v := Unit(s[6..]);
        if u.value < 0xdc00 && v.Some? && 0xdc00 <= v.value < 0xe000
        then Some(((0x1_0000 + (u.value - 0xd800) * 0x400 + (v.value - 0xdc00)) as char, 12)) else None
  }

  function Unescape(s: string): Option<string> {
    if s == "" then Some("") else
      var c := Unescaped1(s);
      if c.None? then None else
        var rest := Unescape(s[c.value.1..]);
        if rest.None? then None else Some([c.value.0] + rest.value)
  }

  function Text(s: string): Option<string> {
    if |s| < 2 || s[0] != '\"' || s[|s| - 1] != '\"' then None else Unescape(s[1..|s| - 1])
  }

  // ----- objects ------------------------------------------------------------

  datatype Field = Field(key: string, value: string)

  function UpToQuote(s: string): (k: string)
    ensures |k| <= |s|
  {
    if s == "" || s[0] == '\"' then "" else [s[0]] + UpToQuote(s[1..])
  }

  /** The fields of an object from one of its keys on. */
  function Fields(s: string): Option<seq<Field>>
    decreases |s|
  {
    if s == "" || s[0] != '\"' then None else
      var key := UpToQuote(s[1..]);
      var rest := s[1 + |key|..];
      if |rest| < 3 || rest[..3] != "\": " then None else
        var value := rest[3..3 + Extent(rest[3..], 0, false)];
        var after := rest[3 + |value|..];
        if after == "}" then Some([Field(key, value)])
        else if |after| < 2 || after[..2] != ", " then None else
          var more := Fields(after[2..]);
          if more.None? then None else Some([Field(key, value)] + more.value)
  }

  function Lookup(fields: seq<Field>, key: string): string {
    if fields == [] then "" else if fields[0].key == key then fields[0].value else Lookup(fields[1..], key)
  }

  datatype Message = Message(id: string, chunks: nat, chunk: nat, data: string)

  /** A message read as a JSON object, whatever the order of its fields. */
  function ReadMessage(m: string): Option<Message> {
    var fields := if m != "" && m[0] == '{' then Fields(m[1..]) else None;
    if fields.None? then None else
      var chunks, chunk := Number(Lookup(fields.value, "chunks")), Number(Lookup(fields.value, "chunk"));
      var data := Text(Lookup(fields.value, "data"));
      if chunks.None? || chunk.None? || data.None? then None
      else Some(Message(Lookup(fields.value, "id"), chunks.value, chunk.value, data.value))
  }

  // ----- numbers and strings come back --------------------------------------

  lemma {:induction false} NumberOfDecimal(n: nat)
    ensures Number(Decimal(n)) == Some(n)
  {
    var s := Decimal(n);
    DigitBack(n % 10);
    if n < 10 {
      assert s[..0] == "";
    } else {
      NumberOfDecimal(n / 10);
      assert s[..|s| - 1] == Decimal(n / 10);
    }
  }

  lemma DigitBack(d: nat)
    requires d < 10
    ensures Digit('0' + d as char) == Some(d)
  {
  }

  lemma HexBack(d: nat)
    requires d < 16
    ensures Hex(HexDigit(d)) == Some(d)
  {
  }

  lemma FourDigits(n: nat)
    requires n < 0x1_0000
    ensures n / 0x1000 < 16
    ensures n == 0x1000 * (n / 0x1000) + 0x100 * (n / 0x100 % 16) + 0x10 * (n / 0x10 % 16) + n % 16
  {
    var a, b, c := n / 0x10, n / 0x100, n / 0x1000;
    assert a / 16 == b && b / 16 == c;
    assert n == 0x10 * a + n % 16 && a == 0x10 * b + a % 16 && b == 0x10 * c + b % 16;
  }

  lemma UnitBack(n: nat, rest: string)
    requires n < 0x1_0000
    ensures Unit(UnicodeEscape(n) + rest) == Some(n)
  {
    hide HexDigit, Hex;
    FourDigits(n);
    var a, b, c, d := n / 0x1000, n / 0x100 % 16, n / 0x10 % 16, n % 16;
    HexBack(a);
    HexBack(b);
    HexBack(c);
    HexBack(d);
    UnitReads(HexDigit(a), HexDigit(b), HexDigit(c), HexDigit(d), rest);
  }

  lemma UnitReads(a: char, b: char, c: char, d: char, rest: string)
    requires Hex(a).Some? && Hex(b).Some? && Hex(c).Some? && Hex(d).Some?
    ensures Unit(['\\', 'u', a, b, c, d] + rest) ==
            Some(0x1000 * Hex(a).value + 0x100 * Hex(b).value + 0x10 * Hex(c).value + Hex(d).value)
  {
    hide Hex;
  }

  /** The escape of a character is read as the character. */
  lemma CharBack(c: char, rest: string)
    ensures Unescaped1(EscapeChar(c) + rest) == Some((c, |EscapeChar(c)|))
  {
    var n := c as int;
    hide Unit, UnicodeEscape;
    if n >= 0x1_0000 {
      var hi, lo := 0xd800 + (n - 0x1_0000) / 0x400, 0xdc00 + (n - 0x1_0000) % 0x400;
      var s := UnicodeEscape(hi) + UnicodeEscape(lo) + rest;
      assert s == UnicodeEscape(hi) + (UnicodeEscape(lo) + rest);
      UnitBack(hi, UnicodeEscape(lo) + rest);
      UnitBack(lo, rest);
      assert s[6..] == UnicodeEscape(lo) + rest;
      EscapeStarts(hi, UnicodeEscape(lo) + rest);
    } else if !(' ' <= c <= '~') && n !in {8, 9, 10, 12, 13} {
      UnitBack(n, rest);
      EscapeStarts(n, rest);
    }
  }

  lemma EscapeStarts(n: nat, rest: string)
    requires n < 0x1_0000
    ensures (UnicodeEscape(n) + rest)[0] == '\\' && (UnicodeEscape(n) + rest)[1] == 'u'
  {
  }

  lemma {:induction false} TextBack(s: string)
    ensures Unescape(Escape(s)) == Some(s)
  {
    if s != "" {
      TextBack(s[1..]);
      hide EscapeChar, Unescaped1;
      CharBack(s[0], Escape(s[1..]));
      assert (EscapeChar(s[0]) + Escape(s[1..]))[|EscapeChar(s[0])|..] == Escape(s[1..]);
      assert s == [s[0]] + s[1..];
    }
  }

  // ----- extents ------------------------------------------------------------

  /** The first character, and how the scan goes on. */
  lemma {:induction false} ExtentStep(c: char, s: string, depth: nat, quoted: bool)
    requires !(quoted && c == '\\')
    ensures Extent([c] + s, depth, quoted) ==
            if quoted then 1 + Extent(s, depth, c != '\"')
            else if c == '\"' then 1 + Extent(s, depth, true)
            else if c == '{' || c == '[' then 1 + Extent(s, depth + 1, false)
            else if c == '}' || c == ']' then (if depth == 0 then 0 else 1 + Extent(s, depth - 1, false))
            else if c == ',' && depth == 0 then 0
            else 1 + Extent(s, depth, false)
  {
    assert ([c] + s)[1..] == s;
  }

  lemma {:induction false} ExtentStops(a: string, t: string, depth: nat, quoted: bool)
    requires Extent(a + ",", depth, quoted) == |a|
    ensures Extent(a + ("," + t), depth, quoted) == |a|
  {
    hide Extent;
    if a == "" {
      CommaFirst(t, depth, quoted);
    } else if quoted && a[0] == '\\' {
      if |a| == 1 {
        LoneBackslash(a, depth);
      } else {
        var b := a[2..];
        assert a == ['\\', a[1]] + b;
        assert a + "," == ['\\', a[1]] + (b + ",") && a + ("," + t) == ['\\', a[1]] + (b + ("," + t));
        PairInside(a[1], b + ",", depth);
        PairInside(a[1], b + ("," + t), depth);
        ExtentStops(b, t, depth, true);
      }
    } else {
      var c, b := a[0], a[1..];
      assert a == [c] + b;
      assert a + "," == [c] + (b + ",") && a + ("," + t) == [c] + (b + ("," + t));
      ExtentStep(c, b + ",", depth, quoted);
      ExtentStep(c, b + ("," + t), depth, quoted);
      if quoted {
        ExtentStops(b, t, depth, c != '\"');
      } else if c == '\"' {
        ExtentStops(b, t, depth, true);
      } else if c == '{' || c == '[' {
        ExtentStops(b, t, depth + 1, false);
      } else if c == '}' || c == ']' {
        if depth > 0 {
          ExtentStops(b, t, depth - 1, false);
        }
      } else if c != ',' || depth > 0 {
        ExtentStops(b, t, depth, false);
      }
    }
  }

  lemma CommaFirst(t: string, depth: nat, quoted: bool)
    ensures Extent("" + ",", depth, quoted) == 0 ==> Extent("" + ("," + t), depth, quoted) == 0
  {
    assert "" + "," == "," && "" + ("," + t) == "," + t;
  }

  lemma LoneBackslash(a: string, depth: nat)
    requires a == "\\"
    ensures Extent(a + ",", depth, true) == 2
  {
    assert a + "," == ['\\', ','] + "";
    PairInside(',', "", depth);
  }

  predicate AllDigits(s: string) { forall i :: 0 <= i < |s| ==> '0' <= s[i] <= '9' }

  lemma {:induction false} DecimalDigits(n: nat)
    ensures AllDigits(Decimal(n))
  {
    if n >= 10 {
      DecimalDigits(n / 10);
    }
  }

  lemma {:induction false} ExtentOfDigits(s: string, t: string)
    requires AllDigits(s)
    ensures Extent(s + t, 0, false) == |s| + Extent(t, 0, false)
  {
    if s == "" {
      assert s + t == t;
    } else {
      assert (s + t)[1..] == s[1..] + t;
      ExtentOfDigits(s[1..], t);
    }
  }

  lemma PlainInside(c: char, t: string, depth: nat)
    requires c != '\"' && c != '\\'
    ensures Extent([c] + t, depth, true) == 1 + Extent(t, depth, true)
  {
    assert ([c] + t)[1..] == t;
  }

  lemma PairInside(c: char, t: string, depth: nat)
    ensures Extent(['\\', c] + t, depth, true) == 2 + Extent(t, depth, true)
  {
    assert (['\\', c] + t)[2..] == t;
  }

  lemma HexIsPlain(d: nat)
    requires d < 16
    ensures HexDigit(d) != '\"' && HexDigit(d) != '\\'
  {
  }

  lemma UnitInside(n: nat, t: string, depth: nat)
    requires n < 0x1_0000
    ensures Extent(UnicodeEscape(n) + t, depth, true) == 6 + Extent(t, depth, true)
  {
    var a, b, c, d := HexDigit(n / 0x1000), HexDigit(n / 0x100 % 16), HexDigit(n / 0x10 % 16), HexDigit(n % 16);
    HexIsPlain(n / 0x1000);
    HexIsPlain(n / 0x100 % 16);
    HexIsPlain(n / 0x10 % 16);
    HexIsPlain(n % 16);
    assert UnicodeEscape(n) + t == ['\\', 'u'] + ([a] + ([b] + ([c] + ([d] + t))));
    hide Extent, HexDigit, UnicodeEscape;
    PairInside('u', [a] + ([b] + ([c] + ([d] + t))), depth);
    PlainInside(a, [b] + ([c] + ([d] + t)), depth);
    PlainInside(b, [c] + ([d] + t), depth);
    PlainInside(c, [d] + t, depth);
    PlainInside(d, t, depth);
  }

  lemma CharInside(c: char, t: string, depth: nat)
    ensures Extent(EscapeChar(c) + t, depth, true) == |EscapeChar(c)| + Extent(t, depth, true)
  {
    var n := c as int;
    hide Extent, UnicodeEscape;
    if c == '\"' || c == '\\' {
      PairInside(c, t, depth);
    } else if ' ' <= c <= '~' {
      PlainInside(c, t, depth);
    } else if n == 8 {
      PairInside('b', t, depth);
    } else if n == 9 {
      PairInside('t', t, depth);
    } else if n == 10 {
      PairInside('n', t, depth);
    } else if n == 12 {
      PairInside('f', t, depth);
    } else if n == 13 {
      PairInside('r', t, depth);
    } else if n < 0x1_0000 {
      UnitInside(n, t, depth);
    } else {
      var hi, lo := 0xd800 + (n - 0x1_0000) / 0x400, 0xdc00 + (n - 0x1_0000) % 0x400;
      assert EscapeChar(c) + t == UnicodeEscape(hi) + (UnicodeEscape(lo) + t);
      UnitInside(hi, UnicodeEscape(lo) + t, depth);
      UnitInside(lo, t, depth);
    }
  }

  lemma {:induction false} TextInside(s: string, t: string, depth: nat)
    ensures Extent(Escape(s) + t, depth, true) == |Escape(s)| + Extent(t, depth, true)
  {
    hide Extent, EscapeChar;
    if s == "" {
      assert Escape(s) + t == t;
    } else {
      assert Escape(s) + t == EscapeChar(s[0]) + (Escape(s[1..]) + t);
      CharInside(s[0], Escape(s[1..]) + t, depth);
      TextInside(s[1..], t, depth);
    }
  }

  /** A JSON string value, up to what follows it. */
  function Quoted(s: string): string { "\"" + Escape(s) + "\"" }

  lemma ExtentOfText(s: string, t: string)
    ensures Extent(Quoted(s) + t, 0, false) == |Quoted(s)| + Extent(t, 0, false)
  {
    var inner := Escape(s) + ("\"" + t);
    assert Quoted(s) + t == "\"" + inner;
    assert ("\"" + inner)[1..] == inner;
    TextInside(s, "\"" + t, 0);
    assert ("\"" + t)[1..] == t;
    hide Escape;
  }

  /** Numbers and strings are such values, so requests may be named by either. */
  lemma IdsAreValues(n: nat, s: string)
    ensures OneValue(Decimal(n)) && OneValue(Quoted(s))
  {
    DecimalDigits(n);
    ExtentOfDigits(Decimal(n), ",");
    ExtentOfText(s, ",");
    hide Decimal, Quoted;
    assert Extent(",", 0, false) == 0;
  }

  // ----- messages come back -------------------------------------------------

  predicate PlainKey(key: string) { forall i :: 0 <= i < |key| ==> key[i] != '\"' }

  lemma {:induction false} KeyEnds(key: string, t: string)
    requires PlainKey(key)
    ensures UpToQuote(key + ("\"" + t)) == key
  {
    if key == "" {
      assert key + ("\"" + t) == "\"" + t;
    } else {
      assert (key + ("\"" + t))[1..] == key[1..] + ("\"" + t);
      KeyEnds(key[1..], t);
    }
  }

  /** One field in front of more. */
  function FieldText(key: string, value: string): string { "\"" + key + "\": " + value }

  lemma {:induction false} FieldSplits(key: string, value: string, t: string)
    requires PlainKey(key)
    ensures var s := FieldText(key, value) + t;
            && s != "" && s[0] == '\"' && UpToQuote(s[1..]) == key
            && |s| >= 4 + |key| && s[1 + |key|..][..3] == "\": " && s[1 + |key|..][3..] == value + t
  {
    var s := FieldText(key, value) + t;
    assert s[1..] == key + ("\"" + (": " + value + t));
    KeyEnds(key, ": " + value + t);
    assert s[1 + |key|..] == "\": " + (value + t);
  }

  lemma {:induction false} FieldsFrom(key: string, value: string, after: string)
    requires PlainKey(key) && Extent(value + after, 0, false) == |value|
    ensures Fields(FieldText(key, value) + after) ==
            if after == "}" then Some([Field(key, value)])
            else if |after| < 2 || after[..2] != ", " then None
            else if Fields(after[2..]).None? then None
            else Some([Field(key, value)] + Fields(after[2..]).value)
  {
    FieldSplits(key, value, after);
    var s := FieldText(key, value) + after;
    hide FieldText, UpToQuote, Extent, PlainKey;
    assert (value + after)[..|value|] == value && (value + after)[|value|..] == after;
    var rest := s[1 + |key|..];
    assert rest[3..3 + |value|] == rest[3..][..|value|];
    assert rest[3 + |value|..] == rest[3..][|value|..];
  }

  lemma {:induction false} FirstField(key: string, value: string, t: string)
    requires PlainKey(key) && Extent(value + (", " + t), 0, false) == |value|
    ensures Fields(FieldText(key, value) + (", " + t)) ==
            if Fields(t).None? then None else Some([Field(key, value)] + Fields(t).value)
  {
    hide *;
    FieldsFrom(key, value, ", " + t);
    assert (", " + t)[..2] == ", " && (", " + t)[2..] == t;
  }

  lemma {:induction false} LastField(key: string, value: string)
    requires PlainKey(key) && Extent(value + "}", 0, false) == |value|
    ensures Fields(FieldText(key, value) + "}") == Some([Field(key, value)])
  {
    hide *;
    FieldsFrom(key, value, "}");
  }

  /** A message is the text of its four fields in braces. */
  lemma EnvelopeIs(id: string, chunks: nat, chunk: nat, data: string)
    ensures Envelope(id, chunks, chunk, data) ==
            "{" + (FieldText("id", id) + (", " + (FieldText("chunks", Decimal(chunks)) +
            (", " + (FieldText("chunk", Decimal(chunk)) + (", " + (FieldText("data", Quoted(data)) + "}")))))))
  {
    hide Decimal, Escape;
    var a, b, c, d := Decimal(chunks), Decimal(chunk), Escape(data), Quoted(data);
    assert "{\"id\": " == "{" + ("\"" + "id" + "\": ");
    assert ", \"chunks\": " == ", " + ("\"" + "chunks" + "\": ");
    assert ", \"chunk\": " == ", " + ("\"" + "chunk" + "\": ");
    assert ", \"data\": \"" == ", " + ("\"" + "data" + "\": ") + "\"";
    assert "\"}" == "\"" + "}";
    Associate("{", "\"" + "id" + "\": ", id, ", ", "\"" + "chunks" + "\": ", a, "\"" + "chunk" + "\": ", b,
              "\"" + "data" + "\": ", "\"", c, "}");
  }

  lemma Associate(o: string, k1: string, v1: string, sep: string, k2: string, v2: string, k3: string, v3: string,
        k4: string, quote: string, v4: string, close: string)
    ensures (o + k1) + v1 + (sep + k2) + v2 + (sep + k3) + v3 + (sep + k4 + quote) + v4 + (quote + close) ==
            o + ((k1 + v1) + (sep + ((k2 + v2) +
            (sep + ((k3 + v3) + (sep + ((k4 + (quote + v4 + quote)) + close)))))))
  {
  }

  /** The fields of a message. */
  lemma {:induction false} MessageFields(id: string, chunks: nat, chunk: nat, data: string)
    requires OneValue(id)
    ensures var m := Envelope(id, chunks, chunk, data);
            && m != "" && m[0] == '{'
            && Fields(m[1..]) == Some([Field("id", id)] + ([Field("chunks", Decimal(chunks))]
                                       + ([Field("chunk", Decimal(chunk))] + [Field("data", Quoted(data))])))
  {
    var last := FieldText("data", Quoted(data)) + "}";
    var third := FieldText("chunk", Decimal(chunk)) + (", " + last);
    var second := FieldText("chunks", Decimal(chunks)) + (", " + third);
    var first := FieldText("id", id) + (", " + second);
    hide *;
    PlainKeys();
    EnvelopeIs(id, chunks, chunk, data);
    Opens(first);
    DataField(data);
    NumberField("chunk", chunk, last);
    NumberField("chunks", chunks, third);
    IdField(id, second);
  }

  lemma PlainKeys()
    ensures PlainKey("id") && PlainKey("chunks") && PlainKey("chunk") && PlainKey("data")
  {
  }

  lemma Opens(s: string)
    ensures "{" + s != "" && ("{" + s)[0] == '{' && ("{" + s)[1..] == s
  {
  }

  lemma {:induction false} IdField(id: string, t: string)
    requires OneValue(id) && PlainKey("id")
    ensures Fields(FieldText("id", id) + (", " + t)) ==
            if Fields(t).None? then None else Some([Field("id", id)] + Fields(t).value)
  {
    hide Extent, PlainKey, FieldText, Fields;
    ExtentStops(id, " " + t, 0, false);
    assert "," + (" " + t) == ", " + t;
    FirstField("id", id, t);
  }

  lemma {:induction false} DataField(data: string)
    requires PlainKey("data")
    ensures Fields(FieldText("data", Quoted(data)) + "}") == Some([Field("data", Quoted(data))])
  {
    assert Extent("}", 0, false) == 0;
    hide *;
    ExtentOfText(data, "}");
    LastField("data", Quoted(data));
  }

  lemma {:induction false} NumberField(key: string, n: nat, t: string)
    requires PlainKey(key)
    ensures Fields(FieldText(key, Decimal(n)) + (", " + t)) ==
            if Fields(t).None? then None else Some([Field(key, Decimal(n))] + Fields(t).value)
  {
    hide *;
    DecimalDigits(n);
    ExtentOfDigits(Decimal(n), ", " + t);
    CommaStops(t);
    FirstField(key, Decimal(n), t);
  }

  lemma CommaStops(t: string)
    ensures Extent(", " + t, 0, false) == 0
  {
  }

  /** A message is read as what it was made of. */
  lemma {:induction false} MessageReads(id: string, chunks: nat, chunk: nat, data: string)
    requires OneValue(id)
    ensures ReadMessage(Envelope(id, chunks, chunk, data)) == Some(Message(id, chunks, chunk, data))
  {
    hide Fields, Number, Decimal, Text, Quoted, Envelope, Lookup, OneValue;
    MessageFields(id, chunks, chunk, data);
    NumberOfDecimal(chunks);
    NumberOfDecimal(chunk);
    TextOfQuoted(data);
    LookupFour(id, Decimal(chunks), Decimal(chunk), Quoted(data));
  }

  lemma TextOfQuoted(data: string)
    ensures Text(Quoted(data)) == Some(data)
  {
    hide Escape, Unescape;
    TextBack(data);
    assert Quoted(data)[1..|Quoted(data)| - 1] == Escape(data);
  }

  lemma LookupHere(key: string, value: string, rest: seq<Field>)
    ensures Lookup([Field(key, value)] + rest, key) == value && Lookup([Field(key, value)], key) == value
  {
  }

  lemma LookupThere(key: string, value: string, rest: seq<Field>, wanted: string)
    requires key != wanted
    ensures Lookup([Field(key, value)] + rest, wanted) == Lookup(rest, wanted)
  {
    assert ([Field(key, value)] + rest)[1..] == rest;
  }

  lemma LookupFour(id: string, chunks: string, chunk: string, data: string)
    ensures var fs := [Field("id", id)] + ([Field("chunks", chunks)]
                      + ([Field("chunk", chunk)] + [Field("data", data)]));
            Lookup(fs, "id") == id && Lookup(fs, "chunks") == chunks && Lookup(fs, "chunk") == chunk
            && Lookup(fs, "data") == data
  {
    var c, b, a := [Field("data", data)], [Field("chunk", chunk)] + [Field("data", data)],
                   [Field("chunks", chunks)] + ([Field("chunk", chunk)] + [Field("data", data)]);
    assert |"id"| == 2 && |"chunks"| == 6 && |"chunk"| == 5 && |"data"| == 4;
    hide Lookup;
    LookupHere("id", id, a);
    LookupThere("id", id, a, "chunks");
    LookupHere("chunks", chunks, b);
    LookupThere("id", id, a, "chunk");
    LookupThere("chunks", chunks, b, "chunk");
    LookupHere("chunk", chunk, c);
    LookupThere("id", id, a, "data");
    LookupThere("chunks", chunks, b, "data");
    LookupThere("chunk", chunk, c, "data");
    LookupHere("data", data, []);
  }

  // ----- responses come back ------------------------------------------------

  /** The data of the first received message of request `id` with index `k`. */
  function DataOf(received: seq<string>, id: string, k: nat): string {
    if received == [] then "" else
      var m := ReadMessage(received[0]);
      if m.Some? && m.value.id == id && m.value.chunk == k then m.value.data else DataOf(received[1..], id, k)
  }

  /** The data from index `k` on, up to the number of messages that each of them names. */
  function Assemble(received: seq<string>, id: string, k: nat, total: nat): string
    requires k <= total
    decreases total - k
  {
    if k == total then "" else DataOf(received, id, k) + Assemble(received, id, k + 1, total)
  }

  /** What a client needs of the messages it has received: all of this response have come, in any order, some perhaps
      more than once, and no other of the same request. */
  ghost predicate Complete(received: seq<string>, id: string, chunks: seq<string>) {
    && (forall k :: 0 <= k < |chunks| ==> Envelope(id, |chunks|, k, chunks[k]) in received)
    && (forall i :: 0 <= i < |received| && ReadMessage(received[i]).Some?
                    && ReadMessage(received[i]).value.id == id ==>
                      exists k :: 0 <= k < |chunks| && received[i] == Envelope(id, |chunks|, k, chunks[k]))
  }

  lemma {:induction false} DataIs(received: seq<string>, id: string, chunks: seq<string>, k: nat)
    requires OneValue(id) && k < |chunks| && Envelope(id, |chunks|, k, chunks[k]) in received
    requires forall i :: 0 <= i < |received| && ReadMessage(received[i]).Some?
                         && ReadMessage(received[i]).value.id == id ==>
                           exists k :: 0 <= k < |chunks| && received[i] == Envelope(id, |chunks|, k, chunks[k])
    ensures DataOf(received, id, k) == chunks[k]
  {
    hide ReadMessage, Envelope, OneValue;
    var m := ReadMessage(received[0]);
    if m.Some? && m.value.id == id {
      var j :| 0 <= j < |chunks| && received[0] == Envelope(id, |chunks|, j, chunks[j]);
      MessageReads(id, |chunks|, j, chunks[j]);
    }
    MessageReads(id, |chunks|, k, chunks[k]);
    if received[0] != Envelope(id, |chunks|, k, chunks[k]) {
      assert Envelope(id, |chunks|, k, chunks[k]) in received[1..];
      DataIs(received[1..], id, chunks, k);
    }
  }

  lemma {:induction false} Assembled(received: seq<string>, id: string, chunks: seq<string>, k: nat)
    requires OneValue(id) && k <= |chunks| && Complete(received, id, chunks)
    ensures Assemble(received, id, k, |chunks|) == Join(chunks[k..])
    decreases |chunks| - k
  {
    hide DataOf, OneValue, ReadMessage, Envelope;
    if k < |chunks| {
      DataIs(received, id, chunks, k);
      Assembled(received, id, chunks, k + 1);
      assert chunks[k..][1..] == chunks[k + 1..];
    }
  }

  /** The messages sent for a long response are read as numbered pieces, and from all of them, in whatever order they
      come, the client has the response back. */
  lemma {:induction false} ResponseComesBack(id: string, mtu: int, response: string, chunks: seq<string>,
        messages: seq<string>, received: seq<string>)
    requires OneValue(id) && Greedy(id, mtu - 3, response, chunks, "")
    requires |messages| == |chunks|
    requires forall k :: 0 <= k < |chunks| ==> messages[k] == Envelope(id, |chunks|, k, chunks[k])
    ensures forall k :: 0 <= k < |messages| ==>
              ReadMessage(messages[k]) == Some(Message(id, |messages|, k, chunks[k]))
    ensures Complete(received, id, chunks) ==> Assemble(received, id, 0, |messages|) == response
  {
    SplitIsLossless(id, mtu - 3, response, chunks);
    hide OneValue, Greedy, ReadMessage, Envelope, Assemble, Complete;
    forall k | 0 <= k < |messages|
      ensures ReadMessage(messages[k]) == Some(Message(id, |messages|, k, chunks[k]))
    {
      MessageReads(id, |chunks|, k, chunks[k]);
    }
    if Complete(received, id, chunks) {
      Assembled(received, id, chunks, 0);
      assert chunks[0..] == chunks;
    }
  }
}
