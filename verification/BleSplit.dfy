/** How server/ble/sentryusb-ble.py cuts an API response into BLE notifications.
    Everything `json.dumps` produces is ASCII, so a message is as many bytes as characters. */
module BleSplit {

  // ----- json.dumps ---------------------------------------------------------

  function HexDigit(n: nat): char
    requires n < 16
  {
    if n < 10 then '0' + n as char else 'a' + (n - 10) as char
  }

  function UnicodeEscape(n: nat): (s: string)
    requires n < 0x1_0000
    ensures |s| == 6
  {
    ['\\', 'u', HexDigit(n / 0x1000), HexDigit(n / 0x100 % 16), HexDigit(n / 0x10 % 16), HexDigit(n % 16)]
  }

  /** One character of a JSON string, with everything outside printable ASCII escaped. */
  function EscapeChar(c: char): (s: string)
    ensures 1 <= |s| <= 12
  {
    var n := c as int;
    if c == '\"' || c == '\\' then ['\\', c]
    else if ' ' <= c <= '~' then [c]
    else if n == 8 then "\\b"
    else if n == 9 then "\\t"
    else if n == 10 then "\\n"
    else if n == 12 then "\\f"
    else if n == 13 then "\\r"
    else if n < 0x1_0000 then UnicodeEscape(n)
    else UnicodeEscape(0xd800 + (n - 0x1_0000) / 0x400) + UnicodeEscape(0xdc00 + (n - 0x1_0000) % 0x400)
  }

  function Escape(s: string): (e: string)
    ensures |e| >= |s|
  {
    if s == "" then "" else EscapeChar(s[0]) + Escape(s[1..])
  }

  function Decimal(n: nat): (s: string)
    ensures |s| >= 1
    ensures n < 10 ==> |s| == 1
  {
    if n < 10 then ['0' + n as char] else Decimal(n / 10) + ['0' + (n % 10) as char]
  }

  /** One chunk message; `id` is the request id as JSON text. */
  function Envelope(id: string, chunks: nat, chunk: nat, data: string): string {
    "{\"id\": " + id + ", \"chunks\": " + Decimal(chunks) + ", \"chunk\": " + Decimal(chunk)
    + ", \"data\": \"" + Escape(data) + "\"}"
  }

  /** The test the splitter makes: the message with zero indices fits. */
  predicate Fits(id: string, maxMsg: int, data: string) {
    |Envelope(id, 0, 0, data)| <= maxMsg
  }

  const FRAME: nat := |"{\"id\": "| + |", \"chunks\": "| + |", \"chunk\": "| + |", \"data\": \""| + |"\"}"|

  lemma EnvelopeLength(id: string, chunks: nat, chunk: nat, data: string)
    ensures |Envelope(id, chunks, chunk, data)| == FRAME + |id| + |Decimal(chunks)| + |Decimal(chunk)| + |Escape(data)|
  {
    hide Decimal, Escape;
  }

  lemma {:induction false} EscapeConcat(a: string, b: string)
    ensures Escape(a + b) == Escape(a) + Escape(b)
  {
    hide EscapeChar;
    if a == "" {
      assert a + b == b;
    } else {
      assert (a + b)[0] == a[0] && (a + b)[1..] == a[1..] + b;
      EscapeConcat(a[1..], b);
    }
  }

  /** A part of fitting data fits. */
  lemma FitsPart(id: string, maxMsg: int, a: string, b: string, c: string)
    requires Fits(id, maxMsg, a + b + c)
    ensures Fits(id, maxMsg, b)
  {
    hide Escape, Envelope, Decimal;
    EnvelopeLength(id, 0, 0, a + b + c);
    EnvelopeLength(id, 0, 0, b);
    EscapeConcat(a + b, c);
    EscapeConcat(a, b);
  }

  lemma FitsPrefix(id: string, maxMsg: int, s: string, m: nat, n: nat)
    requires m <= n <= |s| && Fits(id, maxMsg, s[..n])
    ensures Fits(id, maxMsg, s[..m])
  {
    hide Fits;
    assert [] + s[..m] + s[m..n] == s[..n];
    FitsPart(id, maxMsg, [], s[..m], s[m..n]);
  }

  // ----- the greedy split ---------------------------------------------------

  /** `p` is the longest prefix of `s` that fits, or its first character when not even that fits. */
  ghost predicate LongestPiece(id: string, maxMsg: int, s: string, p: string) {
    && 1 <= |p| <= |s| && p == s[..|p|]
    && (Fits(id, maxMsg, p) || |p| == 1)
    && forall m :: |p| < m <= |s| ==> !Fits(id, maxMsg, s[..m])
  }

  /** Taking the longest piece again and again cuts `s` into `chunks` and leaves `rest`. */
  ghost predicate Greedy(id: string, maxMsg: int, s: string, chunks: seq<string>, rest: string) {
    if chunks == [] then rest == s
    else LongestPiece(id, maxMsg, s, chunks[0]) && Greedy(id, maxMsg, s[|chunks[0]|..], chunks[1..], rest)
  }

  lemma {:induction false} GreedyAppend(id: string, maxMsg: int, s: string, chunks: seq<string>, rest: string,
        p: string)
    requires Greedy(id, maxMsg, s, chunks, rest) && LongestPiece(id, maxMsg, rest, p)
    ensures Greedy(id, maxMsg, s, chunks + [p], rest[|p|..])
  {
    hide Fits;
    if chunks == [] {
      assert Greedy(id, maxMsg, rest[|p|..], [], rest[|p|..]);
      assert ([p])[1..] == [];
    } else {
      assert (chunks + [p])[0] == chunks[0] && (chunks + [p])[1..] == chunks[1..] + [p];
      assert |chunks[0]| <= |s|;
      GreedyAppend(id, maxMsg, s[|chunks[0]|..], chunks[1..], rest, p);
    }
  }

  method Split(id: string, maxMsg: int, response: string) returns (chunks: seq<string>)
    ensures Greedy(id, maxMsg, response, chunks, "")
  {
    hide Envelope, Fits, Greedy;
    var remaining := response;
    chunks := [];
    GreedyNil(id, maxMsg, response);
    while remaining != ""
      invariant Greedy(id, maxMsg, response, chunks, remaining)
      decreases |remaining|
    {
      if Fits(id, maxMsg, remaining) {
        assert remaining[..|remaining|] == remaining;
        GreedyAppend(id, maxMsg, response, chunks, remaining, remaining);
        assert remaining[|remaining|..] == "";
        chunks := chunks + [remaining];
        break;
      }
      var piece := LongestByBisection(id, maxMsg, remaining);
      GreedyAppend(id, maxMsg, response, chunks, remaining, remaining[..piece]);
      chunks := chunks + [remaining[..piece]];
      remaining := remaining[piece..];
    }
    if remaining != "" {
      assert Greedy(id, maxMsg, response, chunks, "");
    }
  }

  lemma GreedyNil(id: string, maxMsg: int, s: string)
    ensures Greedy(id, maxMsg, s, [], s)
  {
  }

  /** The binary search for the length of the next piece. */
  method LongestByBisection(id: string, maxMsg: int, remaining: string) returns (lo: nat)
    requires remaining != "" && !Fits(id, maxMsg, remaining)
    ensures 1 <= lo <= |remaining| && LongestPiece(id, maxMsg, remaining, remaining[..lo])
  {
    hide Fits;
    lo := 1;
    var hi := |remaining|;
    assert remaining[..hi] == remaining;
    while lo < hi
      invariant 1 <= lo <= hi <= |remaining|
      invariant lo == 1 || Fits(id, maxMsg, remaining[..lo])
      invariant forall m :: hi < m <= |remaining| ==> !Fits(id, maxMsg, remaining[..m])
    {
      var mid := (lo + hi + 1) / 2;
      if Fits(id, maxMsg, remaining[..mid]) {
        lo := mid;
      } else {
        forall m | mid <= m <= |remaining|
          ensures !Fits(id, maxMsg, remaining[..m])
        {
          if Fits(id, maxMsg, remaining[..m]) {
            FitsPrefix(id, maxMsg, remaining, mid, m);
          }
        }
        hi := mid - 1;
      }
    }
  }

  // ----- lossless and optimal -----------------------------------------------

  ghost function Join(chunks: seq<string>): string {
    if chunks == [] then "" else chunks[0] + Join(chunks[1..])
  }

  ghost predicate AllFit(id: string, maxMsg: int, chunks: seq<string>) {
    forall k :: 0 <= k < |chunks| ==> Fits(id, maxMsg, chunks[k])
  }

  /** The pieces concatenate to the response, and all of them fit exactly when every single character does. */
  lemma {:induction false} SplitIsLossless(id: string, maxMsg: int, s: string, chunks: seq<string>)
    requires Greedy(id, maxMsg, s, chunks, "")
    ensures Join(chunks) == s
    ensures AllFit(id, maxMsg, chunks) <==> forall i :: 0 <= i < |s| ==> Fits(id, maxMsg, [s[i]])
  {
    hide Fits;
    if chunks != [] {
      var p, rest := chunks[0], s[|chunks[0]|..];
      SplitIsLossless(id, maxMsg, rest, chunks[1..]);
      assert s == p + rest;
      assert forall k :: 1 <= k < |chunks| ==> chunks[k] == chunks[1..][k - 1];
      assert forall i :: |p| <= i < |s| ==> s[i] == rest[i - |p|];
      forall i | 0 <= i < |p| && Fits(id, maxMsg, p)
        ensures Fits(id, maxMsg, [s[i]])
      {
        assert p[..i] + [s[i]] + p[i + 1..] == p;
        FitsPart(id, maxMsg, p[..i], [s[i]], p[i + 1..]);
      }
      if |p| == 1 {
        assert p == [s[0]];
      }
      assert AllFit(id, maxMsg, chunks) <==> Fits(id, maxMsg, p) && AllFit(id, maxMsg, chunks[1..]);
    }
  }

  /** No split of the response into fitting pieces has fewer pieces. */
  lemma {:induction false} SplitIsOptimal(id: string, maxMsg: int, s: string, chunks: seq<string>, other: seq<string>)
    requires Greedy(id, maxMsg, s, chunks, "")
    requires Join(other) == s && AllFit(id, maxMsg, other)
    ensures |chunks| <= |other|
  {
    hide *;
    assert "" + s == s;
    GreedyStaysAhead(id, maxMsg, "", s, chunks, other);
  }

  /** When the greedy cut has already consumed `u` more than its rival, it never needs more pieces. */
  lemma {:induction false} GreedyStaysAhead(id: string, maxMsg: int, u: string, s: string, chunks: seq<string>,
        other: seq<string>)
    requires Greedy(id, maxMsg, s, chunks, "")
    requires Join(other) == u + s && AllFit(id, maxMsg, other)
    ensures |chunks| <= |other|
    decreases |other|
  {
    hide Fits;
    if chunks != [] {
      assert s != "";
      assert other != [];
      var p, q := chunks[0], other[0];
      var rest := s[|p|..];
      assert u + s == q + Join(other[1..]);
      if |q| > |u| + |p| {
        var m := |q| - |u|;
        assert q == (u + s)[..|q|] == u + s[..m] + "";
        FitsPart(id, maxMsg, u, s[..m], "");
        assert false;
      }
      var u' := (u + p)[|q|..];
      assert Join(other[1..]) == (u + s)[|q|..] == (u + p + rest)[|q|..] == u' + rest;
      GreedyStaysAhead(id, maxMsg, u', rest, chunks[1..], other[1..]);
    }
  }

  // ----- what is actually sent ----------------------------------------------

  /** The notifications sent for a response, given the negotiated MTU. */
  method Respond(id: string, mtu: int, response: string) returns (messages: seq<string>, ghost chunks: seq<string>)
    ensures |response| <= mtu - 3 ==> messages == [response]
    ensures |response| > mtu - 3 ==>
              && Greedy(id, mtu - 3, response, chunks, "")
              && |messages| == |chunks|
              && forall k :: 0 <= k < |chunks| ==> messages[k] == Envelope(id, |chunks|, k, chunks[k])
  {
    hide Envelope, Greedy;
    var maxMsg := mtu - 3;
    if |response| <= maxMsg {
      messages, chunks := [response], [];
    } else {
      var pieces := Split(id, maxMsg, response);
      var total := |pieces|;
      messages, chunks := [], pieces;
      for idx := 0 to total
        invariant |messages| == idx
        invariant forall k :: 0 <= k < idx ==> messages[k] == Envelope(id, total, k, pieces[k])
      {
        messages := messages + [Envelope(id, total, idx, pieces[idx])];
      }
    }
  }

  lemma {:induction false} DecimalGrows(a: nat, b: nat)
    requires a <= b
    ensures |Decimal(a)| <= |Decimal(b)|
  {
    if 10 <= b && 10 <= a {
      DecimalGrows(a / 10, b / 10);
    }
  }

  /** The real indices replace the zeros of the test after the split: a message fits exactly when the
      test left room for their extra digits, and it overshoots by at most twice those of the total. */
  lemma SentMessageLength(id: string, maxMsg: int, chunks: seq<string>, k: nat)
    requires k < |chunks| && Fits(id, maxMsg, chunks[k])
    ensures var extra := |Decimal(|chunks|)| + |Decimal(k)| - 2;
            var sent := |Envelope(id, |chunks|, k, chunks[k])|;
            && sent == |Envelope(id, 0, 0, chunks[k])| + extra
            && sent <= maxMsg + 2 * (|Decimal(|chunks|)| - 1)
            && (|chunks| < 10 ==> sent <= maxMsg)
  {
    hide Envelope, Decimal;
    EnvelopeLength(id, |chunks|, k, chunks[k]);
    EnvelopeLength(id, 0, 0, chunks[k]);
    DecimalGrows(k, |chunks|);
  }

  // ----- when a message is too long -----------------------------------------

  lemma {:induction false} NextDoesNotFit(id: string, maxMsg: int, s: string, chunks: seq<string>, k: nat)
    requires Greedy(id, maxMsg, s, chunks, "") && k + 1 < |chunks|
    ensures chunks[k + 1] != "" && !Fits(id, maxMsg, chunks[k] + [chunks[k + 1][0]])
  {
    hide Fits;
    var p, rest := chunks[0], s[|chunks[0]|..];
    if k == 0 {
      assert LongestPiece(id, maxMsg, rest, chunks[1..][0]);
      assert s[..|p| + 1] == p + [chunks[1][0]];
    } else {
      NextDoesNotFit(id, maxMsg, rest, chunks[1..], k - 1);
    }
  }

  lemma EscapeSnoc(s: string, c: char)
    ensures |Escape(s + [c])| == |Escape(s)| + |EscapeChar(c)|
  {
    hide EscapeChar;
    EscapeConcat(s, [c]);
    assert ([c])[1..] == "";
  }

  /** What the test left free in a piece, and what the real indices add to it. */
  ghost function Room(id: string, maxMsg: int, p: string): int { maxMsg - |Envelope(id, 0, 0, p)| }

  function ExtraDigits(chunks: nat, chunk: nat): (n: nat) {
    assert |Decimal(chunks)| >= 1 && |Decimal(chunk)| >= 1;
    |Decimal(chunks)| + |Decimal(chunk)| - 2
  }

  /** A message is too long exactly when its piece has less room than the extra digits need; a piece that is not
      the last has less room than the next character takes, so from ten pieces on every piece before a character
      that needs no escape is sent too long. */
  lemma MessageOverflows(id: string, maxMsg: int, s: string, chunks: seq<string>, k: nat)
    requires Greedy(id, maxMsg, s, chunks, "") && k < |chunks|
    ensures |Envelope(id, |chunks|, k, chunks[k])| > maxMsg <==>
            Room(id, maxMsg, chunks[k]) < ExtraDigits(|chunks|, k)
    ensures k + 1 < |chunks| ==>
              chunks[k + 1] != "" && Room(id, maxMsg, chunks[k]) < |EscapeChar(chunks[k + 1][0])|
    ensures |chunks| >= 10 && k + 1 < |chunks| && Unescaped(chunks[k + 1][0]) ==>
              |Envelope(id, |chunks|, k, chunks[k])| > maxMsg
  {
    hide Envelope, Escape, EscapeChar, Greedy;
    var n := |chunks|;
    EnvelopeLength(id, n, k, chunks[k]);
    EnvelopeLength(id, 0, 0, chunks[k]);
    assert |Decimal(0)| == 1;
    if n >= 10 {
      DecimalGrows(10, n);
      assert |Decimal(10)| == 2;
    }
    hide Decimal;
    if k + 1 < n {
      NextDoesNotFit(id, maxMsg, s, chunks, k);
      var c := chunks[k + 1][0];
      EnvelopeLength(id, 0, 0, chunks[k] + [c]);
      EscapeSnoc(chunks[k], c);
    }
  }

  predicate Unescaped(c: char) { |EscapeChar(c)| == 1 }

  /** Every message of the response keeps the limit. */
  ghost predicate AllSent(id: string, maxMsg: int, chunks: seq<string>) {
    forall k :: 0 <= k < |chunks| ==> |Envelope(id, |chunks|, k, chunks[k])| <= maxMsg
  }

  lemma FewDigits(n: nat, k: nat)
    requires k < n < 10
    ensures ExtraDigits(n, k) == 0
  {
  }

  /** When a whole response keeps the limit: exactly when every piece has room for its digits.  Below ten pieces
      that is when every single character fits; from ten on, every piece but the first must start with a character
      that needs an escape. */
  lemma ResponseFits(id: string, maxMsg: int, s: string, chunks: seq<string>)
    requires Greedy(id, maxMsg, s, chunks, "")
    ensures AllSent(id, maxMsg, chunks) <==>
            forall k :: 0 <= k < |chunks| ==> Room(id, maxMsg, chunks[k]) >= ExtraDigits(|chunks|, k)
    ensures |chunks| < 10 ==>
              (AllSent(id, maxMsg, chunks) <==> forall i :: 0 <= i < |s| ==> Fits(id, maxMsg, [s[i]]))
    ensures |chunks| >= 10 && AllSent(id, maxMsg, chunks) ==>
              forall k :: 1 <= k < |chunks| ==> chunks[k] != "" && !Unescaped(chunks[k][0])
  {
    SplitIsLossless(id, maxMsg, s, chunks);
    forall k | 0 <= k < |chunks|
      ensures Fits(id, maxMsg, chunks[k]) <==> Room(id, maxMsg, chunks[k]) >= 0
    {
    }
    hide Envelope, Greedy, Unescaped, Fits, Room, ExtraDigits;
    forall k | 0 <= k < |chunks|
      ensures |Envelope(id, |chunks|, k, chunks[k])| <= maxMsg <==>
              Room(id, maxMsg, chunks[k]) >= ExtraDigits(|chunks|, k)
      ensures |chunks| < 10 ==> ExtraDigits(|chunks|, k) == 0
    {
      MessageOverflows(id, maxMsg, s, chunks, k);
      if |chunks| < 10 {
        FewDigits(|chunks|, k);
      }
    }
    if |chunks| >= 10 && AllSent(id, maxMsg, chunks) {
      forall k | 1 <= k < |chunks|
        ensures chunks[k] != "" && !Unescaped(chunks[k][0])
      {
        MessageOverflows(id, maxMsg, s, chunks, k - 1);
      }
    }
  }

  /** The most characters a fitting piece can have. */
  ghost function Capacity(id: string, maxMsg: int): int { maxMsg - |Envelope(id, 0, 0, "")| }

  lemma {:induction false} PieceLengths(id: string, maxMsg: int, s: string, chunks: seq<string>)
    requires Greedy(id, maxMsg, s, chunks, "") && Capacity(id, maxMsg) >= 1
    ensures forall k :: 0 <= k < |chunks| ==> |chunks[k]| <= Capacity(id, maxMsg)
  {
    hide Envelope, Escape, Decimal;
    if chunks != [] {
      var p, rest := chunks[0], s[|chunks[0]|..];
      EnvelopeLength(id, 0, 0, p);
      EnvelopeLength(id, 0, 0, "");
      EscapeNothing();
      assert |p| <= Capacity(id, maxMsg);
      PieceLengths(id, maxMsg, rest, chunks[1..]);
      assert forall k :: 1 <= k < |chunks| ==> chunks[k] == chunks[1..][k - 1];
    }
  }

  lemma EscapeNothing()
    ensures Escape("") == ""
  {
  }

  lemma {:induction false} PieceCount(chunks: seq<string>, c: nat)
    requires forall k :: 0 <= k < |chunks| ==> |chunks[k]| <= c
    ensures |Join(chunks)| <= |chunks| * c
  {
    if chunks != [] {
      PieceCount(chunks[1..], c);
      assert |chunks[1..]| * c + c == |chunks| * c;
    }
  }

  /** A run of the response as long as a piece can be holds the start of one. */
  lemma {:induction false} StartInRun(chunks: seq<string>, s: string, c: nat, lo: nat, hi: nat)
    returns (k: nat, i: nat)
    requires Join(chunks) == s && forall k :: 0 <= k < |chunks| ==> 1 <= |chunks[k]| <= c
    requires 1 <= lo && lo + c <= hi <= |s|
    ensures k + 1 < |chunks| && lo <= i < hi && chunks[k + 1][0] == s[i]
  {
    var p, rest := chunks[0], Join(chunks[1..]);
    assert s == p + rest;
    if lo <= |p| {
      k, i := 0, |p|;
      assert s[i] == rest[0] == chunks[1][0];
    } else {
      k, i := StartInRun(chunks[1..], rest, c, lo - |p|, hi - |p|);
      assert chunks[1..][k + 1] == chunks[k + 2] && s[i + |p|] == rest[i];
      k, i := k + 1, i + |p|;
    }
  }

  lemma {:induction false} PiecesNonEmpty(id: string, maxMsg: int, s: string, chunks: seq<string>)
    requires Greedy(id, maxMsg, s, chunks, "")
    ensures forall k :: 0 <= k < |chunks| ==> chunks[k] != ""
  {
    hide Fits;
    if chunks != [] {
      PiecesNonEmpty(id, maxMsg, s[|chunks[0]|..], chunks[1..]);
      assert forall k :: 1 <= k < |chunks| ==> chunks[k] == chunks[1..][k - 1];
    }
  }

  /** Any response longer than nine full pieces that has, after its start, a run of unescaped characters as long
      as a piece can be is sent with a message over the limit. */
  lemma {:induction false} LongResponseOverflows(id: string, maxMsg: int, s: string, chunks: seq<string>, lo: nat,
        hi: nat) returns (k: nat)
    requires Greedy(id, maxMsg, s, chunks, "")
    requires var c := Capacity(id, maxMsg); 1 <= c && |s| > 9 * c && 1 <= lo && lo + c <= hi <= |s|
    requires forall i :: lo <= i < hi ==> Unescaped(s[i])
    ensures k < |chunks| && |Envelope(id, |chunks|, k, chunks[k])| > maxMsg
  {
    hide Envelope, Greedy, Unescaped, Fits;
    var c := Capacity(id, maxMsg);
    hide Capacity;
    PieceLengths(id, maxMsg, s, chunks);
    PiecesNonEmpty(id, maxMsg, s, chunks);
    SplitIsLossless(id, maxMsg, s, chunks);
    PieceCount(chunks, c);
    TenPieces(|chunks|, c, |s|);
    var i;
    k, i := StartInRun(chunks, s, c, lo, hi);
    MessageOverflows(id, maxMsg, s, chunks, k);
  }

  lemma TenPieces(n: nat, c: nat, length: nat)
    requires 9 * c < length <= n * c
    ensures n >= 10
  {
    assert n <= 9 ==> n * c <= 9 * c;
  }

  // ----- a response that is sent too long ------------------------------------

  /** The response to an API request; `body` is JSON text. */
  function ResponseJson(id: string, status: nat, body: string): string {
    "{\"id\": " + id + ", \"status\": " + Decimal(status) + ", \"body\": " + body + "}"
  }

  const DEFAULT_MTU := 185

  /** With the default MTU, the answer to request 0 whose body is a string of two thousand letters. */
  lemma {:induction false} TextBodyOverflows(chunks: seq<string>) returns (k: nat)
    requires Greedy("0", DEFAULT_MTU - 3, ResponseJson("0", 200, TextBody()), chunks, "")
    ensures |ResponseJson("0", 200, TextBody())| > DEFAULT_MTU - 3
    ensures k < |chunks| && |Envelope("0", |chunks|, k, chunks[k])| > DEFAULT_MTU - 3
  {
    var head := "{\"id\": " + "0" + ", \"status\": " + Decimal(200) + ", \"body\": " + "\"";
    var text := seq(2000, _ => 'a');
    var s := ResponseJson("0", 200, TextBody());
    assert s == head + text + "\"}";
    DefaultCapacity();
    assert Unescaped('a');
    hide Greedy, ResponseJson, TextBody, Decimal, Envelope, Capacity, Unescaped;
    assert forall i :: |head| <= i < |head| + 2000 ==> s[i] == 'a';
    k := LongResponseOverflows("0", 182, s, chunks, |head|, |head| + 2000);
  }

  function TextBody(): string { "\"" + seq(2000, _ => 'a') + "\"" }

  lemma DefaultCapacity()
    ensures 1 <= Capacity("0", 182) <= 182
  {
    EnvelopeLength("0", 0, 0, "");
    EscapeNothing();
    assert |Decimal(0)| == 1;
    hide Envelope, Escape, Decimal;
  }
}
