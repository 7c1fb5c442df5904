/** The shell-style settings file: reading and rewriting it (server/config/parser.go).
    Strings are code points; the two regular expressions are written out as functions. */
module Config {
  import opened DriveTypes

  // ----- characters ---------------------------------------------------------

  /** \s in the regular expressions. */
  predicate RegexSpace(c: char) { c == ' ' || c == '\t' || c == '\n' || c == '\r' || c == 12 as char }

  /** unicode.IsSpace, for strings.TrimSpace. */
  predicate IsSpace(c: char) {
    var n := c as int;
    9 <= n <= 13 || n == 0x20 || n == 0x85 || n == 0xA0 || n == 0x1680 || 0x2000 <= n <= 0x200A
    || n == 0x2028 || n == 0x2029 || n == 0x202F || n == 0x205F || n == 0x3000
  }

  predicate KeyStart(c: char) { 'A' <= c <= 'Z' || 'a' <= c <= 'z' || c == '_' }
  predicate KeyChar(c: char) { KeyStart(c) || '0' <= c <= '9' }

  predicate ValidKey(key: string) {
    key != "" && KeyStart(key[0]) && forall i :: 0 <= i < |key| ==> KeyChar(key[i])
  }

  // ----- the two line patterns ----------------------------------------------

  function SkipSpace(s: string): (r: string)
    ensures r != "" ==> !RegexSpace(r[0])
    ensures s != "" && !RegexSpace(s[0]) ==> r == s
  {
    if s == "" || !RegexSpace(s[0]) then s else SkipSpace(s[1..])
  }

  /** The length of the longest run of key characters. */
  function KeyRun(s: string): (n: nat)
    ensures n <= |s| && (n < |s| ==> !KeyChar(s[n])) && forall i :: 0 <= i < n ==> KeyChar(s[i])
  {
    if s == "" || !KeyChar(s[0]) then 0 else 1 + KeyRun(s[1..])
  }

  const EXPORT := "export"

  /** ^\s*export\s+([A-Za-z_][A-Za-z0-9_]*)=(.*)$ */
  function ExportMatch(line: string): (m: Option<(string, string)>)
    ensures m.Some? ==> ValidKey(m.value.0)
  {
    var a := SkipSpace(line);
    if |a| <= 6 || a[..6] != EXPORT || !RegexSpace(a[6]) then None else Assignment(SkipSpace(a[6..]))
  }

  function Assignment(c: string): (m: Option<(string, string)>)
    ensures m.Some? ==> ValidKey(m.value.0)
  {
    var n := KeyRun(c);
    if n == 0 || !KeyStart(c[0]) || n == |c| || c[n] != '=' then None else Some((c[..n], c[n + 1..]))
  }

  /** The same after ^\s*# */
  function CommentedMatch(line: string): (m: Option<(string, string)>)
    ensures m.Some? ==> ValidKey(m.value.0)
  {
    var a := SkipSpace(line);
    if a == "" || a[0] != '#' then None else ExportMatch(a[1..])
  }

  datatype Kind = Active(key: string, raw: string) | Commented(key: string, raw: string) | Plain

  function Classify(line: string): Kind {
    if ExportMatch(line).Some? then Active(ExportMatch(line).value.0, ExportMatch(line).value.1)
    else if CommentedMatch(line).Some? then Commented(CommentedMatch(line).value.0, CommentedMatch(line).value.1)
    else Plain
  }

  // ----- values -------------------------------------------------------------

  function TrimLeft(s: string): (r: string)
    ensures s != "" && !IsSpace(s[0]) ==> r == s
  {
    if s != "" && IsSpace(s[0]) then TrimLeft(s[1..]) else s
  }

  function TrimRight(s: string): (r: string)
    ensures s != "" && !IsSpace(s[|s| - 1]) ==> r == s
    ensures r != "" ==> !IsSpace(r[|r| - 1])
    ensures |r| <= |s|
  {
    if s != "" && IsSpace(s[|s| - 1]) then TrimRight(s[..|s| - 1]) else s
  }

  function Trim(s: string): string { TrimRight(TrimLeft(s)) }

  predicate Quoted(s: string, q: char) { |s| >= 2 && s[0] == q && s[|s| - 1] == q }

  predicate DollarQuoted(s: string) { |s| >= 2 && s[0] == '$' && s[1] == '\'' && s[|s| - 1] == '\'' }

  /** Cuts at the first # after a blank. */
  function StripComment(s: string, i: nat): string
    requires i >= 1
    decreases |s| - i
  {
    if i >= |s| then s
    else if s[i] == '#' && (s[i - 1] == ' ' || s[i - 1] == '\t') then Trim(s[..i - 1])
    else StripComment(s, i + 1)
  }

  /** None when the value is the two characters $' : slicing then panics. */
  function Unquoted(raw: string): Option<string> {
    var s := Trim(raw);
    if Quoted(s, '\'') || Quoted(s, '"') then Some(s[1..|s| - 1])
    else if DollarQuoted(s) then (if |s| == 2 then None else Some(s[2..|s| - 1]))
    else Some(StripComment(s, 1))
  }

  method Unquote(raw: string) returns (r: Option<string>)
    ensures r == Unquoted(raw)
  {
    hide IsSpace;
    var s := Trim(raw);
    if |s| >= 2 {
      if (s[0] == '\'' && s[|s| - 1] == '\'') || (s[0] == '"' && s[|s| - 1] == '"') {
        return Some(s[1..|s| - 1]);
      }
    }
    if DollarQuoted(s) {
      return if |s| == 2 then None else Some(s[2..|s| - 1]);
    }
    var i := 1;
    while i < |s|
      invariant 1 <= i && StripComment(s, i) == StripComment(s, 1)
    {
      if s[i] == '#' && (s[i - 1] == ' ' || s[i - 1] == '\t') {
        return Some(Trim(s[..i - 1]));
      }
      i := i + 1;
    }
    return Some(s);
  }

  /** The characters that make quote wrap a value. */
  predicate SpecialChar(c: char) {
    || c in {' ', '\t', '\'', '"', '\\', '$', '!', '#', '&', '|', ';'}
    || c in {'(', ')', '{', '}', '[', ']', '<', '>', '?', '*', '~', '`'}
  }

  predicate Special(v: string) {
    exists i :: 0 <= i < |v| && SpecialChar(v[i])
  }

  /** Every single quote becomes '\'' . */
  function EscapeQuotes(v: string): (e: string)
    ensures |e| >= |v|
    ensures '\'' !in v ==> e == v
    ensures '\'' in v ==> |e| > |v|
  {
    if v == "" then "" else
      var head, rest := v[0], v[1..];
      assert v == [head] + rest;
      (if head == '\'' then "'\\''" else [head]) + EscapeQuotes(rest)
  }

  function Quote(v: string): string {
    if v == "" then "''" else if Special(v) then "'" + EscapeQuotes(v) + "'" else v
  }

  /** What a value must be to survive: no single quote, and blanks at its ends only if it is quoted anyway. */
  predicate Writable(v: string) {
    '\'' !in v && (Special(v) || Trim(v) == v)
  }

  lemma QuoteIsNotSpace()
    ensures !IsSpace('\'') && SpecialChar('\'') && SpecialChar('"') && SpecialChar('$') && SpecialChar('#')
  {
  }

  lemma WrappedUnquotes(e: string)
    ensures Unquoted("'" + e + "'") == Some(e)
  {
    QuoteIsNotSpace();
    hide IsSpace, StripComment;
    var q := "'" + e + "'";
    assert q[0] == '\'' && q[|q| - 1] == '\'';
    assert Trim(q) == q;
    assert q[1..|q| - 1] == e;
  }

  lemma {:induction false} NothingToStrip(s: string, i: nat)
    requires i >= 1 && forall k :: 0 <= k < |s| ==> s[k] != '#'
    ensures StripComment(s, i) == s
    decreases |s| - i
  {
    if i < |s| {
      NothingToStrip(s, i + 1);
    }
  }

  lemma {:induction false} TrimLeftPart(s: string)
    ensures |TrimLeft(s)| <= |s| && s[|s| - |TrimLeft(s)|..] == TrimLeft(s)
  {
    hide IsSpace;
    if s != "" && IsSpace(s[0]) {
      TrimLeftPart(s[1..]);
    }
  }

  lemma {:induction false} TrimRightPart(s: string)
    ensures |TrimRight(s)| <= |s| && s[..|TrimRight(s)|] == TrimRight(s)
  {
    hide IsSpace;
    if s != "" && IsSpace(s[|s| - 1]) {
      TrimRightPart(s[..|s| - 1]);
    }
  }

  lemma PlainUnquotes(v: string)
    requires !Special(v)
    ensures Unquoted(v) == Some(Trim(v))
  {
    QuoteIsNotSpace();
    hide IsSpace, SpecialChar;
    TrimLeftPart(v);
    TrimRightPart(TrimLeft(v));
    var s := Trim(v);
    forall k | 0 <= k < |s|
      ensures !SpecialChar(s[k])
    {
      assert s[k] == TrimLeft(v)[k] == v[|v| - |TrimLeft(v)| + k];
    }
    NothingToStrip(s, 1);
  }

  /** Reading a written value gives it back exactly when it is writable. */
  lemma QuoteRoundTrip(v: string)
    ensures Unquoted(Quote(v)).Some?
    ensures Unquoted(Quote(v)) == Some(v) <==> Writable(v)
  {
    hide IsSpace, StripComment, SpecialChar, Unquoted, Trim;
    if v == "" {
      WrappedUnquotes("");
      EmptyIsWritable();
    } else if Special(v) {
      WrappedUnquotes(EscapeQuotes(v));
    } else {
      PlainUnquotes(v);
      PlainHasNoQuote(v);
    }
  }

  lemma EmptyIsWritable()
    ensures Writable("") && "'" + "" + "'" == "''"
  {
  }

  lemma PlainHasNoQuote(v: string)
    requires !Special(v)
    ensures '\'' !in v
  {
    QuoteIsNotSpace();
  }

  /** A value that has a single quote is read back with the escape left in. */
  lemma EscapeIsNotUndone()
    ensures Quote("a'b") == "'a'\\''b'" && Unquoted(Quote("a'b")) == Some("a'\\''b")
  {
    QuoteIsNotSpace();
    assert "a'b"[1] == '\'';
    hide SpecialChar, IsSpace;
    assert Special("a'b");
    var v := "a'b";
    assert v[1..] == "'b" && v[1..][1..] == "b" && v[1..][1..][1..] == "";
    assert EscapeQuotes("b") == "b";
    assert EscapeQuotes("'b") == "'\\''b";
    assert EscapeQuotes(v) == "a'\\''b";
    WrappedUnquotes("a'\\''b");
  }

  // ----- reading ------------------------------------------------------------

  type Settings = map<string, string>

  predicate GoodLine(line: string) {
    Classify(line).Plain? || Unquoted(Classify(line).raw).Some?
  }

  ghost predicate Readable(lines: seq<string>) {
    forall i :: 0 <= i < |lines| ==> GoodLine(lines[i])
  }

  /** The last value of each active variable. */
  ghost function ActiveOf(lines: seq<string>): Settings
    requires Readable(lines)
  {
    if lines == [] then map[] else
      var front, last := lines[..|lines| - 1], lines[|lines| - 1];
      assert GoodLine(last);
      match Classify(last)
      case Active(key, raw) => ActiveOf(front)[key := Unquoted(raw).value]
      case _ => ActiveOf(front)
  }

  ghost function CommentedOf(lines: seq<string>): Settings
    requires Readable(lines)
  {
    if lines == [] then map[] else
      var front, last := lines[..|lines| - 1], lines[|lines| - 1];
      assert GoodLine(last);
      match Classify(last)
      case Commented(key, raw) => CommentedOf(front)[key := Unquoted(raw).value]
      case _ => CommentedOf(front)
  }

  /** What reading gives: nothing when a value panics. */
  ghost function Parsed(lines: seq<string>): Option<(Settings, Settings)> {
    if Readable(lines) then Some((ActiveOf(lines), CommentedOf(lines))) else None
  }

  /** ParseFile on the scanned lines; not ok when a value panics. */
  method ParseLines(lines: seq<string>) returns (active: Settings, commented: Settings, ok: bool)
    ensures ok == Parsed(lines).Some?
    ensures ok ==> Parsed(lines) == Some((active, commented))
  {
    hide Classify, Unquoted;
    active, commented := map[], map[];
    for k := 0 to |lines|
      invariant Readable(lines[..k]) && active == ActiveOf(lines[..k]) && commented == CommentedOf(lines[..k])
    {
      assert lines[..k + 1][..k] == lines[..k];
      match Classify(lines[k]) {
        case Active(key, raw) =>
          var v := Unquote(raw);
          if v.None? {
            assert !GoodLine(lines[k]);
            return active, commented, false;
          }
          active := active[key := v.value];
        case Commented(key, raw) =>
          var v := Unquote(raw);
          if v.None? {
            assert !GoodLine(lines[k]);
            return active, commented, false;
          }
          commented := commented[key := v.value];
        case Plain =>
      }
    }
    assert lines[..|lines|] == lines;
    ok := true;
  }

  // ----- writing ------------------------------------------------------------

  function Assign(key: string, v: string): string {
    "export " + key + "=" + Quote(v)
  }

  function RewriteLine(line: string, cfg: Settings): string {
    match Classify(line)
    case Active(key, _) => if key in cfg then Assign(key, cfg[key]) else "#" + line
    case Commented(key, _) => if key in cfg then Assign(key, cfg[key]) else line
    case Plain => line
  }

  ghost function RewriteAll(lines: seq<string>, cfg: Settings): (r: seq<string>)
    ensures |r| == |lines| && forall i :: 0 <= i < |lines| ==> r[i] == RewriteLine(lines[i], cfg)
  {
    seq(|lines|, i requires 0 <= i < |lines| => RewriteLine(lines[i], cfg))
  }

  ghost function Seen(lines: seq<string>): set<string> {
    set i | 0 <= i < |lines| && !Classify(lines[i]).Plain? :: Classify(lines[i]).key
  }

  /** The keys in the order the map iteration yields them. */
  ghost predicate KeyOrder(order: seq<string>, cfg: Settings) {
    (forall k :: k in order <==> k in cfg) && forall i, j :: 0 <= i < j < |order| ==> order[i] != order[j]
  }

  ghost function NewLines(cfg: Settings, seen: set<string>, order: seq<string>): seq<string>
    requires forall k :: k in order ==> k in cfg
  {
    if order == [] then [] else
      var key := order[|order| - 1];
      assert key in order;
      var front := NewLines(cfg, seen, order[..|order| - 1]);
      if key in seen then front else front + [Assign(key, cfg[key])]
  }

  ghost function Written(lines: seq<string>, cfg: Settings, order: seq<string>): seq<string>
    requires forall k :: k in order ==> k in cfg
  {
    RewriteAll(lines, cfg) + NewLines(cfg, Seen(lines), order)
  }

  /** WriteFile on the scanned lines. */
  method WriteLines(lines: seq<string>, cfg: Settings, order: seq<string>) returns (output: seq<string>)
    requires KeyOrder(order, cfg)
    ensures output == Written(lines, cfg, order)
  {
    hide Seen, Assign;
    var rewritten, seen := RewriteLines(lines, cfg);
    output := rewritten;
    assert rewritten + [] == rewritten;
    for j := 0 to |order|
      invariant output == rewritten + NewLines(cfg, seen, order[..j])
    {
      assert order[..j + 1][..j] == order[..j];
      if order[j] !in seen {
        output := output + [Assign(order[j], cfg[order[j]])];
      }
    }
    assert order[..|order|] == order;
  }

  method RewriteLines(lines: seq<string>, cfg: Settings) returns (output: seq<string>, seen: set<string>)
    ensures output == RewriteAll(lines, cfg) && seen == Seen(lines)
  {
    hide Classify, Assign, Seen;
    output, seen := [], {};
    assert Seen(lines[..0]) == {} by { NothingSeen(lines); }
    for k := 0 to |lines|
      invariant |output| == k && forall i :: 0 <= i < k ==> output[i] == RewriteLine(lines[i], cfg)
      invariant seen == Seen(lines[..k])
    {
      SeenSnoc(lines, k);
      match Classify(lines[k]) {
        case Active(key, _) =>
          seen := seen + {key};
          output := output + [if key in cfg then Assign(key, cfg[key]) else "#" + lines[k]];
        case Commented(key, _) =>
          seen := seen + {key};
          output := output + [if key in cfg then Assign(key, cfg[key]) else lines[k]];
        case Plain =>
          output := output + [lines[k]];
      }
    }
    assert lines[..|lines|] == lines;
  }

  lemma NothingSeen(lines: seq<string>)
    ensures Seen(lines[..0]) == {}
  {
  }

  lemma SeenSnoc(lines: seq<string>, k: nat)
    requires k < |lines|
    ensures Seen(lines[..k + 1]) ==
            Seen(lines[..k]) + if Classify(lines[k]).Plain? then {} else {Classify(lines[k]).key}
  {
    hide Classify;
    var a, b := lines[..k], lines[..k + 1];
    assert forall i :: 0 <= i < k ==> a[i] == b[i] == lines[i];
    assert b[k] == lines[k];
  }

  // ----- written lines, classified ------------------------------------------

  lemma {:induction false} KeyRunOf(key: string, rest: string)
    requires forall i :: 0 <= i < |key| ==> KeyChar(key[i])
    ensures KeyRun(key + "=" + rest) == |key|
  {
    hide KeyStart;
    var s := key + "=" + rest;
    if key == "" {
      assert s[0] == '=' && !KeyChar('=') by { EqualsIsNoKeyChar(); }
    } else {
      assert s[1..] == key[1..] + "=" + rest;
      KeyRunOf(key[1..], rest);
    }
  }

  lemma EqualsIsNoKeyChar()
    ensures !KeyChar('=')
  {
  }

  lemma AssignmentMatches(key: string, rest: string)
    requires ValidKey(key)
    ensures Assignment(key + "=" + rest) == Some((key, rest))
  {
    hide KeyRun, KeyChar, KeyStart;
    KeyRunOf(key, rest);
    var s := key + "=" + rest;
    assert s[..|key|] == key && s[|key| + 1..] == rest && s[|key|] == '=' && s[0] == key[0];
  }

  lemma LettersAreNoSpace()
    ensures !RegexSpace('e') && !RegexSpace('#') && RegexSpace(' ')
    ensures forall c :: KeyStart(c) ==> !RegexSpace(c)
  {
  }

  lemma ExportLine(key: string, raw: string)
    requires ValidKey(key)
    ensures ExportMatch("export " + key + "=" + raw) == Some((key, raw))
  {
    LettersAreNoSpace();
    hide RegexSpace, Assignment, KeyStart, KeyChar;
    var tail := key + "=" + raw;
    var line := "export " + key + "=" + raw;
    assert line == "export " + tail;
    assert line[0] == 'e' && line[..6] == EXPORT && line[6] == ' ';
    assert line[6..] == " " + tail && (" " + tail)[0] == ' ' && (" " + tail)[1..] == tail;
    assert tail[0] == key[0];
    AssignmentMatches(key, raw);
  }

  /** A written assignment is an active line for its key. */
  lemma AssignIsActive(key: string, v: string)
    requires ValidKey(key)
    ensures Classify(Assign(key, v)) == Active(key, Quote(v))
  {
    ExportLine(key, Quote(v));
    hide ExportMatch, CommentedMatch, ValidKey, Quote;
  }

  /** An active line that is commented out is a commented line for the same key and value. */
  lemma CommentedOut(line: string)
    requires ExportMatch(line).Some?
    ensures Classify("#" + line) == Commented(ExportMatch(line).value.0, ExportMatch(line).value.1)
  {
    LettersAreNoSpace();
    hide RegexSpace, Assignment;
    var c := "#" + line;
    assert c[0] == '#' && c[1..] == line;
    assert SkipSpace(c) == c;
    assert EXPORT[0] == 'e';
    if |c| > 6 {
      assert c[..6][0] == '#';
    }
    assert ExportMatch(c).None?;
  }

  lemma RewriteKind(line: string, cfg: Settings)
    ensures Classify(RewriteLine(line, cfg)) ==
            match Classify(line)
            case Plain => Plain
            case _ => var key, raw := Classify(line).key, Classify(line).raw;
                      if key in cfg then Active(key, Quote(cfg[key])) else Commented(key, raw)
  {
    hide ExportMatch, CommentedMatch, Quote, Assign, ValidKey;
    var kind := Classify(line);
    if !kind.Plain? && kind.key in cfg {
      AssignIsActive(kind.key, cfg[kind.key]);
    } else if kind.Active? {
      CommentedOut(line);
    }
  }

  // ----- the written file, read again ---------------------------------------

  ghost predicate ValidConfig(cfg: Settings) {
    forall k :: k in cfg ==> ValidKey(k)
  }

  /** Every active line assigns the configured value of a configured key. */
  ghost predicate OnlyConfigured(lines: seq<string>, cfg: Settings) {
    forall i :: 0 <= i < |lines| && Classify(lines[i]).Active? ==>
      Classify(lines[i]).key in cfg && Classify(lines[i]).raw == Quote(cfg[Classify(lines[i]).key])
  }

  ghost function ActiveKeys(lines: seq<string>): set<string> {
    set i | 0 <= i < |lines| && Classify(lines[i]).Active? :: Classify(lines[i]).key
  }

  lemma {:induction false} ConfiguredValues(lines: seq<string>, cfg: Settings)
    requires OnlyConfigured(lines, cfg) && Readable(lines)
    ensures ActiveOf(lines).Keys == ActiveKeys(lines)
    ensures forall k :: k in ActiveOf(lines) ==> k in cfg && Some(ActiveOf(lines)[k]) == Unquoted(Quote(cfg[k]))
  {
    hide Classify, Unquoted, Quote;
    if lines != [] {
      var front, last := lines[..|lines| - 1], lines[|lines| - 1];
      ConfiguredValues(front, cfg);
      assert lines == front + [last];
      ActiveKeysSnoc(front, last);
    } else {
      assert ActiveKeys(lines) == {};
    }
  }

  lemma ActiveKeysSnoc(front: seq<string>, last: string)
    ensures ActiveKeys(front + [last]) ==
            ActiveKeys(front) + if Classify(last).Active? then {Classify(last).key} else {}
  {
    hide Classify;
    var lines := front + [last];
    assert lines[|front|] == last && forall i :: 0 <= i < |front| ==> lines[i] == front[i];
  }

  lemma {:induction false} NewLineAt(cfg: Settings, seen: set<string>, order: seq<string>, i: nat) returns (k: string)
    requires (forall k :: k in order ==> k in cfg) && i < |NewLines(cfg, seen, order)|
    ensures k in order && k !in seen && NewLines(cfg, seen, order)[i] == Assign(k, cfg[k])
  {
    hide Assign;
    var front, last := order[..|order| - 1], order[|order| - 1];
    if i < |NewLines(cfg, seen, front)| {
      k := NewLineAt(cfg, seen, front, i);
    } else {
      k := last;
    }
  }

  lemma {:induction false} NewLineFor(cfg: Settings, seen: set<string>, order: seq<string>, k: string) returns (i: nat)
    requires (forall k :: k in order ==> k in cfg) && k in order && k !in seen
    ensures i < |NewLines(cfg, seen, order)| && NewLines(cfg, seen, order)[i] == Assign(k, cfg[k])
  {
    hide Assign;
    var front, last := order[..|order| - 1], order[|order| - 1];
    assert order == front + [last];
    if k == last {
      i := |NewLines(cfg, seen, front)|;
    } else {
      i := NewLineFor(cfg, seen, front, k);
    }
  }

  /** A line of the written file: a rewritten one, or a new assignment. */
  lemma WrittenAt(lines: seq<string>, cfg: Settings, order: seq<string>, i: nat) returns (k: string)
    requires KeyOrder(order, cfg) && i < |Written(lines, cfg, order)|
    ensures i < |lines| ==> Written(lines, cfg, order)[i] == RewriteLine(lines[i], cfg)
    ensures i >= |lines| ==> k in cfg && Written(lines, cfg, order)[i] == Assign(k, cfg[k])
  {
    hide Assign, RewriteLine, Seen;
    if i >= |lines| {
      k := NewLineAt(cfg, Seen(lines), order, i - |lines|);
    } else {
      k := "";
    }
  }

  lemma {:induction false} WrittenOnlyConfigured(lines: seq<string>, cfg: Settings, order: seq<string>)
    requires ValidConfig(cfg) && KeyOrder(order, cfg)
    ensures OnlyConfigured(Written(lines, cfg, order), cfg)
  {
    var out := Written(lines, cfg, order);
    forall i | 0 <= i < |out| && Classify(out[i]).Active?
      ensures Classify(out[i]).key in cfg && Classify(out[i]).raw == Quote(cfg[Classify(out[i]).key])
    {
      hide *;
      var k := WrittenAt(lines, cfg, order, i);
      KeysAreValid(cfg, k);
      if i < |lines| {
        KindOfRewritten(lines[i], cfg);
      } else {
        AssignIsActive(k, cfg[k]);
      }
    }
  }

  lemma KeysAreValid(cfg: Settings, k: string)
    requires ValidConfig(cfg)
    ensures k in cfg ==> ValidKey(k)
  {
    hide ValidKey;
  }

  lemma KindOfRewritten(line: string, cfg: Settings)
    requires ValidConfig(cfg)
    ensures var kind := Classify(RewriteLine(line, cfg));
            && (kind.Active? ==> kind.key in cfg && kind.raw == Quote(cfg[kind.key]))
            && (!Classify(line).Plain? && Classify(line).key in cfg ==> kind.Active? && kind.key == Classify(line).key)
  {
    hide Classify, Quote, ValidKey, RewriteLine;
    RewriteKind(line, cfg);
  }

  /** Every configured key has an active line. */
  lemma WrittenActiveKeys(lines: seq<string>, cfg: Settings, order: seq<string>)
    requires ValidConfig(cfg) && KeyOrder(order, cfg)
    ensures cfg.Keys <= ActiveKeys(Written(lines, cfg, order))
  {
    var out := Written(lines, cfg, order);
    forall k | k in cfg
      ensures k in ActiveKeys(out)
    {
      var i := ActiveLineOf(lines, cfg, order, k);
      hide Classify, Written;
    }
  }

  lemma {:induction false} ActiveLineOf(lines: seq<string>, cfg: Settings, order: seq<string>,
        k: string) returns (i: nat)
    requires ValidConfig(cfg) && KeyOrder(order, cfg) && k in cfg
    ensures var out := Written(lines, cfg, order);
            i < |out| && Classify(out[i]).Active? && Classify(out[i]).key == k
  {
    hide Classify, Quote, Assign, RewriteLine, ValidKey;
    if k in Seen(lines) {
      i :| 0 <= i < |lines| && !Classify(lines[i]).Plain? && Classify(lines[i]).key == k;
      KindOfRewritten(lines[i], cfg);
    } else {
      hide Seen;
      var j := NewLineFor(cfg, Seen(lines), order, k);
      AssignIsActive(k, cfg[k]);
      i := |lines| + j;
    }
  }

  /** The values of the variables that the configuration leaves out can be read. */
  ghost predicate KeptReadable(lines: seq<string>, cfg: Settings) {
    forall i :: 0 <= i < |lines| ==> KeptGood(lines[i], cfg)
  }

  predicate KeptGood(line: string, cfg: Settings) {
    Classify(line).Plain? || Classify(line).key in cfg || Unquoted(Classify(line).raw).Some?
  }

  lemma RewriteGood(line: string, cfg: Settings)
    ensures GoodLine(RewriteLine(line, cfg)) <==> KeptGood(line, cfg)
  {
    hide Classify, Quote, ValidKey, RewriteLine, Unquoted;
    RewriteKind(line, cfg);
    var kind := Classify(line);
    if !kind.Plain? && kind.key in cfg {
      QuoteRoundTrip(cfg[kind.key]);
    }
  }

  lemma {:induction false} TrimLeftKeeps(s: string, c: char)
    requires c in s && !IsSpace(c)
    ensures c in TrimLeft(s)
  {
    hide IsSpace;
    if IsSpace(s[0]) {
      TrimLeftKeeps(s[1..], c);
    }
  }

  lemma {:induction false} TrimRightKeeps(s: string, c: char)
    requires c in s && !IsSpace(c)
    ensures c in TrimRight(s)
  {
    hide IsSpace;
    if IsSpace(s[|s| - 1]) {
      assert s == s[..|s| - 1] + [s[|s| - 1]];
      TrimRightKeeps(s[..|s| - 1], c);
    }
  }

  /** A value with an equals sign is not the one that panics. */
  lemma EqualsReads(raw: string)
    requires '=' in raw
    ensures Unquoted(raw).Some?
  {
    assert !IsSpace('=');
    TrimLeftKeeps(raw, '=');
    TrimRightKeeps(TrimLeft(raw), '=');
    hide IsSpace, TrimLeft, TrimRight, StripComment;
    var s := Trim(raw);
    assert |s| == 2 ==> s == [s[0], s[1]];
  }

  lemma {:induction false} SkipToEquals(x: string, q: string) returns (y: string)
    ensures SkipSpace(x + "=" + q) == y + "=" + q
  {
    assert !RegexSpace('=');
    hide RegexSpace;
    var s := x + "=" + q;
    if x == "" {
      assert s[0] == '=';
      y := "";
    } else if RegexSpace(x[0]) {
      assert s[1..] == x[1..] + "=" + q;
      y := SkipToEquals(x[1..], q);
    } else {
      y := x;
    }
  }

  /** Whatever stands where the key should: the value is the written one, or there is another equals sign in it. */
  lemma AssignmentValue(y: string, q: string)
    ensures var m := Assignment(y + "=" + q); m.Some? ==> m.value.1 == q || '=' in m.value.1
  {
    var c := y + "=" + q;
    var n := KeyRun(c);
    assert c[|y|] == '=';
    assert !KeyChar('=') by { EqualsIsNoKeyChar(); }
    assert n <= |y|;
    hide KeyRun, KeyChar, KeyStart;
    if n < |y| {
      assert c[n + 1..][|y| - n - 1] == '=';
    } else {
      assert c[n + 1..] == q;
    }
  }

  lemma AssignGood(key: string, v: string)
    ensures GoodLine(Assign(key, v))
  {
    var line, q := Assign(key, v), Quote(v);
    assert line[0] == 'e' && line[..6] == EXPORT;
    LettersAreNoSpace();
    hide RegexSpace, Quote, Unquoted, Assignment;
    assert line[6..] == (" " + key) + "=" + q;
    var y := SkipToEquals(" " + key, q);
    AssignmentValue(y, q);
    hide SkipSpace;
    if ExportMatch(line).Some? {
      QuoteRoundTrip(v);
      var raw := ExportMatch(line).value.1;
      if raw != q {
        EqualsReads(raw);
      }
    }
    assert SkipSpace(line) == line;
  }

  /** The written file can be read exactly when what it keeps can: a value of a variable that is left out and
      is the two characters $' makes reading panic. */
  lemma {:induction false} WrittenIsReadable(lines: seq<string>, cfg: Settings, order: seq<string>)
    requires KeyOrder(order, cfg)
    ensures Readable(Written(lines, cfg, order)) <==> KeptReadable(lines, cfg)
  {
    var out := Written(lines, cfg, order);
    forall i | 0 <= i < |lines|
      ensures GoodLine(out[i]) <==> KeptGood(lines[i], cfg)
    {
      hide *;
      var k := WrittenAt(lines, cfg, order, i);
      RewriteGood(lines[i], cfg);
    }
    forall i | |lines| <= i < |out|
      ensures GoodLine(out[i])
    {
      hide *;
      var k := WrittenAt(lines, cfg, order, i);
      AssignGood(k, cfg[k]);
    }
    hide GoodLine, KeptGood, Written;
    assert |lines| <= |out| by { WrittenLength(lines, cfg, order); }
    if KeptReadable(lines, cfg) {
      forall i | 0 <= i < |out|
        ensures GoodLine(out[i])
      {
        if i < |lines| {
          assert KeptGood(lines[i], cfg);
        }
      }
    }
  }

  lemma WrittenLength(lines: seq<string>, cfg: Settings, order: seq<string>)
    requires KeyOrder(order, cfg)
    ensures |lines| <= |Written(lines, cfg, order)|
  {
  }

  lemma CommentedLine(key: string, raw: string)
    requires ValidKey(key)
    ensures Classify("#export " + key + "=" + raw) == Commented(key, raw)
  {
    ExportLine(key, raw);
    hide ExportMatch, ValidKey, Classify;
    var line := "export " + key + "=" + raw;
    CommentedOut(line);
    assert "#" + line == "#export " + key + "=" + raw;
  }

  lemma DollarQuotePanics()
    ensures Unquoted("$'").None?
  {
    QuoteIsNotSpace();
    hide IsSpace, SpecialChar;
    assert !IsSpace('$') by { DollarIsNotSpace(); }
    assert Trim("$'") == "$'";
  }

  lemma DollarIsNotSpace()
    ensures !IsSpace('$')
  {
  }

  /** A file that is written unchanged and can then not be read: a comment holds the two characters. */
  lemma KeptValuePanics(key: string)
    requires ValidKey(key)
    ensures var lines := ["#export " + key + "=" + "$'"];
            Written(lines, map[], []) == lines && Parsed(lines).None?
  {
    CommentedLine(key, "$'");
    DollarQuotePanics();
    hide Classify, Unquoted, ValidKey;
    var lines := ["#export " + key + "=" + "$'"];
    assert RewriteAll(lines, map[]) == lines;
    assert lines + [] == lines;
    assert !GoodLine(lines[0]);
  }

  /** If it can be read at all, the written file has exactly the configured keys active, and it gives the
      configuration back if and only if every value is writable. */
  lemma {:induction false} WrittenIsActive(lines: seq<string>, cfg: Settings, order: seq<string>)
    requires ValidConfig(cfg) && KeyOrder(order, cfg)
    ensures var read := Parsed(Written(lines, cfg, order));
            && (read.Some? <==> KeptReadable(lines, cfg))
            && (read.Some? ==> read.value.0.Keys == cfg.Keys)
            && (read.Some? && read.value.0 == cfg <==>
                  KeptReadable(lines, cfg) && forall k :: k in cfg ==> Writable(cfg[k]))
  {
    var out := Written(lines, cfg, order);
    hide Readable, ActiveOf, CommentedOf, Written, KeptReadable, ValidConfig, KeyOrder, Writable;
    hide Classify, Quote, Unquoted, OnlyConfigured, ActiveKeys;
    WrittenIsReadable(lines, cfg, order);
    if Readable(out) {
      WrittenOnlyConfigured(lines, cfg, order);
      ConfiguredValues(out, cfg);
      WrittenActiveKeys(lines, cfg, order);
      assert ActiveOf(out).Keys == cfg.Keys;
      SameSettings(ActiveOf(out), cfg);
    }
  }

  lemma {:induction false} SameSettings(read: Settings, cfg: Settings)
    requires read.Keys == cfg.Keys && forall k :: k in read ==> k in cfg && Some(read[k]) == Unquoted(Quote(cfg[k]))
    ensures read == cfg <==> forall k :: k in cfg ==> Writable(cfg[k])
  {
    hide Quote, Writable, Unquoted;
    forall k | k in cfg
      ensures read[k] == cfg[k] <==> Writable(cfg[k])
    {
      QuoteRoundTrip(cfg[k]);
    }
  }

  // ----- what is kept -------------------------------------------------------

  ghost function PlainLines(lines: seq<string>): seq<string> {
    if lines == [] then []
    else if Classify(lines[|lines| - 1]).Plain? then PlainLines(lines[..|lines| - 1]) + [lines[|lines| - 1]]
    else PlainLines(lines[..|lines| - 1])
  }

  lemma {:induction false} PlainConcat(a: seq<string>, b: seq<string>)
    requires forall i :: 0 <= i < |b| ==> !Classify(b[i]).Plain?
    ensures PlainLines(a + b) == PlainLines(a)
  {
    hide Classify;
    if b == [] {
      assert a + b == a;
    } else {
      assert (a + b)[..|a + b| - 1] == a + b[..|b| - 1];
      PlainConcat(a, b[..|b| - 1]);
    }
  }

  lemma {:induction false} PlainRewritten(lines: seq<string>, cfg: Settings)
    requires ValidConfig(cfg)
    ensures PlainLines(RewriteAll(lines, cfg)) == PlainLines(lines)
  {
    hide Classify, ValidKey;
    if lines != [] {
      var n := |lines| - 1;
      PlainRewritten(lines[..n], cfg);
      assert RewriteAll(lines, cfg)[..n] == RewriteAll(lines[..n], cfg);
      RewriteKind(lines[n], cfg);
    }
  }

  lemma NewLinesAreActive(cfg: Settings, seen: set<string>, order: seq<string>)
    requires ValidConfig(cfg) && forall k :: k in order ==> k in cfg
    ensures forall i :: 0 <= i < |NewLines(cfg, seen, order)| ==> Classify(NewLines(cfg, seen, order)[i]).Active?
  {
    forall i | 0 <= i < |NewLines(cfg, seen, order)|
      ensures Classify(NewLines(cfg, seen, order)[i]).Active?
    {
      hide Classify, Assign, ValidKey;
      var k := NewLineAt(cfg, seen, order, i);
      AssignIsActive(k, cfg[k]);
    }
  }

  /** Lines that are no assignments stay as they are, in order. */
  lemma PlainLinesSurvive(lines: seq<string>, cfg: Settings, order: seq<string>)
    requires ValidConfig(cfg) && KeyOrder(order, cfg)
    ensures PlainLines(Written(lines, cfg, order)) == PlainLines(lines)
  {
    hide Classify, ValidKey, NewLines, RewriteAll;
    NewLinesAreActive(cfg, Seen(lines), order);
    PlainConcat(RewriteAll(lines, cfg), NewLines(cfg, Seen(lines), order));
    PlainRewritten(lines, cfg);
  }

  /** The last value of each variable that the configuration leaves out, active or commented. */
  ghost function DroppedOf(lines: seq<string>, cfg: Settings): Settings
    requires KeptReadable(lines, cfg)
  {
    if lines == [] then map[] else
      var front, last := lines[..|lines| - 1], lines[|lines| - 1];
      assert KeptGood(last, cfg);
      if Classify(last).Plain? || Classify(last).key in cfg then DroppedOf(front, cfg)
      else DroppedOf(front, cfg)[Classify(last).key := Unquoted(Classify(last).raw).value]
  }

  lemma {:induction false} CommentedConcat(a: seq<string>, b: seq<string>)
    requires Readable(a + b) && Readable(a) && forall i :: 0 <= i < |b| ==> Classify(b[i]).Active?
    ensures CommentedOf(a + b) == CommentedOf(a)
  {
    hide Classify, GoodLine;
    if b == [] {
      assert a + b == a;
    } else {
      assert (a + b)[..|a + b| - 1] == a + b[..|b| - 1];
      CommentedConcat(a, b[..|b| - 1]);
    }
  }

  lemma {:induction false} CommentedRewritten(lines: seq<string>, cfg: Settings)
    requires ValidConfig(cfg) && KeptReadable(lines, cfg) && Readable(RewriteAll(lines, cfg))
    ensures CommentedOf(RewriteAll(lines, cfg)) == DroppedOf(lines, cfg)
  {
    hide Classify, Unquoted, ValidKey;
    if lines != [] {
      var n := |lines| - 1;
      assert RewriteAll(lines, cfg)[..n] == RewriteAll(lines[..n], cfg);
      CommentedRewritten(lines[..n], cfg);
      RewriteKind(lines[n], cfg);
    }
  }

  /** Variables left out of the configuration are there as comments, with the last value they had. */
  lemma DroppedAreCommented(lines: seq<string>, cfg: Settings, order: seq<string>)
    requires ValidConfig(cfg) && KeyOrder(order, cfg) && KeptReadable(lines, cfg)
    ensures var read := Parsed(Written(lines, cfg, order));
            read.Some? && read.value.1 == DroppedOf(lines, cfg)
  {
    hide Classify, ValidKey, NewLines, RewriteAll, ActiveOf, CommentedOf, DroppedOf, GoodLine, KeptGood;
    var a, b := RewriteAll(lines, cfg), NewLines(cfg, Seen(lines), order);
    WrittenIsReadable(lines, cfg, order);
    assert a == (a + b)[..|a|];
    assert Readable(a);
    NewLinesAreActive(cfg, Seen(lines), order);
    CommentedConcat(a, b);
    CommentedRewritten(lines, cfg);
  }

  // ----- writing twice ------------------------------------------------------

  /** A line that the same configuration would not touch. */
  ghost predicate Settled(line: string, cfg: Settings) { RewriteLine(line, cfg) == line }

  lemma AssignSettled(key: string, cfg: Settings)
    requires ValidConfig(cfg) && key in cfg
    ensures Settled(Assign(key, cfg[key]), cfg)
  {
    hide Classify, Assign;
    AssignIsActive(key, cfg[key]);
  }

  lemma {:induction false} RewriteSettled(line: string, cfg: Settings)
    requires ValidConfig(cfg)
    ensures Settled(RewriteLine(line, cfg), cfg)
  {
    hide Classify, Assign, ValidKey;
    RewriteKind(line, cfg);
    var kind := Classify(line);
    if !kind.Plain? && kind.key in cfg {
      AssignSettled(kind.key, cfg);
    }
  }

  lemma {:induction false} NothingNew(cfg: Settings, seen: set<string>, order: seq<string>)
    requires (forall k :: k in order ==> k in cfg) && cfg.Keys <= seen
    ensures NewLines(cfg, seen, order) == []
  {
    if order != [] {
      assert order[|order| - 1] in order;
      NothingNew(cfg, seen, order[..|order| - 1]);
    }
  }

  /** Writing the same configuration again changes nothing, whatever the order of the keys. */
  lemma {:induction false} WriteIsIdempotent(lines: seq<string>, cfg: Settings, order: seq<string>, again: seq<string>)
    requires ValidConfig(cfg) && KeyOrder(order, cfg) && KeyOrder(again, cfg)
    ensures Written(Written(lines, cfg, order), cfg, again) == Written(lines, cfg, order)
  {
    hide Classify, Assign, ValidKey, RewriteLine, Written, Seen, ActiveKeys;
    var out := Written(lines, cfg, order);
    forall i | 0 <= i < |out|
      ensures Settled(out[i], cfg)
    {
      var k := WrittenAt(lines, cfg, order, i);
      if i < |lines| {
        RewriteSettled(lines[i], cfg);
      } else {
        AssignSettled(k, cfg);
      }
    }
    SettledFile(out, cfg);
    WrittenActiveKeys(lines, cfg, order);
    ActiveIsSeen(out);
    NothingNew(cfg, Seen(out), again);
    SecondWrite(out, cfg, again);
  }

  lemma SettledFile(out: seq<string>, cfg: Settings)
    requires forall i :: 0 <= i < |out| ==> Settled(out[i], cfg)
    ensures RewriteAll(out, cfg) == out
  {
    hide RewriteLine;
  }

  lemma SecondWrite(out: seq<string>, cfg: Settings, again: seq<string>)
    requires (forall k :: k in again ==> k in cfg)
    requires RewriteAll(out, cfg) == out && NewLines(cfg, Seen(out), again) == []
    ensures Written(out, cfg, again) == out
  {
    hide RewriteAll, NewLines, Seen;
    assert out + [] == out;
  }

  lemma ActiveIsSeen(lines: seq<string>)
    ensures ActiveKeys(lines) <= Seen(lines)
  {
    hide Classify;
  }

  // ----- the file as text ---------------------------------------------------

  function LineEnd(t: string): (n: nat)
    ensures n <= |t| && (n < |t| ==> t[n] == '\n') && forall i :: 0 <= i < n ==> t[i] != '\n'
  {
    if t == "" || t[0] == '\n' then 0 else 1 + LineEnd(t[1..])
  }

  function DropCR(s: string): string {
    if s != "" && s[|s| - 1] == '\r' then s[..|s| - 1] else s
  }

  /** bufio.ScanLines: one carriage return before the newline goes, and no empty last line. */
  function Lines(t: string): seq<string>
    decreases |t|
  {
    if t == "" then [] else
      var n := LineEnd(t);
      [DropCR(t[..n])] + if n == |t| then [] else Lines(t[n + 1..])
  }

  function Unlines(lines: seq<string>): string {
    if lines == [] then "" else lines[0] + "\n" + Unlines(lines[1..])
  }

  predicate SingleLine(v: string) { forall i :: 0 <= i < |v| ==> v[i] != '\n' }

  ghost function DropReturns(lines: seq<string>): (r: seq<string>)
    ensures |r| == |lines| && forall i :: 0 <= i < |lines| ==> r[i] == DropCR(lines[i])
  {
    seq(|lines|, i requires 0 <= i < |lines| => DropCR(lines[i]))
  }

  lemma {:induction false} LineEndOf(s: string, rest: string)
    requires SingleLine(s)
    ensures LineEnd(s + "\n" + rest) == |s|
  {
    var t := s + "\n" + rest;
    if s == "" {
      assert t[0] == '\n';
    } else {
      assert t[1..] == s[1..] + "\n" + rest;
      LineEndOf(s[1..], rest);
    }
  }

  lemma LinesCons(s: string, rest: string)
    requires SingleLine(s)
    ensures Lines(s + "\n" + rest) == [DropCR(s)] + Lines(rest)
  {
    LineEndOf(s, rest);
    hide LineEnd, SingleLine, DropCR;
    var t := s + "\n" + rest;
    assert t[..|s|] == s && t[|s| + 1..] == rest;
  }

  /** Scanning what was printed gives the lines, without a carriage return at their ends. */
  lemma {:induction false} LinesOfUnlines(lines: seq<string>)
    requires forall i :: 0 <= i < |lines| ==> SingleLine(lines[i])
    ensures Lines(Unlines(lines)) == DropReturns(lines)
  {
    if lines != [] {
      LinesOfUnlines(lines[1..]);
      LinesCons(lines[0], Unlines(lines[1..]));
      hide Lines, SingleLine, DropCR;
      assert DropReturns(lines) == [DropCR(lines[0])] + DropReturns(lines[1..]);
    }
  }

  lemma {:induction false} ScannedLines(t: string, i: nat)
    requires i < |Lines(t)|
    ensures SingleLine(Lines(t)[i])
    decreases |t|
  {
    var n := LineEnd(t);
    if i > 0 {
      ScannedLines(t[n + 1..], i - 1);
    }
  }

  // ----- carriage returns do not matter to reading ---------------------------

  lemma {:induction false} SkipSpaceReturn(s: string)
    ensures SkipSpace(s + "\r") == if SkipSpace(s) == "" then "" else SkipSpace(s) + "\r"
  {
    assert RegexSpace('\r');
    hide RegexSpace;
    var t := s + "\r";
    if s == "" {
      assert t[0] == '\r' && t[1..] == "";
    } else {
      assert t[0] == s[0] && t[1..] == s[1..] + "\r";
      SkipSpaceReturn(s[1..]);
    }
  }

  lemma {:induction false} KeyRunReturn(s: string)
    ensures KeyRun(s + "\r") == KeyRun(s)
  {
    assert !KeyChar('\r');
    hide KeyChar;
    var t := s + "\r";
    if s == "" {
      assert t[0] == '\r';
    } else {
      assert t[0] == s[0] && t[1..] == s[1..] + "\r";
      KeyRunReturn(s[1..]);
    }
  }

  /** A match with a carriage return after its value. */
  function WithReturn(m: Option<(string, string)>): Option<(string, string)> {
    if m.None? then None else Some((m.value.0, m.value.1 + "\r"))
  }

  lemma AssignmentReturn(c: string)
    ensures Assignment(c + "\r") == WithReturn(Assignment(c))
  {
    KeyRunReturn(c);
    hide KeyRun, KeyChar, KeyStart;
    var t, n := c + "\r", KeyRun(c);
    assert forall i :: 0 <= i < |c| ==> t[i] == c[i];
    assert t[|c|] == '\r';
    assert t[..n] == c[..n];
    if n < |c| {
      assert t[n + 1..] == c[n + 1..] + "\r";
    }
  }

  lemma NoAssignment()
    ensures Assignment("").None?
  {
  }

  lemma ExportReturn(line: string)
    ensures ExportMatch(line + "\r") == WithReturn(ExportMatch(line))
  {
    SkipSpaceReturn(line);
    NoAssignment();
    var a := SkipSpace(line);
    hide RegexSpace, SkipSpace, Assignment;
    if |a| > 6 {
      assert (a + "\r")[..6] == a[..6] && (a + "\r")[6] == a[6] && (a + "\r")[6..] == a[6..] + "\r";
      SkipSpaceReturn(a[6..]);
      AssignmentReturn(SkipSpace(a[6..]));
    } else if |a| == 6 {
      assert (a + "\r")[6..] == "" + "\r";
      SkipSpaceReturn("");
      EmptySkips();
    }
  }

  lemma EmptySkips()
    ensures SkipSpace("") == ""
  {
  }

  lemma CommentedReturn(line: string)
    ensures CommentedMatch(line + "\r") == WithReturn(CommentedMatch(line))
  {
    SkipSpaceReturn(line);
    var a := SkipSpace(line);
    hide SkipSpace, ExportMatch;
    if a != "" {
      assert (a + "\r")[0] == a[0] && (a + "\r")[1..] == a[1..] + "\r";
      ExportReturn(a[1..]);
    }
  }

  lemma {:induction false} TrimLeftReturn(s: string)
    ensures TrimLeft(s + "\r") == if TrimLeft(s) == "" then "" else TrimLeft(s) + "\r"
  {
    assert IsSpace('\r');
    hide IsSpace;
    var t := s + "\r";
    if s == "" {
      assert t[0] == '\r' && t[1..] == "";
    } else {
      assert t[0] == s[0] && t[1..] == s[1..] + "\r";
      TrimLeftReturn(s[1..]);
    }
  }

  lemma TrimReturn(s: string)
    ensures Trim(s + "\r") == Trim(s)
  {
    TrimLeftReturn(s);
    assert IsSpace('\r');
    hide IsSpace, TrimLeft;
    var a := TrimLeft(s);
    assert (a + "\r")[|a|] == '\r' && (a + "\r")[..|a|] == a;
  }

  /** A line reads the same without the carriage return at its end. */
  ghost predicate SameReading(a: Kind, b: Kind) {
    && a.Plain? == b.Plain? && a.Active? == b.Active?
    && (!a.Plain? ==> a.key == b.key && Unquoted(a.raw) == Unquoted(b.raw))
  }

  lemma ReturnReadsTheSame(line: string)
    ensures SameReading(Classify(DropCR(line)), Classify(line))
  {
    hide ExportMatch, CommentedMatch, Unquoted;
    var s := DropCR(line);
    if s != line {
      assert line == s + "\r";
      ExportReturn(s);
      CommentedReturn(s);
      if !Classify(s).Plain? {
        UnquotedReturn(Classify(s).raw);
      }
    }
  }

  lemma UnquotedReturn(raw: string)
    ensures Unquoted(raw + "\r") == Unquoted(raw)
  {
    hide Trim, StripComment;
    TrimReturn(raw);
  }

  lemma {:induction false} ReadingDropsReturns(lines: seq<string>)
    ensures Readable(DropReturns(lines)) <==> Readable(lines)
    ensures Parsed(DropReturns(lines)) == Parsed(lines)
  {
    hide Classify, Unquoted, DropCR;
    forall i | 0 <= i < |lines|
      ensures GoodLine(DropReturns(lines)[i]) <==> GoodLine(lines[i])
    {
      ReturnReadsTheSame(lines[i]);
    }
    if lines != [] && Readable(lines) {
      var n := |lines| - 1;
      assert DropReturns(lines)[..n] == DropReturns(lines[..n]);
      ReadingDropsReturns(lines[..n]);
      ReturnReadsTheSame(lines[n]);
    }
  }

  // ----- values read from a line hold no newline -----------------------------

  lemma {:induction false} SkipSpaceSingle(s: string)
    requires SingleLine(s)
    ensures SingleLine(SkipSpace(s))
  {
    hide RegexSpace;
    if s != "" && RegexSpace(s[0]) {
      SkipSpaceSingle(s[1..]);
    }
  }

  lemma ExportSingle(line: string)
    requires SingleLine(line)
    ensures ExportMatch(line).Some? ==> SingleLine(ExportMatch(line).value.1)
  {
    hide RegexSpace, SkipSpace, KeyRun;
    SkipSpaceSingle(line);
    var a := SkipSpace(line);
    if |a| > 6 {
      SkipSpaceSingle(a[6..]);
    }
  }

  lemma TrimSingle(s: string)
    requires SingleLine(s)
    ensures SingleLine(Trim(s))
  {
    TrimLeftPart(s);
    TrimRightPart(TrimLeft(s));
    hide TrimLeft, TrimRight;
    var a := TrimLeft(s);
    forall i | 0 <= i < |Trim(s)|
      ensures Trim(s)[i] != '\n'
    {
      assert Trim(s)[i] == a[i] == s[|s| - |a| + i];
    }
  }

  lemma {:induction false} StripSingle(s: string, i: nat)
    requires SingleLine(s) && i >= 1
    ensures SingleLine(StripComment(s, i))
    decreases |s| - i
  {
    hide Trim;
    if i < |s| {
      if s[i] == '#' && (s[i - 1] == ' ' || s[i - 1] == '\t') {
        TrimSingle(s[..i - 1]);
      } else {
        StripSingle(s, i + 1);
      }
    }
  }

  lemma UnquotedSingle(raw: string)
    requires SingleLine(raw)
    ensures Unquoted(raw).Some? ==> SingleLine(Unquoted(raw).value)
  {
    hide Trim, StripComment;
    TrimSingle(raw);
    StripSingle(Trim(raw), 1);
  }

  lemma ValueSingle(line: string)
    requires SingleLine(line) && Classify(line).Active?
    ensures ValidKey(Classify(line).key)
    ensures Unquoted(Classify(line).raw).Some? ==> SingleLine(Unquoted(Classify(line).raw).value)
  {
    hide ExportMatch, CommentedMatch, Unquoted, SingleLine, ValidKey;
    ExportSingle(line);
    UnquotedSingle(Classify(line).raw);
  }

  /** Keys that are read match the pattern, and values that are read are single lines. */
  lemma {:induction false} ReadSettings(lines: seq<string>)
    requires Readable(lines) && forall i :: 0 <= i < |lines| ==> SingleLine(lines[i])
    ensures ValidConfig(ActiveOf(lines)) && SingleConfig(ActiveOf(lines))
  {
    hide Classify, Unquoted, SingleLine, ValidKey;
    if lines != [] {
      var n := |lines| - 1;
      ReadSettings(lines[..n]);
      assert GoodLine(lines[n]);
      if Classify(lines[n]).Active? {
        ValueSingle(lines[n]);
      }
    }
  }

  ghost predicate SingleConfig(cfg: Settings) {
    forall k :: k in cfg ==> SingleLine(cfg[k])
  }

  // ----- writing a text ------------------------------------------------------

  lemma {:induction false} EscapeSingle(v: string)
    requires SingleLine(v)
    ensures SingleLine(EscapeQuotes(v))
  {
    if v != "" {
      EscapeSingle(v[1..]);
    }
  }

  lemma AssignSingle(key: string, v: string)
    requires ValidKey(key) && SingleLine(v)
    ensures SingleLine(Assign(key, v))
  {
    EscapeSingle(v);
    KeyHasNoNewline(key);
    hide EscapeQuotes, Special, ValidKey;
    assert SingleLine(Quote(v));
    hide Quote;
    var head := "export " + key + "=";
    assert Assign(key, v) == head + Quote(v);
  }

  lemma KeyHasNoNewline(key: string)
    requires ValidKey(key)
    ensures SingleLine("export " + key + "=")
  {
    assert !KeyChar('\n');
    hide KeyStart;
    var head := "export " + key + "=";
    forall i | 0 <= i < |head|
      ensures head[i] != '\n'
    {
      assert head[i] == if i < 7 then "export "[i] else if i < 7 + |key| then key[i - 7] else '=';
    }
  }

  lemma RewrittenSingle(line: string, cfg: Settings)
    requires ValidConfig(cfg) && SingleConfig(cfg) && SingleLine(line)
    ensures SingleLine(RewriteLine(line, cfg))
  {
    hide Classify, Assign, ValidKey;
    var kind := Classify(line);
    if !kind.Plain? && kind.key in cfg {
      AssignSingle(kind.key, cfg[kind.key]);
    } else if kind.Active? {
      var c := "#" + line;
      assert forall i :: 0 <= i < |c| ==> c[i] == if i == 0 then '#' else line[i - 1];
    }
  }

  lemma {:induction false} WrittenSingle(lines: seq<string>, cfg: Settings, order: seq<string>)
    requires ValidConfig(cfg) && SingleConfig(cfg) && KeyOrder(order, cfg)
    requires forall i :: 0 <= i < |lines| ==> SingleLine(lines[i])
    ensures forall i :: 0 <= i < |Written(lines, cfg, order)| ==> SingleLine(Written(lines, cfg, order)[i])
  {
    var out := Written(lines, cfg, order);
    forall i | 0 <= i < |out|
      ensures SingleLine(out[i])
    {
      hide Written, RewriteLine, Assign, SingleLine, ValidKey;
      var k := WrittenAt(lines, cfg, order, i);
      if i < |lines| {
        RewrittenSingle(lines[i], cfg);
      } else {
        AssignSingle(k, cfg[k]);
      }
    }
  }

  ghost function WrittenText(text: string, cfg: Settings, order: seq<string>): string
    requires KeyOrder(order, cfg)
  {
    Unlines(Written(Lines(text), cfg, order))
  }

  lemma ScannedAgain(text: string, cfg: Settings, order: seq<string>)
    requires ValidConfig(cfg) && SingleConfig(cfg) && KeyOrder(order, cfg)
    ensures Lines(WrittenText(text, cfg, order)) == DropReturns(Written(Lines(text), cfg, order))
  {
    var lines := Lines(text);
    forall i | 0 <= i < |lines|
      ensures SingleLine(lines[i])
    {
      hide *;
      ScannedLines(text, i);
    }
    hide Lines, Unlines, Written, SingleLine;
    WrittenSingle(lines, cfg, order);
    LinesOfUnlines(Written(lines, cfg, order));
  }

  /** For every file and every configuration: writing it and reading the file gives the configuration back if
      and only if its keys match the pattern, its values are writable single lines, and the values of the
      variables it leaves out can be read. */
  lemma {:induction false} ConfigRoundTrip(text: string, cfg: Settings, order: seq<string>)
    requires KeyOrder(order, cfg)
    ensures var read := Parsed(Lines(WrittenText(text, cfg, order)));
            read.Some? && read.value.0 == cfg <==>
              && ValidConfig(cfg) && SingleConfig(cfg) && KeptReadable(Lines(text), cfg)
              && forall k :: k in cfg ==> Writable(cfg[k])
  {
    var after := Lines(WrittenText(text, cfg, order));
    hide Lines, WrittenText, ActiveOf, CommentedOf, KeptReadable, Writable, Written, ValidConfig, SingleConfig;
    if Readable(after) && ActiveOf(after) == cfg {
      forall i | 0 <= i < |after|
        ensures SingleLine(after[i])
      {
        ScannedLines(WrittenText(text, cfg, order), i);
      }
      ReadSettings(after);
    }
    if ValidConfig(cfg) && SingleConfig(cfg) {
      ScannedAgain(text, cfg, order);
      ReadingDropsReturns(Written(Lines(text), cfg, order));
      WrittenIsActive(Lines(text), cfg, order);
    }
  }

  lemma {:induction false} PlainWithoutReturns(lines: seq<string>)
    ensures PlainLines(DropReturns(lines)) == DropReturns(PlainLines(lines))
  {
    hide Classify, DropCR;
    if lines != [] {
      var n := |lines| - 1;
      assert DropReturns(lines)[..n] == DropReturns(lines[..n]);
      PlainWithoutReturns(lines[..n]);
      ReturnReadsTheSame(lines[n]);
    }
  }

  /** The variables it leaves out are then the commented ones, with the last value they had, and the other lines
      are the same but for a stray carriage return. */
  lemma DroppedInText(text: string, cfg: Settings, order: seq<string>)
    requires ValidConfig(cfg) && SingleConfig(cfg) && KeyOrder(order, cfg)
    ensures var read := Parsed(Lines(WrittenText(text, cfg, order)));
            && (read.Some? <==> KeptReadable(Lines(text), cfg))
            && (read.Some? ==> read.value.1 == DroppedOf(Lines(text), cfg))
    ensures PlainLines(Lines(WrittenText(text, cfg, order))) == DropReturns(PlainLines(Lines(text)))
  {
    hide Lines, WrittenText, ActiveOf, CommentedOf, KeptReadable, Written, ValidConfig, SingleConfig, Readable;
    hide DroppedOf, PlainLines;
    PlainLinesSurvive(Lines(text), cfg, order);
    PlainWithoutReturns(Written(Lines(text), cfg, order));
    ScannedAgain(text, cfg, order);
    ReadingDropsReturns(Written(Lines(text), cfg, order));
    WrittenIsReadable(Lines(text), cfg, order);
    if KeptReadable(Lines(text), cfg) {
      DroppedAreCommented(Lines(text), cfg, order);
    }
  }

  // ----- writing a text twice -------------------------------------------------

  /** A line that writing keeps, commented out if need be. */
  predicate Kept(line: string, cfg: Settings) {
    Classify(line).Plain? || Classify(line).key !in cfg
  }

  predicate EndsInReturn(s: string) { s != "" && s[|s| - 1] == '\r' }

  /** No line that is kept ends in a second carriage return. */
  ghost predicate NoStrayReturn(lines: seq<string>, cfg: Settings) {
    forall i :: 0 <= i < |lines| ==> Kept(lines[i], cfg) ==> !EndsInReturn(lines[i])
  }

  lemma RewriteWithoutReturn(line: string, cfg: Settings)
    requires ValidConfig(cfg)
    ensures var w := RewriteLine(line, cfg);
            RewriteLine(DropCR(w), cfg) == if Kept(line, cfg) then DropCR(w) else w
  {
    hide Classify, Assign, ValidKey, DropCR;
    RewriteKind(line, cfg);
    ReturnReadsTheSame(RewriteLine(line, cfg));
  }

  lemma KeptReturn(line: string, cfg: Settings)
    requires Kept(line, cfg)
    ensures EndsInReturn(RewriteLine(line, cfg)) <==> EndsInReturn(line)
  {
    hide SkipSpace, Assignment, CommentedMatch;
    if Classify(line).Active? {
      assert line != "" by { EmptyIsPlain(); }
      var c := "#" + line;
      assert c[|c| - 1] == line[|line| - 1];
    }
  }

  lemma EmptyIsPlain()
    ensures Classify("").Plain?
  {
  }

  lemma NewWithoutReturn(key: string, cfg: Settings)
    requires ValidConfig(cfg) && key in cfg
    ensures RewriteLine(DropCR(Assign(key, cfg[key])), cfg) == Assign(key, cfg[key])
  {
    hide Classify, Assign, ValidKey, DropCR;
    AssignIsActive(key, cfg[key]);
    ReturnReadsTheSame(Assign(key, cfg[key]));
  }

  /** The lines of the second write. */
  lemma {:induction false} RewrittenAgain(lines: seq<string>, cfg: Settings, order: seq<string>, i: nat)
    requires ValidConfig(cfg) && KeyOrder(order, cfg) && i < |Written(lines, cfg, order)|
    ensures var out := Written(lines, cfg, order);
            RewriteLine(DropCR(out[i]), cfg) == if i < |lines| && Kept(lines[i], cfg) then DropCR(out[i]) else out[i]
    ensures i < |lines| && Kept(lines[i], cfg) ==>
              (DropCR(Written(lines, cfg, order)[i]) == Written(lines, cfg, order)[i] <==> !EndsInReturn(lines[i]))
  {
    hide Written, RewriteLine, Assign, Kept, ValidConfig, KeyOrder, Classify;
    var k := WrittenAt(lines, cfg, order, i);
    if i < |lines| {
      RewriteWithoutReturn(lines[i], cfg);
      if Kept(lines[i], cfg) {
        KeptReturn(lines[i], cfg);
      }
    } else {
      NewWithoutReturn(k, cfg);
    }
  }

  lemma SeenWithoutReturns(lines: seq<string>)
    ensures Seen(DropReturns(lines)) == Seen(lines)
  {
    hide Classify, DropCR;
    var d := DropReturns(lines);
    forall i | 0 <= i < |lines|
      ensures Classify(d[i]).Plain? == Classify(lines[i]).Plain?
      ensures !Classify(d[i]).Plain? ==> Classify(d[i]).key == Classify(lines[i]).key
    {
      ReturnReadsTheSame(lines[i]);
    }
    forall k
      ensures k in Seen(d) <==> k in Seen(lines)
    {
      if k in Seen(d) {
        var i :| 0 <= i < |d| && !Classify(d[i]).Plain? && Classify(d[i]).key == k;
        assert !Classify(lines[i]).Plain?;
      }
      if k in Seen(lines) {
        var i :| 0 <= i < |lines| && !Classify(lines[i]).Plain? && Classify(lines[i]).key == k;
        assert !Classify(d[i]).Plain?;
      }
    }
  }

  lemma {:induction false} ShorterLines(a: seq<string>, b: seq<string>)
    requires |a| == |b| && forall i :: 0 <= i < |a| ==> |a[i]| <= |b[i]|
    ensures |Unlines(a)| <= |Unlines(b)|
    ensures (exists i :: 0 <= i < |a| && |a[i]| < |b[i]|) ==> |Unlines(a)| < |Unlines(b)|
  {
    if a != [] {
      ShorterLines(a[1..], b[1..]);
      if i :| 0 <= i < |a| && |a[i]| < |b[i]| {
        if i > 0 {
          assert a[1..][i - 1] == a[i] && b[1..][i - 1] == b[i];
        }
      }
    }
  }

  /** The second write works on the lines without carriage returns and adds none. */
  lemma {:induction false} SecondText(text: string, cfg: Settings, order: seq<string>, again: seq<string>)
    requires ValidConfig(cfg) && SingleConfig(cfg) && KeyOrder(order, cfg) && KeyOrder(again, cfg)
    ensures WrittenText(WrittenText(text, cfg, order), cfg, again) ==
            Unlines(RewriteAll(DropReturns(Written(Lines(text), cfg, order)), cfg))
  {
    var out := Written(Lines(text), cfg, order);
    hide Lines, Unlines, Written, ValidConfig, SingleConfig, Seen, ActiveKeys, RewriteAll, NewLines, KeyOrder;
    ScannedAgain(text, cfg, order);
    WrittenActiveKeys(Lines(text), cfg, order);
    ActiveIsSeen(out);
    SeenWithoutReturns(out);
    OrderIn(again, cfg);
    NothingNew(cfg, Seen(DropReturns(out)), again);
    NothingAdded(DropReturns(out), cfg, again);
  }

  lemma OrderIn(order: seq<string>, cfg: Settings)
    requires KeyOrder(order, cfg)
    ensures forall k :: k in order ==> k in cfg
  {
  }

  lemma NothingAdded(lines: seq<string>, cfg: Settings, order: seq<string>)
    requires (forall k :: k in order ==> k in cfg) && NewLines(cfg, Seen(lines), order) == []
    ensures Written(lines, cfg, order) == RewriteAll(lines, cfg)
  {
    hide RewriteAll, NewLines, Seen;
    assert RewriteAll(lines, cfg) + [] == RewriteAll(lines, cfg);
  }

  /** Writing the same configuration again changes no character, if and only if no kept line ends in a stray
      carriage return: scanning takes it for part of the line end. */
  lemma {:induction false} TextIsIdempotent(text: string, cfg: Settings, order: seq<string>, again: seq<string>)
    requires ValidConfig(cfg) && SingleConfig(cfg) && KeyOrder(order, cfg) && KeyOrder(again, cfg)
    ensures WrittenText(WrittenText(text, cfg, order), cfg, again) == WrittenText(text, cfg, order) <==>
            NoStrayReturn(Lines(text), cfg)
  {
    var lines := Lines(text);
    var out := Written(lines, cfg, order);
    var second := RewriteAll(DropReturns(out), cfg);
    hide Lines, Unlines, Written, ValidConfig, SingleConfig, RewriteLine, Kept, EndsInReturn;
    SecondText(text, cfg, order, again);
    assert |lines| <= |out| by { WrittenLength(lines, cfg, order); }
    forall i | 0 <= i < |out|
      ensures second[i] == if i < |lines| && Kept(lines[i], cfg) then DropCR(out[i]) else out[i]
      ensures i < |lines| && Kept(lines[i], cfg) ==> (second[i] == out[i] <==> !EndsInReturn(lines[i]))
    {
      RewrittenAgain(lines, cfg, order, i);
    }
    if NoStrayReturn(lines, cfg) {
      assert second == out;
    } else {
      var i :| 0 <= i < |lines| && Kept(lines[i], cfg) && EndsInReturn(lines[i]);
      assert |second[i]| < |out[i]|;
      ShorterLines(second, out);
    }
  }
}
