/** Which lines of a settings file are assignments, and what their right-hand sides mean, spelled out as texts
    (server/config/parser.go lines 22-23 and 162-195). */
module ConfigSyntax {
  import opened DriveTypes
  import opened Config

  // ----- lines --------------------------------------------------------------

  /** Blanks of the two patterns: space, tab, newline, form feed, carriage return. */
  ghost predicate Blank(c: char) { c as int in {32, 9, 10, 12, 13} }

  ghost predicate Blanks(s: string) { forall i :: 0 <= i < |s| ==> Blank(s[i]) }

  ghost predicate Letter(c: char) { 'A' <= c <= 'Z' || 'a' <= c <= 'z' || c == '_' }

  /** A name: letters, digits and underscores, no digit first. */
  ghost predicate Name(key: string) {
    key != "" && Letter(key[0]) && forall i :: 0 <= i < |key| ==> Letter(key[i]) || '0' <= key[i] <= '9'
  }

  lemma BlankIs(c: char)
    ensures RegexSpace(c) <==> Blank(c)
  {
  }

  lemma NameIs(key: string)
    ensures ValidKey(key) <==> Name(key)
  {
  }

  lemma {:induction false} SkipIs(a: string, rest: string)
    requires Blanks(a) && (rest == "" || !RegexSpace(rest[0]))
    ensures SkipSpace(a + rest) == rest
  {
    hide RegexSpace, Blank, SkipSpace;
    SkipStep(a + rest);
    if a == "" {
      assert a + rest == rest;
    } else {
      BlankIs(a[0]);
      assert (a + rest)[1..] == a[1..] + rest;
      SkipIs(a[1..], rest);
    }
  }

  lemma {:induction false} SkippedPart(s: string) returns (a: string)
    ensures Blanks(a) && s == a + SkipSpace(s)
  {
    hide RegexSpace, Blank, SkipSpace;
    a := "";
    SkipStep(s);
    if s != "" {
      BlankIs(s[0]);
      if RegexSpace(s[0]) {
        var b := SkippedPart(s[1..]);
        a := [s[0]] + b;
        assert s == [s[0]] + s[1..];
      }
    }
  }

  lemma SkipStep(s: string)
    ensures SkipSpace(s) == if s != "" && RegexSpace(s[0]) then SkipSpace(s[1..]) else s
  {
    hide RegexSpace;
  }

  /** The text of an assignment. */
  ghost function Text(a: string, b: string, key: string, raw: string): string {
    a + ("export" + (b + (key + ("=" + raw))))
  }

  lemma {:induction false} KeyRunIs(key: string, raw: string)
    requires forall i :: 0 <= i < |key| ==> KeyChar(key[i])
    ensures KeyRun(key + ("=" + raw)) == |key|
  {
    hide KeyChar;
    if key == "" {
      assert !KeyChar('=') by { EqualsIsNoKeyChar(); }
      assert key + ("=" + raw) == "=" + raw;
    } else {
      assert (key + ("=" + raw))[1..] == key[1..] + ("=" + raw);
      KeyRunIs(key[1..], raw);
    }
  }

  /** A text of this form is an assignment with that name and right-hand side. */
  lemma {:induction false} TextMatches(a: string, b: string, key: string, raw: string)
    requires Blanks(a) && Blanks(b) && b != "" && Name(key)
    ensures ExportMatch(Text(a, b, key, raw)) == Some((key, raw))
  {
    hide SkipSpace, RegexSpace, Assignment, Name, Blank, ExportMatch, EXPORT;
    var c := key + ("=" + raw);
    var tail := b + c;
    ExportWord(tail);
    SkipIs(a, "export" + tail);
    BlankIs(b[0]);
    AssignmentOf(key, raw);
    SkipIs(b, c);
    ExportUnfolds(a + ("export" + tail), "export" + tail, tail);
  }

  lemma ExportWord(tail: string)
    ensures !RegexSpace(("export" + tail)[0])
    ensures ("export" + tail)[..6] == EXPORT && ("export" + tail)[6..] == tail
  {
    hide Blank;
    var word := "export";
    assert (word + tail)[0] == 'e' && |word| == 6;
    assert (word + tail)[..6] == word && (word + tail)[6..] == tail;
  }

  lemma {:induction false} AssignmentOf(key: string, raw: string)
    requires Name(key)
    ensures var c := key + ("=" + raw);
            c != "" && !RegexSpace(c[0]) && Assignment(c) == Some((key, raw))
  {
    hide KeyRun, KeyChar;
    NameIs(key);
    var c := key + ("=" + raw);
    KeyRunIs(key, raw);
    assert c[0] == key[0] && c[|key|] == '=';
    assert c[..|key|] == key && c[|key| + 1..] == raw;
  }

  lemma ExportUnfolds(line: string, t: string, tail: string)
    requires SkipSpace(line) == t && |t| > 6 && t[..6] == EXPORT && t[6..] == tail && RegexSpace(tail[0])
    ensures ExportMatch(line) == Assignment(SkipSpace(tail))
  {
    hide SkipSpace, RegexSpace, Assignment, EXPORT;
  }

  /** And every assignment is such a text. */
  lemma {:induction false} MatchIsText(line: string) returns (a: string, b: string)
    requires ExportMatch(line).Some?
    ensures Blanks(a) && Blanks(b) && b != "" && Name(ExportMatch(line).value.0)
    ensures line == Text(a, b, ExportMatch(line).value.0, ExportMatch(line).value.1)
  {
    hide SkipSpace, KeyRun, RegexSpace, KeyStart, KeyChar;
    a := SkippedPart(line);
    var t := SkipSpace(line);
    var u := t[6..];
    b := SkippedPart(u);
    var c := SkipSpace(u);
    assert b != "" by {
      if b == "" {
        SkipStarts(u);
      }
    }
    var key, raw := ExportMatch(line).value.0, ExportMatch(line).value.1;
    NameIs(key);
    assert t == "export" + u;
    assert c == key + ("=" + raw);
  }

  lemma SkipStarts(s: string)
    requires s != "" && RegexSpace(s[0])
    ensures SkipSpace(s) != s
  {
    ShorterSkip(s[1..]);
  }

  lemma {:induction false} ShorterSkip(s: string)
    ensures |SkipSpace(s)| <= |s|
  {
    if s != "" && RegexSpace(s[0]) {
      ShorterSkip(s[1..]);
    }
  }

  /** A line is active exactly when it is the text of an assignment. */
  lemma {:induction false} ActiveMeans(line: string, key: string, raw: string)
    ensures Classify(line) == Active(key, raw) <==>
            exists a, b :: Blanks(a) && Blanks(b) && b != "" && Name(key) && line == Text(a, b, key, raw)
  {
    if ExportMatch(line) == Some((key, raw)) {
      var a, b := MatchIsText(line);
    }
    if a, b :| Blanks(a) && Blanks(b) && b != "" && Name(key) && line == Text(a, b, key, raw) {
      TextMatches(a, b, key, raw);
    }
    hide ExportMatch, CommentedMatch, Blanks, Name, Text;
  }

  /** A line is a commented assignment exactly when after blanks and a hash sign the rest is the text of one. */
  lemma {:induction false} CommentedMeans(line: string, key: string, raw: string)
    ensures Classify(line) == Commented(key, raw) <==>
            exists a, rest :: Blanks(a) && line == a + ("#" + rest) && Classify(rest) == Active(key, raw)
  {
    hide ExportMatch, CommentedMatch, Blanks;
    if Classify(line) == Commented(key, raw) {
      var a, rest := CommentedSplits(line);
      CommentedRest(line, a, rest);
    }
    if a, rest :| Blanks(a) && line == a + ("#" + rest) && Classify(rest) == Active(key, raw) {
      CommentedRest(line, a, rest);
    }
  }

  lemma CommentedSplits(line: string) returns (a: string, rest: string)
    requires CommentedMatch(line).Some?
    ensures Blanks(a) && line == a + ("#" + rest)
  {
    hide ExportMatch, Blanks, SkipSpace;
    a := SkippedPart(line);
    var t := SkipSpace(line);
    rest := t[1..];
    assert t == "#" + rest;
  }

  lemma CommentedRest(line: string, a: string, rest: string)
    requires Blanks(a) && line == a + ("#" + rest)
    ensures CommentedMatch(line) == ExportMatch(rest) && ExportMatch(line).None?
  {
    hide Assignment, Blanks;
    HashIsNoBlank(rest);
    SkipIs(a, "#" + rest);
    assert ("#" + rest)[1..] == rest;
    hide SkipSpace;
  }

  lemma HashIsNoBlank(rest: string)
    ensures !RegexSpace(("#" + rest)[0])
  {
  }

  // ----- right-hand sides ---------------------------------------------------

  /** White space of Unicode. */
  ghost predicate White(c: char) {
    || '\t' <= c <= '\r' || c as int in {0x20, 0x85, 0xA0, 0x1680, 0x2028, 0x2029, 0x202F, 0x205F, 0x3000}
    || 0x2000 <= c as int <= 0x200A
  }

  ghost predicate AllWhite(s: string) { forall i :: 0 <= i < |s| ==> White(s[i]) }

  lemma WhiteIs(c: char)
    ensures IsSpace(c) <==> White(c)
  {
  }

  lemma {:induction false} LeftTrimmed(s: string) returns (a: string)
    ensures AllWhite(a) && s == a + TrimLeft(s) && (TrimLeft(s) != "" ==> !White(TrimLeft(s)[0]))
  {
    hide IsSpace, White, TrimLeft;
    a := "";
    TrimLeftStep(s);
    if s != "" {
      WhiteIs(s[0]);
      if IsSpace(s[0]) {
        var b := LeftTrimmed(s[1..]);
        a := [s[0]] + b;
        assert s == [s[0]] + s[1..];
      }
    }
  }

  lemma {:induction false} RightTrimmed(s: string) returns (b: string)
    ensures AllWhite(b) && s == TrimRight(s) + b
    ensures TrimRight(s) != "" ==> TrimRight(s)[0] == s[0] && !White(TrimRight(s)[|TrimRight(s)| - 1])
  {
    hide IsSpace, White, TrimRight;
    b := "";
    TrimStep(s);
    if s != "" {
      var n := |s| - 1;
      WhiteIs(s[n]);
      if IsSpace(s[n]) {
        var c := RightTrimmed(s[..n]);
        b := c + [s[n]];
        assert s == s[..n] + [s[n]];
      }
    }
  }

  lemma TrimLeftStep(s: string)
    ensures TrimLeft(s) == if s != "" && IsSpace(s[0]) then TrimLeft(s[1..]) else s
  {
    hide IsSpace;
  }

  lemma TrimStep(s: string)
    ensures TrimRight(s) == if s != "" && IsSpace(s[|s| - 1]) then TrimRight(s[..|s| - 1]) else s
  {
    hide IsSpace;
  }

  /** Trimming takes off white space at both ends and nothing else. */
  lemma {:induction false} TrimMeans(s: string) returns (a: string, b: string)
    ensures s == a + Trim(s) + b && AllWhite(a) && AllWhite(b)
    ensures Trim(s) != "" ==> !White(Trim(s)[0]) && !White(Trim(s)[|Trim(s)| - 1])
  {
    hide White, TrimLeft, TrimRight;
    a := LeftTrimmed(s);
    b := RightTrimmed(TrimLeft(s));
  }

  /** The characters that make a value be quoted. */
  const SPECIALS := " \t'\"\\$!#&|;(){}[]<>?*~`"

  lemma SpecialIs(c: char)
    ensures SpecialChar(c) <==> c in SPECIALS
  {
  }

  /** A value is written bare exactly when it is not empty and has none of the special characters, and in single quotes
      otherwise; every single quote in it becomes '\''. */
  lemma {:induction false} QuoteMeans(v: string)
    ensures Quote(v) == v <==> v != "" && forall i :: 0 <= i < |v| ==> v[i] !in SPECIALS
    ensures Quote(v) != v ==> Quote(v) == "'" + Joined(v) + "'"
  {
    forall i | 0 <= i < |v|
      ensures SpecialChar(v[i]) <==> v[i] in SPECIALS
    {
      SpecialIs(v[i]);
    }
    JoinedIs(v);
    hide SpecialChar, SPECIALS, EscapeQuotes;
    if v == "" {
      assert "'" + "" + "'" == "''";
    }
  }

  /** A character as the shell wants it between single quotes. */
  ghost function Piece(c: char): string { if c == '\'' then "'\\''" else [c] }

  /** The value piece by piece. */
  ghost function Joined(v: string): string {
    if v == "" then "" else Joined(v[..|v| - 1]) + Piece(v[|v| - 1])
  }

  lemma EscapeStep(v: string)
    requires v != ""
    ensures EscapeQuotes(v) == Piece(v[0]) + EscapeQuotes(v[1..])
  {
  }

  lemma {:induction false} EscapeSnoc(v: string, c: char)
    ensures EscapeQuotes(v + [c]) == EscapeQuotes(v) + Piece(c)
  {
    hide EscapeQuotes, Piece;
    EscapeStep(v + [c]);
    if v == "" {
      assert v + [c] == [c];
      assert [c][1..] == "";
      NothingEscaped();
    } else {
      assert (v + [c])[1..] == v[1..] + [c];
      EscapeStep(v);
      EscapeSnoc(v[1..], c);
    }
  }

  lemma NothingEscaped()
    ensures EscapeQuotes("") == ""
  {
  }

  lemma {:induction false} JoinedIs(v: string)
    ensures EscapeQuotes(v) == Joined(v)
  {
    hide EscapeQuotes, Piece;
    if v == "" {
      NothingEscaped();
    } else {
      var n := |v| - 1;
      JoinedIs(v[..n]);
      EscapeSnoc(v[..n], v[n]);
      assert v == v[..n] + [v[n]];
    }
  }

  /** An inline comment begins at `i`: a hash sign after a space or a tab. */
  ghost predicate CommentAt(s: string, i: nat) {
    1 <= i < |s| && s[i] == '#' && (s[i - 1] == ' ' || s[i - 1] == '\t')
  }

  /** A trimmed right-hand side in quotes of either kind is what they enclose; in $'...' that, unless only the three
      characters' overlap is left; otherwise it is cut before the first inline comment. */
  lemma {:induction false} UnquotedMeans(raw: string, i: nat)
    ensures var s := Trim(raw);
            var quoted := |s| >= 2 && (s[0] == s[|s| - 1] == '\'' || s[0] == s[|s| - 1] == '"');
            var dollar := |s| >= 2 && s[..2] == "$'" && s[|s| - 1] == '\'';
            && (quoted ==> Unquoted(raw) == Some(s[1..|s| - 1]))
            && (!quoted && dollar ==> Unquoted(raw) == if s == "$'" then None else Some(s[2..|s| - 1]))
            && (!quoted && !dollar && (forall k :: !CommentAt(s, k)) ==> Unquoted(raw) == Some(s))
            && (!quoted && !dollar && CommentAt(s, i) && (forall k :: 0 <= k < i ==> !CommentAt(s, k)) ==>
                  Unquoted(raw) == Some(Trim(s[..i - 1])))
  {
    hide Trim;
    var s := Trim(raw);
    if forall k :: !CommentAt(s, k) {
      NoComment(s, 1);
    }
    if CommentAt(s, i) && forall k :: 0 <= k < i ==> !CommentAt(s, k) {
      FirstComment(s, 1, i);
    }
    hide StripComment;
    assert |s| == 2 && s[..2] == "$'" ==> s == "$'";
  }

  lemma {:induction false} NoComment(s: string, i: nat)
    requires i >= 1 && forall k :: !CommentAt(s, k)
    ensures StripComment(s, i) == s
    decreases |s| - i
  {
    if i < |s| {
      assert !CommentAt(s, i);
      NoComment(s, i + 1);
    }
  }

  lemma {:induction false} FirstComment(s: string, j: nat, i: nat)
    requires 1 <= j <= i && CommentAt(s, i) && forall k :: 0 <= k < i ==> !CommentAt(s, k)
    ensures StripComment(s, j) == Trim(s[..i - 1])
    decreases i - j
  {
    if j < i {
      assert !CommentAt(s, j);
      FirstComment(s, j + 1, i);
    }
  }

  // ----- the written file ---------------------------------------------------

  ghost predicate Mentioned(lines: seq<string>, key: string) {
    exists i :: 0 <= i < |lines| && !Classify(lines[i]).Plain? && Classify(lines[i]).key == key
  }

  /** What becomes of the line `i`: an assignment to a configured variable, commented out or not, is replaced by the
      plain one; an active one to another variable gets a hash sign in front; anything else stays. */
  lemma {:induction false} LineBecomes(lines: seq<string>, cfg: Settings, order: seq<string>, i: nat)
    requires (forall k :: k in order ==> k in cfg) && i < |lines|
    ensures i < |Written(lines, cfg, order)|
    ensures var line, out := lines[i], Written(lines, cfg, order)[i];
            match Classify(line)
            case Plain => out == line
            case Active(key, _) =>
              if key in cfg then out == "export " + key + "=" + Quote(cfg[key]) else out == "#" + line
            case Commented(key, _) =>
              if key in cfg then out == "export " + key + "=" + Quote(cfg[key]) else out == line
  {
    hide Classify, Quote;
  }

  /** A configured variable that the old file does not mention. */
  ghost predicate IsNew(lines: seq<string>, cfg: Settings, key: string) { key in cfg && !Mentioned(lines, key) }

  lemma SeenMentions(lines: seq<string>)
    ensures forall k :: k in Seen(lines) <==> Mentioned(lines, k)
  {
    hide Classify;
  }

  lemma AssignIs(key: string, v: string)
    ensures Assign(key, v) == "export " + key + "=" + Quote(v)
  {
    hide Quote;
  }

  /** After the lines of the old file come assignments to variables that are new, each of them once. */
  lemma {:induction false} NewLineIs(lines: seq<string>, cfg: Settings, order: seq<string>, j: nat) returns (k: string)
    requires KeyOrder(order, cfg) && |lines| <= j < |Written(lines, cfg, order)|
    ensures IsNew(lines, cfg, k) && Written(lines, cfg, order)[j] == "export " + k + "=" + Quote(cfg[k])
  {
    hide Seen, Mentioned, Quote, RewriteLine, NewLines, Assign;
    SeenMentions(lines);
    k := NewLineAt(cfg, Seen(lines), order, j - |lines|);
    AssignIs(k, cfg[k]);
  }

  lemma {:induction false} EveryNewLine(lines: seq<string>, cfg: Settings, order: seq<string>, k: string)
    returns (j: nat)
    requires KeyOrder(order, cfg) && IsNew(lines, cfg, k)
    ensures |lines| <= j < |Written(lines, cfg, order)|
    ensures Written(lines, cfg, order)[j] == "export " + k + "=" + Quote(cfg[k])
    ensures |Written(lines, cfg, order)| == |lines| + |set q | q in cfg && IsNew(lines, cfg, q)|
  {
    hide Seen, Mentioned, Quote, RewriteLine, NewLines, Assign;
    SeenMentions(lines);
    var i := NewLineFor(cfg, Seen(lines), order, k);
    j := |lines| + i;
    AssignIs(k, cfg[k]);
    NewCount(cfg, Seen(lines), order);
    assert (set q | q in cfg && IsNew(lines, cfg, q)) == NewKeys(Seen(lines), order);
  }

  lemma {:induction false} NewCount(cfg: Settings, seen: set<string>, order: seq<string>)
    requires (forall k :: k in order ==> k in cfg) && forall i, j :: 0 <= i < j < |order| ==> order[i] != order[j]
    ensures |NewLines(cfg, seen, order)| == |NewKeys(seen, order)|
  {
    hide NewLines, NewKeys;
    NewStep(cfg, seen, order);
    NewKeysStep(seen, order);
    if order != [] {
      NewCount(cfg, seen, order[..|order| - 1]);
    }
  }

  ghost function NewKeys(seen: set<string>, order: seq<string>): set<string> {
    set k | k in order && k !in seen
  }

  lemma NewKeysStep(seen: set<string>, order: seq<string>)
    requires forall i, j :: 0 <= i < j < |order| ==> order[i] != order[j]
    ensures |NewKeys(seen, order)| ==
            if order == [] then 0
            else |NewKeys(seen, order[..|order| - 1])| + if order[|order| - 1] in seen then 0 else 1
  {
    if order != [] {
      var front, last := order[..|order| - 1], order[|order| - 1];
      assert order == front + [last];
      assert NewKeys(seen, order) == NewKeys(seen, front) + if last in seen then {} else {last};
    }
  }

  lemma NewStep(cfg: Settings, seen: set<string>, order: seq<string>)
    requires forall k :: k in order ==> k in cfg
    ensures |NewLines(cfg, seen, order)| ==
            if order == [] then 0
            else |NewLines(cfg, seen, order[..|order| - 1])| + if order[|order| - 1] in seen then 0 else 1
  {
  }
}
