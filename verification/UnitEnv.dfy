/** The environment baked into the systemd user unit: rendering it, reading it back, and
    carrying it over when the unit is rewritten. */
module UnitEnv {
  import opened Options
  import opened Text

  datatype EnvVar = EnvVar(key: string, value: string)

  const DATA_DIR := "MULTIMUX_DATA_DIR"
  const HOSTNAME := "MULTIMUX_HOSTNAME"
  const CAPTURED := [DATA_DIR, HOSTNAME]

  const DEFAULT_PATH := "/opt/homebrew/bin:/usr/local/bin:/usr/bin:/bin:/usr/sbin:/sbin"

  // ------------------------------------------------------------------- escaping

  function EscapeChar(c: char): string {
    if c == '\\' then "\\\\" else if c == '"' then "\\\"" else if c == '%' then "%%" else [c]
  }

  /** strings.NewReplacer: one pass, character by character. */
  function Escape(s: string): string {
    if s == "" then "" else EscapeChar(s[0]) + Escape(s[1..])
  }

  /** How many characters the next written one takes. */
  function Width(s: string): nat
    requires s != ""
  {
    if |s| > 1 && (s[0] == '\\' || (s[0] == '%' && s[1] == '%')) then 2 else 1
  }

  function Unescape(s: string): string {
    if s == "" then "" else [s[Width(s) - 1]] + Unescape(s[Width(s)..])
  }

  /** With everything before i undone in `text`, the next character as written. */
  lemma UnescapeStep(s: string, i: nat, text: string)
    requires i < |s| && text + Unescape(s[i..]) == Unescape(s)
    ensures
      var w := Width(s[i..]);
      i + w <= |s| && text + [s[i + w - 1]] + Unescape(s[i + w..]) == Unescape(s)
  {
    var rest := s[i..];
    var w := Width(rest);
    UnescapeFirst(rest);
    RestOfRest(s, i, w);
    Regroup(text, [rest[w - 1]], Unescape(rest[w..]));
  }

  lemma UnescapeFirst(rest: string)
    requires rest != ""
    ensures Unescape(rest) == [rest[Width(rest) - 1]] + Unescape(rest[Width(rest)..])
  {
  }

  lemma RestOfRest(s: string, i: nat, w: nat)
    requires i + w <= |s|
    ensures s[i..][w..] == s[i + w..]
  {
  }

  method SystemdUnescape(s: string) returns (text: string)
    ensures text == Unescape(s)
  {
    text := "";
    var i := 0;
    assert s[0..] == s;
    while i < |s|
      invariant 0 <= i <= |s|
      invariant text + Unescape(s[i..]) == Unescape(s)
    {
      UnescapeStep(s, i, text);
      if s[i] == '\\' && i + 1 < |s| {
        i := i + 1;
        text := text + [s[i]];
        i := i + 1;
        continue;
      }
      if s[i] == '%' && i + 1 < |s| && s[i + 1] == '%' {
        i := i + 1;
        text := text + ['%'];
        i := i + 1;
        continue;
      }
      text := text + [s[i]];
      i := i + 1;
    }
    assert s[i..] == "";
  }

  /** Both layers of escaping are undone for every value. */
  lemma {:induction false} UnescapeEscape(s: string)
    ensures Unescape(Escape(s)) == s
  {
    if s != "" {
      var c, tail := s[0], Escape(s[1..]);
      UnescapeEscape(s[1..]);
      var text := EscapeChar(c) + tail;
      assert text[|EscapeChar(c)|..] == tail;
      assert text[|EscapeChar(c)| - 1] == c;
      assert Width(text) == |EscapeChar(c)|;
    }
  }

  /** To systemd: text inside a quoted word, in which no quote ends the word, a backslash
      stands before what it escapes and no specifier is left to expand. */
  predicate Quotable(s: string)
    decreases |s|
  {
    if s == "" then true
    else if s[0] == '\\' then |s| > 1 && Quotable(s[2..])
    else if s[0] == '%' then |s| > 1 && s[1] == '%' && Quotable(s[2..])
    else s[0] != '"' && Quotable(s[1..])
  }

  lemma {:induction false} EscapedIsQuotable(s: string)
    ensures Quotable(Escape(s))
  {
    if s != "" {
      var tail := Escape(s[1..]);
      EscapedIsQuotable(s[1..]);
      var text := EscapeChar(s[0]) + tail;
      assert text[|EscapeChar(s[0])|..] == tail;
    }
  }

  lemma {:induction false} EscapeKeepsOut(s: string, c: char)
    requires c !in s && c != '\\' && c != '"' && c != '%'
    ensures c !in Escape(s)
  {
    if s != "" { EscapeKeepsOut(s[1..], c); }
  }

  // ------------------------------------------------------------------ validation

  predicate KeyChar(c: char) {
    c == '_' || 'a' <= c <= 'z' || 'A' <= c <= 'Z' || '0' <= c <= '9'
  }

  predicate Control(c: char) {
    c == '\n' || c == '\r' || c as int == 0
  }

  predicate ValidKey(key: string) {
    key != "" && (forall c :: c in key ==> KeyChar(c)) && !('0' <= key[0] <= '9')
  }

  predicate ValidValue(value: string) {
    forall c :: c in value ==> !Control(c)
  }

  predicate ValidEnv(e: EnvVar) {
    ValidKey(e.key) && ValidValue(e.value)
  }

  method ValidateEnv(e: EnvVar) returns (ok: bool)
    ensures ok == ValidEnv(e)
    ensures ok <==>
      && e.key != "" && !('0' <= e.key[0] <= '9')
      && (forall c :: c in e.key ==> 'a' <= c <= 'z' || 'A' <= c <= 'Z' || '0' <= c <= '9' || c == '_')
      && '\n' !in e.value && '\r' !in e.value && '\0' !in e.value
  {
    if e.key == "" {
      return false;
    }
    for i := 0 to |e.key|
      invariant forall c :: c in e.key[..i] ==> KeyChar(c)
    {
      if !KeyChar(e.key[i]) {
        return false;
      }
      assert e.key[..i + 1] == e.key[..i] + [e.key[i]];
    }
    assert e.key[..|e.key|] == e.key;
    if '0' <= e.key[0] <= '9' {
      return false;
    }
    for i := 0 to |e.value|
      invariant forall c :: c in e.value[..i] ==> !Control(c)
    {
      if Control(e.value[i]) {
        return false;
      }
      assert e.value[..i + 1] == e.value[..i] + [e.value[i]];
    }
    assert e.value[..|e.value|] == e.value;
    ok := true;
  }

  // ------------------------------------------------------------------- rendering

  const ENVIRONMENT := "Environment="

  function EnvLine(e: EnvVar): string {
    ENVIRONMENT + "\"" + e.key + "=" + Escape(e.value) + "\""
  }

  /** Each line with its newline. */
  function Joined(lines: seq<string>): string {
    if lines == [] then "" else Joined(lines[..|lines| - 1]) + lines[|lines| - 1] + "\n"
  }

  function EnvLines(env: seq<EnvVar>): seq<string> {
    if env == [] then [] else EnvLines(env[..|env| - 1]) + [EnvLine(env[|env| - 1])]
  }

  predicate Representable(env: seq<EnvVar>) {
    forall i :: 0 <= i < |env| ==> ValidEnv(env[i])
  }

  /** The environment block, line by line. */
  function Block(env: seq<EnvVar>): string {
    if env == [] then "" else Block(env[..|env| - 1]) + EnvLine(env[|env| - 1]) + "\n"
  }

  lemma BlockStep(env: seq<EnvVar>, i: nat)
    requires i < |env|
    ensures Block(env[..i + 1]) == Block(env[..i]) + EnvLine(env[i]) + "\n"
  {
    assert env[..i + 1][..i] == env[..i];
  }

  lemma RepresentableStep(env: seq<EnvVar>, i: nat)
    requires i < |env| && Representable(env[..i]) && ValidEnv(env[i])
    ensures Representable(env[..i + 1])
  {
  }

  method RenderEnv(env: seq<EnvVar>) returns (block: Option<string>)
    ensures block == if Representable(env) then Some(Block(env)) else None
  {
    var b := "";
    for i := 0 to |env|
      invariant Representable(env[..i]) && b == Block(env[..i])
    {
      var ok := ValidateEnv(env[i]);
      if !ok {
        return None;
      }
      RepresentableStep(env, i);
      BlockStep(env, i);
      b := b + EnvLine(env[i]) + "\n";
    }
    assert env[..|env|] == env;
    block := Some(b);
  }

  lemma {:induction false} BlockIsLines(env: seq<EnvVar>)
    ensures Block(env) == Joined(EnvLines(env))
  {
    if env != [] {
      BlockIsLines(env[..|env| - 1]);
      JoinedSnoc(EnvLines(env[..|env| - 1]), EnvLine(env[|env| - 1]));
    }
  }

  lemma JoinedSnoc(lines: seq<string>, line: string)
    ensures Joined(lines + [line]) == Joined(lines) + line + "\n"
  {
    assert (lines + [line])[..|lines|] == lines;
  }

  const DESCRIPTION := "Description=multimux terminal session daemon"

  function Header(execPath: string): seq<string> {
    ["[Unit]", DESCRIPTION, "", "[Service]", "ExecStart=\"" + execPath + "\" serve"]
  }

  /** The two lines of the comment, in two parts each. */
  const SIGNAL_NOTE := "# Signal only the daemon on stop;"
  const SERVER_NOTE := " the tmux server lives in this cgroup and"
  const SURVIVAL_NOTE := "# must survive service stop/restart"
  const UPGRADE_NOTE := " and binary upgrades."

  const FOOTER := [
    "Restart=on-failure", SIGNAL_NOTE + SERVER_NOTE, SURVIVAL_NOTE + UPGRADE_NOTE,
    "KillMode=process", "", "[Install]", "WantedBy=default.target"]

  function UnitLines(execPath: string, env: seq<EnvVar>): seq<string> {
    Header(execPath) + EnvLines(env) + FOOTER
  }

  function UnitContent(execPath: string, env: seq<EnvVar>): string {
    Joined(UnitLines(execPath, env))
  }

  // --------------------------------------------------------------------- parsing

  /** strings.Split(s, "\n"). */
  function Lines(s: string): (lines: seq<string>)
    ensures lines != []
  {
    if s == "" then [""]
    else if s[0] == '\n' then [""] + Lines(s[1..])
    else
      var rest := Lines(s[1..]);
      [[s[0]] + rest[0]] + rest[1..]
  }

  function CutPrefix(s: string, prefix: string): Option<string> {
    if prefix <= s then Some(s[|prefix|..]) else None
  }

  /** Without one quote in front, then without one behind. */
  function Unquote(s: string): string {
    var t := if s != "" && s[0] == '"' then s[1..] else s;
    if t != "" && t[|t| - 1] == '"' then t[..|t| - 1] else t
  }

  /** What is before the first `=`; all of it if there is none. */
  function BeforeEq(s: string): (key: string)
    ensures key <= s && '=' !in key && (|key| < |s| ==> s[|key|] == '=')
  {
    if s == "" || s[0] == '=' then "" else [s[0]] + BeforeEq(s[1..])
  }

  /** A line that is no assignment is skipped. */
  function ParseLine(line: string): Option<EnvVar> {
    var rest := CutPrefix(Trim(line), ENVIRONMENT);
    if rest.None? then None
    else
      var text := Unquote(rest.value);
      var key := BeforeEq(text);
      if |key| == |text| || key == "" then None else Some(EnvVar(key, Unescape(text[|key| + 1..])))
  }

  function ParseLines(lines: seq<string>): seq<EnvVar> {
    if lines == [] then []
    else
      var e := ParseLine(lines[|lines| - 1]);
      ParseLines(lines[..|lines| - 1]) + if e.Some? then [e.value] else []
  }

  function Parse(unit: string): seq<EnvVar> {
    ParseLines(Lines(unit))
  }

  method SplitLines(s: string) returns (lines: seq<string>)
    ensures lines == Lines(s)
  {
    lines := [];
    var line := "";
    assert s[0..] == s;
    assert "" + Lines(s)[0] == Lines(s)[0];
    assert Lines(s) == [] + ([("" + Lines(s)[0])] + Lines(s)[1..]);
    for i := 0 to |s|
      invariant Lines(s) == lines + ([line + Lines(s[i..])[0]] + Lines(s[i..])[1..])
    {
      ghost var rest := s[i..];
      assert rest[1..] == s[i + 1..];
      ghost var more := Lines(rest[1..]);
      if s[i] == '\n' {
        assert Lines(rest)[0] == "" && Lines(rest)[1..] == more;
        assert line + "" == line;
        lines := lines + [line];
        line := "";
        assert "" + more[0] == more[0];
        assert more == ["" + more[0]] + more[1..];
      } else {
        assert line + ([s[i]] + more[0]) == line + [s[i]] + more[0];
        line := line + [s[i]];
      }
    }
    assert s[|s|..] == "";
    assert line + "" == line;
    lines := lines + [line];
  }

  lemma ParseOneMore(lines: seq<string>, i: nat)
    requires i < |lines|
    ensures
      var e := ParseLine(lines[i]);
      ParseLines(lines[..i + 1]) == ParseLines(lines[..i]) + if e.Some? then [e.value] else []
  {
    assert lines[..i + 1][..i] == lines[..i];
  }

  method ReadLine(line: string) returns (e: Option<EnvVar>)
    ensures e == ParseLine(line)
  {
    var rest := CutPrefix(Trim(line), ENVIRONMENT);
    if rest.None? {
      return None;
    }
    var text := Unquote(rest.value);
    var key := BeforeEq(text);
    if |key| == |text| || key == "" {
      return None;
    }
    var value := SystemdUnescape(text[|key| + 1..]);
    e := Some(EnvVar(key, value));
  }

  method ParseSystemdEnv(unit: string) returns (env: seq<EnvVar>)
    ensures env == Parse(unit)
  {
    env := [];
    var lines := SplitLines(unit);
    for i := 0 to |lines|
      invariant env == ParseLines(lines[..i])
    {
      ParseOneMore(lines, i);
      var e := ReadLine(lines[i]);
      if e.None? {
        continue;
      }
      env := env + [e.value];
    }
    assert lines[..|lines|] == lines;
  }

  // ------------------------------------------------------------------ round trip

  lemma {:induction false} LinesOfLine(line: string, rest: string)
    requires '\n' !in line
    ensures Lines(line + "\n" + rest) == [line] + Lines(rest)
  {
    var text := line + "\n" + rest;
    if line == "" {
      assert text[0] == '\n' && text[1..] == rest;
    } else {
      LinesOfLine(line[1..], rest);
      assert text[0] == line[0] && text[1..] == line[1..] + "\n" + rest;
      assert [line[0]] + line[1..] == line;
    }
  }

  lemma RegroupLine(before: string, line: string, rest: string)
    ensures before + line + "\n" + rest == before + (line + "\n" + rest)
  {
  }

  lemma {:induction false} LinesOfJoined(lines: seq<string>, rest: string)
    requires forall l :: l in lines ==> '\n' !in l
    ensures Lines(Joined(lines) + rest) == lines + Lines(rest)
  {
    if lines == [] {
      assert "" + rest == rest;
      assert [] + Lines(rest) == Lines(rest);
    } else {
      var init, last := lines[..|lines| - 1], lines[|lines| - 1];
      LinesOfJoined(init, last + "\n" + rest);
      LinesOfLine(last, rest);
      RegroupLine(Joined(init), last, rest);
      FrontAndLast(lines);
      Regroup(init, [last], Lines(rest));
    }
  }

  lemma {:induction false} ParseConcat(a: seq<string>, b: seq<string>)
    ensures ParseLines(a + b) == ParseLines(a) + ParseLines(b)
  {
    if b == [] {
      assert a + b == a;
    } else {
      assert (a + b)[..|a + b| - 1] == a + b[..|b| - 1];
      ParseConcat(a, b[..|b| - 1]);
    }
  }

  lemma {:induction false} KeyEndsAtEq(key: string, rest: string)
    requires '=' !in key
    ensures BeforeEq(key + "=" + rest) == key
  {
    var text := key + "=" + rest;
    if key != "" {
      KeyEndsAtEq(key[1..], rest);
      assert text[1..] == key[1..] + "=" + rest;
    }
  }

  lemma UnquoteQuoted(body: string)
    ensures Unquote("\"" + body + "\"") == body
  {
  }

  lemma EnvLineCut(e: EnvVar)
    ensures CutPrefix(Trim(EnvLine(e)), ENVIRONMENT) == Some("\"" + (e.key + "=" + Escape(e.value)) + "\"")
  {
    var line, quoted := EnvLine(e), "\"" + (e.key + "=" + Escape(e.value)) + "\"";
    assert line == ENVIRONMENT + quoted;
    assert line[0] == 'E' && line[|line| - 1] == '"';
    TrimClean(line);
    assert line[|ENVIRONMENT|..] == quoted;
  }

  lemma ParseEnvLine(e: EnvVar)
    requires ValidEnv(e)
    ensures ParseLine(EnvLine(e)) == Some(e)
  {
    EnvLineCut(e);
    var body := e.key + "=" + Escape(e.value);
    UnquoteQuoted(body);
    KeyEndsAtEq(e.key, Escape(e.value));
    assert body[|e.key| + 1..] == Escape(e.value);
    UnescapeEscape(e.value);
  }

  lemma EnvLineIsOneLine(e: EnvVar)
    requires ValidEnv(e)
    ensures '\n' !in EnvLine(e)
  {
    EscapeKeepsOut(e.value, '\n');
  }

  lemma ParseSnoc(lines: seq<string>, line: string, e: EnvVar)
    requires ParseLine(line) == Some(e)
    ensures ParseLines(lines + [line]) == ParseLines(lines) + [e]
  {
  }

  lemma {:induction false} ParseEnvLines(env: seq<EnvVar>)
    requires forall i :: 0 <= i < |env| ==> ValidEnv(env[i])
    ensures ParseLines(EnvLines(env)) == env
  {
    if env != [] {
      var init, last := env[..|env| - 1], env[|env| - 1];
      ParseEnvLines(init);
      ParseEnvLine(last);
      ParseSnoc(EnvLines(init), EnvLine(last), last);
      FrontAndLast(env);
    }
  }

  lemma {:induction false} EnvLinesAreLines(env: seq<EnvVar>)
    requires forall i :: 0 <= i < |env| ==> ValidEnv(env[i])
    ensures forall l :: l in EnvLines(env) ==> '\n' !in l
  {
    if env != [] {
      EnvLinesAreLines(env[..|env| - 1]);
      EnvLineIsOneLine(env[|env| - 1]);
    }
  }

  /** A line that is blank, or starts with something visible that is not like an
      assignment, is none. */
  predicate Inert(line: string) {
    line == "" || (|line| > 1 && !IsSpace(line[0]) && (line[0] != 'E' || line[1] != 'n'))
  }

  lemma InertIsSkipped(line: string)
    requires Inert(line)
    ensures ParseLine(line).None?
  {
    TrimRightStops(line);
    assert TrimLeft(line) == line;
    assert ENVIRONMENT[0] == 'E' && ENVIRONMENT[1] == 'n';
  }

  lemma {:induction false} InertLines(lines: seq<string>)
    requires forall l :: l in lines ==> Inert(l)
    ensures ParseLines(lines) == []
  {
    if lines != [] {
      InertLines(lines[..|lines| - 1]);
      InertIsSkipped(lines[|lines| - 1]);
    }
  }

  predicate InertLine(line: string) {
    Inert(line) && '\n' !in line
  }

  /** A line's first two characters decide. */
  lemma InertAs(line: string, a: string, b: string)
    requires line == a + b && |a| > 1 && InertLine(a) && '\n' !in b
    ensures InertLine(line)
  {
  }

  lemma DescriptionIsInert()
    ensures InertLine(DESCRIPTION)
  {
  }

  lemma HeaderIsInert(execPath: string)
    requires '\n' !in execPath
    ensures forall l :: l in Header(execPath) ==> InertLine(l)
  {
    DescriptionIsInert();
    InertAs(Header(execPath)[4], "ExecStart=\"", execPath + "\" serve");
    assert InertLine("[Unit]") && InertLine("") && InertLine("[Service]");
  }

  lemma SignalNoteIsInert()
    ensures InertLine(SIGNAL_NOTE + SERVER_NOTE)
  {
    InertAs(SIGNAL_NOTE + SERVER_NOTE, SIGNAL_NOTE, SERVER_NOTE);
  }

  lemma SurvivalNoteIsInert()
    ensures InertLine(SURVIVAL_NOTE + UPGRADE_NOTE)
  {
    InertAs(SURVIVAL_NOTE + UPGRADE_NOTE, SURVIVAL_NOTE, UPGRADE_NOTE);
  }

  lemma FooterIsInert()
    ensures forall l :: l in FOOTER ==> InertLine(l)
  {
    var f := FOOTER;
    SignalNoteIsInert();
    SurvivalNoteIsInert();
    assert InertLine(f[1]) && InertLine(f[2]);
    assert InertLine(f[0]) && InertLine(f[3]) && InertLine(f[4]) && InertLine(f[5]) && InertLine(f[6]);
  }

  lemma UnitIsLines(execPath: string, env: seq<EnvVar>)
    requires '\n' !in execPath && forall i :: 0 <= i < |env| ==> ValidEnv(env[i])
    ensures Lines(UnitContent(execPath, env)) == UnitLines(execPath, env) + [""]
  {
    HeaderIsInert(execPath);
    FooterIsInert();
    var lines := UnitLines(execPath, env);
    EnvLinesAreLines(env);
    LinesOfJoined(lines, "");
    assert Joined(lines) + "" == Joined(lines);
  }

  /** Reading a rendered unit back gives exactly the variables that went in. */
  lemma UnitRoundTrip(execPath: string, env: seq<EnvVar>)
    requires '\n' !in execPath && forall i :: 0 <= i < |env| ==> ValidEnv(env[i])
    ensures Parse(UnitContent(execPath, env)) == env
  {
    HeaderIsInert(execPath);
    FooterIsInert();
    UnitIsLines(execPath, env);
    var lines := UnitLines(execPath, env);
    InertLines(Header(execPath));
    InertLines(FOOTER);
    ParseEnvLines(env);
    ParseConcat(Header(execPath) + EnvLines(env), FOOTER);
    ParseConcat(Header(execPath), EnvLines(env));
    ParseConcat(lines, [""]);
    InertLines([""]);
  }

  predicate Starts(line: string) {
    "ExecStart=" <= line
  }

  function ExecLine(execPath: string): string {
    "ExecStart=\"" + execPath + "\" serve"
  }

  lemma OthersStartElsewhere(execPath: string, line: string)
    requires line in Header(execPath) && line != Header(execPath)[4]
    ensures !Starts(line)
  {
    assert DESCRIPTION[0] == 'D' && "ExecStart="[0] == 'E';
  }

  lemma FooterStartsElsewhere(line: string)
    requires line in FOOTER || line == ""
    ensures !Starts(line)
  {
    assert "ExecStart="[0] == 'E' && (SIGNAL_NOTE + SERVER_NOTE)[0] == '#' && (SURVIVAL_NOTE + UPGRADE_NOTE)[0] == '#';
  }

  lemma EnvLineStartsElsewhere(e: EnvVar)
    ensures !Starts(EnvLine(e))
  {
    assert ENVIRONMENT[1] == 'n' && "ExecStart="[1] == 'x';
    assert EnvLine(e)[1] == ENVIRONMENT[1];
  }

  lemma {:induction false} EnvLinesStartElsewhere(env: seq<EnvVar>)
    ensures forall line :: line in EnvLines(env) ==> !Starts(line)
  {
    if env != [] {
      EnvLinesStartElsewhere(env[..|env| - 1]);
      EnvLineStartsElsewhere(env[|env| - 1]);
    }
  }

  /** A rendered unit has one ExecStart line, which runs the given binary; and stopping
      the service signals the daemon alone, so that the tmux server stays. */
  lemma UnitRunsBinary(execPath: string, env: seq<EnvVar>)
    requires '\n' !in execPath && forall i :: 0 <= i < |env| ==> ValidEnv(env[i])
    ensures
      var lines := Lines(UnitContent(execPath, env));
      && ExecLine(execPath) in lines && "KillMode=process" in lines
      && forall line :: line in lines && Starts(line) ==> line == ExecLine(execPath)
  {
    UnitIsLines(execPath, env);
    var lines := Header(execPath) + EnvLines(env) + FOOTER + [""];
    assert Header(execPath)[4] == ExecLine(execPath) && FOOTER[3] == "KillMode=process";
    assert lines[4] == ExecLine(execPath) && lines[5 + |EnvLines(env)| + 3] == FOOTER[3];
    EnvLinesStartElsewhere(env);
    forall line | line in lines && Starts(line)
      ensures line == ExecLine(execPath)
    {
      assert line in Header(execPath) || line in EnvLines(env) || line in FOOTER || line == "";
      if line in Header(execPath) && line != Header(execPath)[4] {
        OthersStartElsewhere(execPath, line);
      } else if line in FOOTER || line == "" {
        FooterStartsElsewhere(line);
      }
    }
  }

  // ----------------------------------------------------- what an install carries over

  function Lookup(env: seq<EnvVar>, key: string): Option<EnvVar> {
    if env == [] then None else if env[0].key == key then Some(env[0]) else Lookup(env[1..], key)
  }

  method LookupEnv(env: seq<EnvVar>, key: string) returns (e: Option<EnvVar>)
    ensures e == Lookup(env, key)
  {
    assert env[0..] == env;
    for i := 0 to |env|
      invariant Lookup(env, key) == Lookup(env[i..], key)
    {
      if env[i].key == key {
        return Some(env[i]);
      }
      assert env[i..][1..] == env[i + 1..];
    }
    e := None;
  }

  /** The captured variable if there is one, else what the unit had. */
  function Carried(prev: seq<EnvVar>, captured: seq<EnvVar>, key: string): Option<EnvVar> {
    if Lookup(captured, key).Some? then Lookup(captured, key) else Lookup(prev, key)
  }

  function Merge(prev: seq<EnvVar>, captured: seq<EnvVar>, keys: seq<string>): seq<EnvVar> {
    if keys == [] then []
    else
      var e := Carried(prev, captured, keys[|keys| - 1]);
      Merge(prev, captured, keys[..|keys| - 1]) + if e.Some? then [e.value] else []
  }

  method MergeEnv(prev: seq<EnvVar>, captured: seq<EnvVar>) returns (env: seq<EnvVar>)
    ensures env == Merge(prev, captured, CAPTURED)
  {
    env := [];
    for i := 0 to |CAPTURED|
      invariant env == Merge(prev, captured, CAPTURED[..i])
    {
      assert CAPTURED[..i + 1][..i] == CAPTURED[..i];
      var e := LookupEnv(captured, CAPTURED[i]);
      if e.Some? {
        env := env + [e.value];
        continue;
      }
      e := LookupEnv(prev, CAPTURED[i]);
      if e.Some? {
        env := env + [e.value];
      }
    }
    assert CAPTURED[..|CAPTURED|] == CAPTURED;
  }

  /** The installing shell: its variables, empty when unset, and what the data directory
      is as an absolute path, if that can be told. */
  datatype Shell = Shell(path: string, dataDir: string, absDataDir: Option<string>, hostname: string)

  function Getenv(shell: Shell, key: string): string {
    if key == DATA_DIR then shell.dataDir else if key == HOSTNAME then shell.hostname else ""
  }

  /** The value an install captures of a variable that is set. */
  function ShellValue(shell: Shell, key: string): string {
    if key == DATA_DIR && shell.absDataDir.Some? then shell.absDataDir.value else Getenv(shell, key)
  }

  function Captured(shell: Shell, keys: seq<string>): seq<EnvVar> {
    if keys == [] then []
    else
      var key := keys[|keys| - 1];
      Captured(shell, keys[..|keys| - 1])
      + if Getenv(shell, key) != "" then [EnvVar(key, ShellValue(shell, key))] else []
  }

  method CaptureEnv(shell: Shell) returns (env: seq<EnvVar>)
    ensures env == Captured(shell, CAPTURED)
  {
    env := [];
    for i := 0 to |CAPTURED|
      invariant env == Captured(shell, CAPTURED[..i])
    {
      assert CAPTURED[..i + 1][..i] == CAPTURED[..i];
      var v := Getenv(shell, CAPTURED[i]);
      if v == "" {
        continue;
      }
      if CAPTURED[i] == DATA_DIR && shell.absDataDir.Some? {
        v := shell.absDataDir.value;
      }
      env := env + [EnvVar(CAPTURED[i], v)];
    }
    assert CAPTURED[..|CAPTURED|] == CAPTURED;
  }

  function PathVar(shell: Shell): EnvVar {
    EnvVar("PATH", if shell.path == "" then DEFAULT_PATH else shell.path)
  }

  function Previous(unit: Option<string>): seq<EnvVar> {
    if unit.Some? then Parse(unit.value) else []
  }

  /** The environment an install bakes in over the one it found. */
  function NewEnv(prev: seq<EnvVar>, shell: Shell): seq<EnvVar> {
    [PathVar(shell)] + Merge(prev, Captured(shell, CAPTURED), CAPTURED)
  }

  /** The unit an install leaves; one that cannot be represented leaves the old one. */
  function Installed(unit: Option<string>, execPath: string, shell: Shell): Option<string> {
    var env := NewEnv(Previous(unit), shell);
    if Representable(env) then Some(UnitContent(execPath, env)) else unit
  }

  lemma {:induction false} JoinedConcat(a: seq<string>, b: seq<string>)
    ensures Joined(a + b) == Joined(a) + Joined(b)
  {
    if b == [] {
      assert a + b == a;
    } else {
      assert (a + b)[..|a + b| - 1] == a + b[..|b| - 1];
      JoinedConcat(a, b[..|b| - 1]);
    }
  }

  lemma ContentIsJoined(execPath: string, env: seq<EnvVar>)
    ensures Joined(Header(execPath)) + Block(env) + Joined(FOOTER) == UnitContent(execPath, env)
  {
    BlockIsLines(env);
    JoinedConcat(Header(execPath) + EnvLines(env), FOOTER);
    JoinedConcat(Header(execPath), EnvLines(env));
  }

  /** The unit file, what systemd has loaded and what the service runs on, and the install
      that rewrites the unit from what it holds. `faults` counts the file operations and
      commands that failed. */
  class Unit {
    var file: Option<string>
    var loaded: Option<string>
    var running: Option<string>
    ghost var faults: nat

    /** A failing read stops the install before it writes; a failing write may cut the new
        content short; a failing systemctl may leave the old service running beside the new
        unit, or none. One that succeeds has restarted the service on the new unit. */
    method Install(execPath: string, shell: Shell) returns (ok: bool)
      modifies this
      ensures ok <==> Representable(NewEnv(Previous(old(file)), shell)) && faults == old(faults)
      ensures ok ==> file == running == Installed(old(file), execPath, shell)
      ensures !ok ==> running == old(running) || running.None?
      ensures !ok && file != old(file) ==>
        var env := NewEnv(Previous(old(file)), shell);
        Representable(env) && file.Some? && file.value <= UnitContent(execPath, env)
    {
      ok := Attempt();
      if !ok {
        return;
      }
      var prev: seq<EnvVar> := [];
      if file.Some? {
        prev := ParseSystemdEnv(file.value);
      }
      var captured := CaptureEnv(shell);
      var merged := MergeEnv(prev, captured);
      var env := [PathVar(shell)] + merged;
      var block := RenderEnv(env);
      if block.None? {
        return false;
      }
      var content := Joined(Header(execPath)) + block.value + Joined(FOOTER);
      ContentIsJoined(execPath, env);
      ok := Attempt();
      if !ok {
        return;
      }
      ok := WriteFile(content);
      if !ok {
        return;
      }
      ok := Restart();
    }

    /** A system call or a command that may fail: reading the unit, making its directory,
        one systemctl. */
    method Attempt() returns (ok: bool)
      modifies this`faults
      ensures faults == old(faults) + if ok then 0 else 1
    {
      ok := *;
      if !ok {
        faults := faults + 1;
      }
    }

    method WriteFile(content: string) returns (ok: bool)
      modifies this`file, this`faults
      ensures ok ==> file == Some(content) && faults == old(faults)
      ensures !ok ==> faults > old(faults) && (file == old(file) || (file.Some? && file.value <= content))
    {
      ok := Attempt();
      if ok {
        file := Some(content);
      } else if * {
        var n :| 0 <= n <= |content|;
        file := Some(content[..n]);
      }
    }

    /** daemon-reload, enable, restart. */
    method Restart() returns (ok: bool)
      modifies this`loaded, this`running, this`faults
      ensures ok ==> loaded == running == file && faults == old(faults)
      ensures !ok ==> (running == old(running) || running.None?) && faults > old(faults)
    {
      ok := Attempt();
      if !ok {
        return;
      }
      loaded := file;
      ok := Attempt();
      if !ok {
        return;
      }
      ok := Attempt();
      if ok {
        running := loaded;
      } else if * {
        running := None;
      }
    }
  }

  // ------------------------------------------------------------------ install history

  lemma {:induction false} LookupConcat(a: seq<EnvVar>, b: seq<EnvVar>, key: string)
    ensures Lookup(a + b, key) == if Lookup(a, key).Some? then Lookup(a, key) else Lookup(b, key)
  {
    if a == [] {
      assert a + b == b;
    } else {
      assert (a + b)[1..] == a[1..] + b;
      LookupConcat(a[1..], b, key);
    }
  }

  lemma {:induction false} LookupHasKey(env: seq<EnvVar>, key: string)
    ensures Lookup(env, key).Some? ==> Lookup(env, key).value.key == key && Lookup(env, key).value in env
  {
    if env != [] { LookupHasKey(env[1..], key); }
  }

  lemma {:induction false} LookupMerge(prev: seq<EnvVar>, captured: seq<EnvVar>, keys: seq<string>, key: string)
    ensures Lookup(Merge(prev, captured, keys), key) == if key in keys then Carried(prev, captured, key) else None
  {
    if keys != [] {
      var last := keys[|keys| - 1];
      LookupMerge(prev, captured, keys[..|keys| - 1], key);
      LookupHasKey(captured, last);
      LookupHasKey(prev, last);
      var e := Carried(prev, captured, last);
      var tail := if e.Some? then [e.value] else [];
      LookupConcat(Merge(prev, captured, keys[..|keys| - 1]), tail, key);
      assert keys[..|keys| - 1] + [last] == keys;
    }
  }

  lemma {:induction false} LookupCaptured(shell: Shell, keys: seq<string>, key: string)
    ensures Lookup(Captured(shell, keys), key)
         == if key in keys && Getenv(shell, key) != "" then Some(EnvVar(key, ShellValue(shell, key))) else None
  {
    if keys != [] {
      var last := keys[|keys| - 1];
      LookupCaptured(shell, keys[..|keys| - 1], key);
      var tail := if Getenv(shell, last) != "" then [EnvVar(last, ShellValue(shell, last))] else [];
      LookupConcat(Captured(shell, keys[..|keys| - 1]), tail, key);
      assert keys[..|keys| - 1] + [last] == keys;
    }
  }

  /** A captured variable that the shell sets takes its value in the new environment, any
      other keeps the one it had. */
  lemma NewEnvLookup(prev: seq<EnvVar>, shell: Shell, key: string)
    requires key in CAPTURED
    ensures Lookup(NewEnv(prev, shell), key) == Carried(prev, Captured(shell, CAPTURED), key)
    ensures Carried(prev, Captured(shell, CAPTURED), key)
         == if Getenv(shell, key) != "" then Some(EnvVar(key, ShellValue(shell, key))) else Lookup(prev, key)
  {
    LookupConcat([PathVar(shell)], Merge(prev, Captured(shell, CAPTURED), CAPTURED), key);
    LookupMerge(prev, Captured(shell, CAPTURED), CAPTURED, key);
    LookupCaptured(shell, CAPTURED, key);
  }

  /** The variable found, on its own or not at all. */
  function Alone(e: Option<EnvVar>): seq<EnvVar> {
    if e.Some? then [e.value] else []
  }

  lemma MergeTwo(prev: seq<EnvVar>, captured: seq<EnvVar>, a: string, b: string)
    ensures Merge(prev, captured, [a, b]) == Alone(Carried(prev, captured, a)) + Alone(Carried(prev, captured, b))
  {
    assert [a, b][..1] == [a] && [a][..0] == [];
    assert Merge(prev, captured, []) == [];
    assert Merge(prev, captured, [a]) == Alone(Carried(prev, captured, a));
  }

  /** A captured name's variable: the shell's, or the one found. */
  lemma CarriedIs(prev: seq<EnvVar>, shell: Shell, key: string)
    requires key in CAPTURED
    ensures Alone(Carried(prev, Captured(shell, CAPTURED), key))
         == if Getenv(shell, key) != "" then [EnvVar(key, ShellValue(shell, key))] else Alone(Lookup(prev, key))
  {
    LookupCaptured(shell, CAPTURED, key);
  }

  lemma ShellSays(shell: Shell)
    ensures Getenv(shell, DATA_DIR) == shell.dataDir && Getenv(shell, HOSTNAME) == shell.hostname
    ensures ShellValue(shell, HOSTNAME) == shell.hostname
    ensures ShellValue(shell, DATA_DIR) == if shell.absDataDir.Some? then shell.absDataDir.value else shell.dataDir
  {
    TwoNames();
  }

  /** The environment an install bakes in, variable by variable and always in this order:
      the shell's PATH or the default, then the data directory, absolute if that can be
      told, and the hostname, each as the shell sets it or else as it was found. */
  lemma NewEnvIs(prev: seq<EnvVar>, shell: Shell)
    ensures
      var dataDir := if shell.absDataDir.Some? then shell.absDataDir.value else shell.dataDir;
      NewEnv(prev, shell)
      == [EnvVar("PATH", if shell.path == "" then DEFAULT_PATH else shell.path)]
         + ((if shell.dataDir != "" then [EnvVar(DATA_DIR, dataDir)] else Alone(Lookup(prev, DATA_DIR)))
            + (if shell.hostname != "" then [EnvVar(HOSTNAME, shell.hostname)] else Alone(Lookup(prev, HOSTNAME))))
  {
    TwoNames();
    ShellSays(shell);
    MergeTwo(prev, Captured(shell, CAPTURED), DATA_DIR, HOSTNAME);
    CarriedIs(prev, shell, DATA_DIR);
    CarriedIs(prev, shell, HOSTNAME);
  }

  lemma TwoNames()
    ensures DATA_DIR != HOSTNAME && DATA_DIR in CAPTURED && HOSTNAME in CAPTURED
  {
    assert DATA_DIR[9] == 'D' && HOSTNAME[9] == 'H';
    assert CAPTURED[0] == DATA_DIR && CAPTURED[1] == HOSTNAME;
  }

  /** One install over any unit text whatever, hand-edited or not: a variable the shell
      sets takes its value, any other keeps the one the unit had. */
  lemma InstallKeepsOrSets(unit: Option<string>, execPath: string, shell: Shell, key: string)
    requires '\n' !in execPath && Representable(NewEnv(Previous(unit), shell)) && key in CAPTURED
    ensures Lookup(Previous(Installed(unit, execPath, shell)), key)
         == if Getenv(shell, key) != "" then Some(EnvVar(key, ShellValue(shell, key))) else Lookup(Previous(unit), key)
  {
    UnitRoundTrip(execPath, NewEnv(Previous(unit), shell));
    NewEnvLookup(Previous(unit), shell, key);
  }

  /** An install as it is asked for. */
  datatype Request = Request(execPath: string, shell: Shell)

  function AfterInstalls(unit: Option<string>, requests: seq<Request>): Option<string> {
    if requests == [] then unit
    else
      var r := requests[|requests| - 1];
      Installed(AfterInstalls(unit, requests[..|requests| - 1]), r.execPath, r.shell)
  }

  /** What the most recent install that went through, from a shell that set `key`, set it
      to; what the first unit had, if there was none. */
  function Latest(unit: Option<string>, requests: seq<Request>, key: string): Option<EnvVar> {
    if requests == [] then Lookup(Previous(unit), key)
    else
      var before, shell := requests[..|requests| - 1], requests[|requests| - 1].shell;
      if Representable(NewEnv(Previous(AfterInstalls(unit, before)), shell)) && Getenv(shell, key) != ""
      then Some(EnvVar(key, ShellValue(shell, key)))
      else Latest(unit, before, key)
  }

  /** After any sequence of installs, each with its own path and shell, over any first unit
      and with refused ones among them: the unit gives every captured variable the value
      of the most recent install that went through and whose shell set it. */
  lemma {:induction false} InstallHistory(unit: Option<string>, requests: seq<Request>, key: string)
    requires key in CAPTURED && forall r :: r in requests ==> '\n' !in r.execPath
    ensures Lookup(Previous(AfterInstalls(unit, requests)), key) == Latest(unit, requests, key)
  {
    if requests != [] {
      var before, r := requests[..|requests| - 1], requests[|requests| - 1];
      InstallHistory(unit, before, key);
      assert r in requests;
      var last := AfterInstalls(unit, before);
      if Representable(NewEnv(Previous(last), r.shell)) {
        InstallKeepsOrSets(last, r.execPath, r.shell, key);
      }
    }
  }

  lemma CapturedKeysAreValid()
    ensures ValidKey("PATH") && forall key :: key in CAPTURED ==> ValidKey(key)
  {
  }

  lemma {:induction false} MergeHas(prev: seq<EnvVar>, captured: seq<EnvVar>, keys: seq<string>)
    ensures forall e :: e in Merge(prev, captured, keys) <==>
      exists key :: key in keys && Carried(prev, captured, key) == Some(e)
  {
    if keys != [] {
      var init, last := keys[..|keys| - 1], keys[|keys| - 1];
      MergeHas(prev, captured, init);
      assert keys == init + [last];
    }
  }

  lemma CarriedHasKey(prev: seq<EnvVar>, captured: seq<EnvVar>, key: string)
    ensures Carried(prev, captured, key).Some? ==> Carried(prev, captured, key).value.key == key
  {
    LookupHasKey(prev, key);
    LookupHasKey(captured, key);
  }

  predicate PathWritable(shell: Shell) {
    ValidValue(PathVar(shell).value)
  }

  predicate CarriedWritable(prev: seq<EnvVar>, shell: Shell, key: string) {
    var e := Carried(prev, Captured(shell, CAPTURED), key);
    e.Some? ==> ValidValue(e.value.value)
  }

  /** Exactly when an install goes through: no control character in the PATH nor in any
      value it sets or carries over. */
  lemma InstallGoesThroughIff(prev: seq<EnvVar>, shell: Shell)
    ensures Representable(NewEnv(prev, shell))
       <==> PathWritable(shell) && forall key :: key in CAPTURED ==> CarriedWritable(prev, shell, key)
  {
    var captured := Captured(shell, CAPTURED);
    var merged := Merge(prev, captured, CAPTURED);
    CapturedKeysAreValid();
    MergeHas(prev, captured, CAPTURED);
    forall key | key in CAPTURED
      ensures CarriedWritable(prev, shell, key) <==>
        (Carried(prev, captured, key).Some? ==> ValidEnv(Carried(prev, captured, key).value))
    {
      CarriedHasKey(prev, captured, key);
    }
    AllIn(PathVar(shell), merged);
  }

  lemma AllIn(first: EnvVar, rest: seq<EnvVar>)
    ensures Representable([first] + rest) <==> ValidEnv(first) && forall e :: e in rest ==> ValidEnv(e)
  {
    var env := [first] + rest;
    assert env[0] == first && forall i :: 0 <= i < |rest| ==> env[i + 1] == rest[i];
    assert forall i :: 0 <= i < |rest| ==> rest[i] in rest;
  }

  lemma {:induction false} MergeAgrees(prev: seq<EnvVar>, captured: seq<EnvVar>, prev': seq<EnvVar>,
                                       captured': seq<EnvVar>, keys: seq<string>)
    requires forall key :: key in keys ==> Carried(prev, captured, key) == Carried(prev', captured', key)
    ensures Merge(prev, captured, keys) == Merge(prev', captured', keys)
  {
    if keys != [] {
      MergeAgrees(prev, captured, prev', captured', keys[..|keys| - 1]);
      assert keys[|keys| - 1] in keys;
    }
  }

  /** A shell with the same PATH and none of the captured variables. */
  predicate Bare(again: Shell, shell: Shell) {
    again.path == shell.path && again.dataDir == "" && again.hostname == ""
  }

  /** Carrying an environment over itself, from such a shell, gives it back. */
  lemma NewEnvTwice(prev: seq<EnvVar>, shell: Shell, again: Shell)
    requires Bare(again, shell)
    ensures NewEnv(NewEnv(prev, shell), again) == NewEnv(prev, shell)
  {
    var env := NewEnv(prev, shell);
    forall key | key in CAPTURED
      ensures Carried(env, Captured(again, CAPTURED), key) == Carried(prev, Captured(shell, CAPTURED), key)
    {
      NewEnvLookup(prev, shell, key);
      NewEnvLookup(env, again, key);
    }
    MergeAgrees(env, Captured(again, CAPTURED), prev, Captured(shell, CAPTURED), CAPTURED);
  }

  /** Installing again over a unit just written, from such a shell, rewrites the same
      bytes. */
  lemma RepeatInstallRewritesTheSame(unit: Option<string>, execPath: string, shell: Shell, again: Shell)
    requires '\n' !in execPath && Representable(NewEnv(Previous(unit), shell)) && Bare(again, shell)
    ensures Installed(Installed(unit, execPath, shell), execPath, again) == Installed(unit, execPath, shell)
  {
    UnitRoundTrip(execPath, NewEnv(Previous(unit), shell));
    NewEnvTwice(Previous(unit), shell, again);
  }
}
