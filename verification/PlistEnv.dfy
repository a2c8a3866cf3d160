/** The same environment in a launchd property list: reading it back from the XML
    decoder's tokens. */
module PlistEnv {
  import opened Options
  import opened UnitEnv

  /** Entities are decoded already; Other stands for what the parser never looks at. */
  datatype Token = Start(name: string) | Chars(text: string) | End(name: string) | Other

  /** The parser's variables. `depth` counts open dicts; `envDepth` is the depth of the
      environment's, once found. */
  datatype Scan = Scan(
    out: seq<EnvVar>, depth: int, envDepth: int, armed: bool, elem: string, text: string,
    curKey: string, wantValue: bool)

  const INITIAL := Scan([], 0, 0, false, "", "", "", false)

  predicate InEnv(s: Scan) {
    s.envDepth != 0 && s.depth == s.envDepth
  }

  function Closed(s: Scan, name: string): Scan {
    if name == "dict" then s.(envDepth := if s.depth == s.envDepth then 0 else s.envDepth, depth := s.depth - 1)
    else if name == "key" then
      if InEnv(s) then s.(curKey := s.text, wantValue := true) else s.(armed := s.text == "EnvironmentVariables")
    else if name == "string" && InEnv(s) && s.wantValue then
      s.(out := s.out + [EnvVar(s.curKey, s.text)], wantValue := false)
    else s
  }

  function Step(s: Scan, t: Token): Scan {
    match t
    case Start(name) =>
      var s' := s.(elem := name, text := "");
      if name != "dict" then s'
      else if s.armed then s'.(depth := s.depth + 1, armed := false, envDepth := s.depth + 1)
      else s'.(depth := s.depth + 1)
    case Chars(text) => if s.elem == "key" || s.elem == "string" then s.(text := s.text + text) else s
    case End(name) => Closed(s, name).(elem := "", text := "")
    case Other => s
  }

  function Steps(s: Scan, tokens: seq<Token>): Scan {
    if tokens == [] then s else Step(Steps(s, tokens[..|tokens| - 1]), tokens[|tokens| - 1])
  }

  method ParsePlistEnv(tokens: seq<Token>) returns (env: seq<EnvVar>)
    ensures env == Steps(INITIAL, tokens).out
  {
    env := [];
    var depth, envDepth := 0, 0;
    var armed, wantValue := false, false;
    var elem, text, curKey := "", "", "";
    for i := 0 to |tokens|
      invariant Steps(INITIAL, tokens[..i]) == Scan(env, depth, envDepth, armed, elem, text, curKey, wantValue)
    {
      assert tokens[..i + 1][..i] == tokens[..i];
      match tokens[i] {
        case Start(name) =>
          elem, text := name, "";
          if name == "dict" {
            depth := depth + 1;
            if armed {
              armed, envDepth := false, depth;
            }
          }
        case Chars(more) =>
          if elem == "key" || elem == "string" {
            text := text + more;
          }
        case End(name) =>
          if name == "dict" {
            if depth == envDepth {
              envDepth := 0;
            }
            depth := depth - 1;
          } else if name == "key" {
            if envDepth != 0 && depth == envDepth {
              curKey, wantValue := text, true;
            } else {
              armed := text == "EnvironmentVariables";
            }
          } else if name == "string" {
            if envDepth != 0 && depth == envDepth && wantValue {
              env := env + [EnvVar(curKey, text)];
              wantValue := false;
            }
          }
          elem, text := "", "";
        case Other =>
      }
    }
    assert tokens[..|tokens|] == tokens;
  }

  // ------------------------------------------------------- text between the elements

  /** The element whose tag was read last, while nothing has ended since. */
  function Elem(tokens: seq<Token>): string {
    if tokens == [] then ""
    else
      match tokens[|tokens| - 1]
      case Start(name) => name
      case End(_) => ""
      case _ => Elem(tokens[..|tokens| - 1])
  }

  predicate Between(tokens: seq<Token>, t: Token) {
    t.Chars? && Elem(tokens) != "key" && Elem(tokens) != "string"
  }

  /** The tokens without the character data that stands between the elements. */
  function Compact(tokens: seq<Token>): seq<Token> {
    if tokens == [] then []
    else
      var init, last := tokens[..|tokens| - 1], tokens[|tokens| - 1];
      Compact(init) + if Between(init, last) then [] else [last]
  }

  lemma {:induction false} ElemIsRead(tokens: seq<Token>)
    ensures Steps(INITIAL, tokens).elem == Elem(tokens)
  {
    if tokens != [] {
      ElemIsRead(tokens[..|tokens| - 1]);
    }
  }

  /** How the elements are laid out, indented or all on one line, makes no difference. */
  lemma {:induction false} SpacingIsIgnored(tokens: seq<Token>)
    ensures Steps(INITIAL, Compact(tokens)) == Steps(INITIAL, tokens)
  {
    if tokens != [] {
      var init, last := tokens[..|tokens| - 1], tokens[|tokens| - 1];
      SpacingIsIgnored(init);
      ElemIsRead(init);
      One(INITIAL, Compact(init), last);
      assert Between(init, last) ==> Compact(tokens) == Compact(init);
    }
  }

  // ------------------------------------------------------------- the rendered list

  /** An element with character data, of which the decoder reports none when empty. */
  function Element(name: string, text: string): seq<Token> {
    [Start(name)] + (if text == "" then [] else [Chars(text)]) + [End(name)]
  }

  /** What XML 1.0 can hold (section 2.2). */
  predicate InXml(c: char) {
    c in {'\t', '\n', '\r'} || ' ' <= c <= '\U{FFFD}' || '\U{10000}' <= c
  }

  /** A text as it comes back: escaping puts U+FFFD for what XML cannot hold, and the
      decoder undoes the rest. */
  function AsRead(s: string): string {
    seq(|s|, i requires 0 <= i < |s| => if InXml(s[i]) then s[i] else '\U{FFFD}')
  }

  function VarAsRead(e: EnvVar): EnvVar {
    EnvVar(AsRead(e.key), AsRead(e.value))
  }

  function EnvAsRead(env: seq<EnvVar>): seq<EnvVar> {
    seq(|env|, i requires 0 <= i < |env| => VarAsRead(env[i]))
  }

  predicate Holdable(s: string) {
    forall i :: 0 <= i < |s| ==> InXml(s[i])
  }

  predicate AllHoldable(env: seq<EnvVar>) {
    forall i :: 0 <= i < |env| ==> Holdable(env[i].key) && Holdable(env[i].value)
  }

  function Entry(e: EnvVar): seq<Token> {
    Element("key", AsRead(e.key)) + Element("string", AsRead(e.value))
  }

  function EnvTokens(env: seq<EnvVar>): seq<Token> {
    if env == [] then [] else EnvTokens(env[..|env| - 1]) + Entry(env[|env| - 1])
  }

  const PREAMBLE := [Other, Other, Start("plist"), Start("dict")]

  function Setting(name: string, text: string): seq<Token> {
    Element("key", name) + Element("string", text)
  }

  function Program(execPath: string): seq<Token> {
    Element("key", "ProgramArguments") + [Start("array")]
    + Element("string", execPath) + Element("string", "serve") + [End("array")]
  }

  function Opening(label0: string, execPath: string): seq<Token> {
    PREAMBLE + Setting("Label", label0) + Program(execPath)
    + (Element("key", "EnvironmentVariables") + [Start("dict")])
  }

  function Flag(name: string): seq<Token> {
    Element("key", name) + [Start("true"), End("true")]
  }

  function Closing(logPath: string): seq<Token> {
    [End("dict")] + Flag("RunAtLoad") + Flag("KeepAlive")
    + Setting("StandardOutPath", logPath) + Setting("StandardErrorPath", logPath) + [End("dict"), End("plist")]
  }

  /** The elements of a rendered list, in order. */
  function PlistTokens(label0: string, execPath: string, env: seq<EnvVar>, logPath: string): seq<Token> {
    Opening(label0, execPath) + EnvTokens(env) + Closing(logPath)
  }

  // ------------------------------------------------------------------- round trip

  lemma {:induction false} StepsConcat(s: Scan, a: seq<Token>, b: seq<Token>)
    ensures Steps(s, a + b) == Steps(Steps(s, a), b)
  {
    if b == [] {
      assert a + b == a;
    } else {
      assert (a + b)[..|a + b| - 1] == a + b[..|b| - 1];
      StepsConcat(s, a, b[..|b| - 1]);
    }
  }

  lemma StepsOne(s: Scan, t: Token)
    ensures Steps(s, [t]) == Step(s, t)
  {
  }

  /** A whole element acts as its end does with the element's text read. */
  lemma StepsElement(s: Scan, name: string, text: string)
    requires name == "key" || name == "string"
    ensures Steps(s, Element(name, text)) == Closed(s.(elem := name, text := text), name).(elem := "", text := "")
  {
    var open := Step(s, Start(name));
    StepsOne(s, Start(name));
    StepsOne(open, Chars(text));
    assert "" + text == text;
    var data := if text == "" then [] else [Chars(text)];
    StepsConcat(s, [Start(name)], data);
    StepsConcat(s, [Start(name)] + data, [End(name)]);
    StepsOne(s.(elem := name, text := text), End(name));
  }

  lemma One(s: Scan, a: seq<Token>, t: Token)
    ensures Steps(s, a + [t]) == Step(Steps(s, a), t)
  {
  }

  lemma Two(s: Scan, a: seq<Token>, t: Token, u: Token)
    ensures Steps(s, a + [t, u]) == Step(Step(Steps(s, a), t), u)
  {
    StepsConcat(s, a, [t, u]);
    StepsConcat(Steps(s, a), [t], [u]);
    assert [t] + [u] == [t, u];
  }

  predicate SameDict(s: Scan, s': Scan) {
    s'.depth == s.depth && s'.envDepth == s.envDepth && s'.armed == s.armed
  }

  lemma StepsEntry(s: Scan, e: EnvVar)
    requires InEnv(s)
    ensures Steps(s, Entry(e)).out == s.out + [VarAsRead(e)] && SameDict(s, Steps(s, Entry(e)))
  {
    var key := Element("key", AsRead(e.key));
    StepsConcat(s, key, Element("string", AsRead(e.value)));
    StepsElement(s, "key", AsRead(e.key));
    StepsElement(Steps(s, key), "string", AsRead(e.value));
  }

  lemma EnvAsReadSnoc(env: seq<EnvVar>)
    requires env != []
    ensures EnvAsRead(env) == EnvAsRead(env[..|env| - 1]) + [VarAsRead(env[|env| - 1])]
  {
  }

  /** Inside the environment every entry is appended, whatever its texts are. */
  lemma {:induction false} StepsEnv(s: Scan, env: seq<EnvVar>)
    requires InEnv(s)
    ensures Steps(s, EnvTokens(env)).out == s.out + EnvAsRead(env) && SameDict(s, Steps(s, EnvTokens(env)))
  {
    if env == [] {
      assert s.out + EnvAsRead(env) == s.out;
    } else {
      var before, e := env[..|env| - 1], env[|env| - 1];
      StepsEnv(s, before);
      StepsConcat(s, EnvTokens(before), Entry(e));
      StepsEntry(Steps(s, EnvTokens(before)), e);
      EnvAsReadSnoc(env);
      assert s.out + EnvAsRead(before) + [VarAsRead(e)] == s.out + EnvAsRead(env);
    }
  }

  /** Outside the environment: what was read stays, and only the last key matters. */
  predicate Outside(s: Scan, out: seq<EnvVar>, depth: int, armed: bool) {
    s.out == out && s.envDepth == 0 && s.depth == depth && s.armed == armed
  }

  lemma OutsideKey(s: Scan, text: string)
    requires s.envDepth == 0
    ensures Outside(Steps(s, Element("key", text)), s.out, s.depth, text == "EnvironmentVariables")
  {
    StepsElement(s, "key", text);
  }

  lemma OutsideString(s: Scan, text: string)
    requires s.envDepth == 0
    ensures Outside(Steps(s, Element("string", text)), s.out, s.depth, s.armed)
  {
    StepsElement(s, "string", text);
  }

  lemma OutsideSetting(s: Scan, name: string, text: string)
    requires s.envDepth == 0 && name != "EnvironmentVariables"
    ensures Outside(Steps(s, Setting(name, text)), s.out, s.depth, false)
  {
    OutsideKey(s, name);
    OutsideString(Steps(s, Element("key", name)), text);
    StepsConcat(s, Element("key", name), Element("string", text));
  }

  lemma OutsideFlag(s: Scan, name: string)
    requires s.envDepth == 0 && name != "EnvironmentVariables"
    ensures Outside(Steps(s, Flag(name)), s.out, s.depth, false)
  {
    OutsideKey(s, name);
    Two(s, Element("key", name), Start("true"), End("true"));
  }

  lemma OutsideProgram(s: Scan, execPath: string)
    requires s.envDepth == 0
    ensures Outside(Steps(s, Program(execPath)), s.out, s.depth, false)
  {
    var a := Element("key", "ProgramArguments");
    OutsideKey(s, "ProgramArguments");
    One(s, a, Start("array"));
    var b := a + [Start("array")];
    StepsConcat(s, b, Element("string", execPath));
    OutsideString(Steps(s, b), execPath);
    var c := b + Element("string", execPath);
    StepsConcat(s, c, Element("string", "serve"));
    OutsideString(Steps(s, c), "serve");
    One(s, c + Element("string", "serve"), End("array"));
  }

  lemma StepsPreamble()
    ensures Outside(Steps(INITIAL, PREAMBLE), [], 1, false)
  {
    Two(INITIAL, [], Other, Other);
    Two(INITIAL, [Other, Other], Start("plist"), Start("dict"));
    assert [] + [Other, Other] == [Other, Other];
    assert [Other, Other] + [Start("plist"), Start("dict")] == PREAMBLE;
  }

  /** The one dict that is taken for the environment is the one after its key. */
  lemma StepsEnvKey(s: Scan)
    requires s.envDepth == 0 && s.depth >= 0
    ensures
      var s' := Steps(s, Element("key", "EnvironmentVariables") + [Start("dict")]);
      s'.out == s.out && InEnv(s')
  {
    OutsideKey(s, "EnvironmentVariables");
    One(s, Element("key", "EnvironmentVariables"), Start("dict"));
  }

  lemma StepsOpening(label0: string, execPath: string)
    ensures
      var s := Steps(INITIAL, Opening(label0, execPath));
      s.out == [] && InEnv(s)
  {
    var a := PREAMBLE + Setting("Label", label0);
    StepsPreamble();
    StepsConcat(INITIAL, PREAMBLE, Setting("Label", label0));
    OutsideSetting(Steps(INITIAL, PREAMBLE), "Label", label0);
    StepsConcat(INITIAL, a, Program(execPath));
    OutsideProgram(Steps(INITIAL, a), execPath);
    var b := a + Program(execPath);
    StepsConcat(INITIAL, b, Element("key", "EnvironmentVariables") + [Start("dict")]);
    StepsEnvKey(Steps(INITIAL, b));
  }

  /** Nothing after the environment is taken for a part of it. */
  lemma StepsClosing(s: Scan, logPath: string)
    requires InEnv(s)
    ensures Steps(s, Closing(logPath)).out == s.out
  {
    StepsOne(s, End("dict"));
    var a := [End("dict")] + Flag("RunAtLoad");
    StepsConcat(s, [End("dict")], Flag("RunAtLoad"));
    OutsideFlag(Steps(s, [End("dict")]), "RunAtLoad");
    StepsConcat(s, a, Flag("KeepAlive"));
    OutsideFlag(Steps(s, a), "KeepAlive");
    var b := a + Flag("KeepAlive");
    StepsConcat(s, b, Setting("StandardOutPath", logPath));
    OutsideSetting(Steps(s, b), "StandardOutPath", logPath);
    var c := b + Setting("StandardOutPath", logPath);
    StepsConcat(s, c, Setting("StandardErrorPath", logPath));
    OutsideSetting(Steps(s, c), "StandardErrorPath", logPath);
    Two(s, c + Setting("StandardErrorPath", logPath), End("dict"), End("plist"));
  }

  lemma StepsPlist(label0: string, execPath: string, env: seq<EnvVar>, logPath: string)
    ensures Steps(INITIAL, PlistTokens(label0, execPath, env, logPath)).out == EnvAsRead(env)
  {
    var opening := Opening(label0, execPath);
    StepsOpening(label0, execPath);
    StepsConcat(INITIAL, opening, EnvTokens(env));
    StepsEnv(Steps(INITIAL, opening), env);
    StepsConcat(INITIAL, opening + EnvTokens(env), Closing(logPath));
    StepsClosing(Steps(INITIAL, opening + EnvTokens(env)), logPath);
    assert [] + EnvAsRead(env) == EnvAsRead(env);
  }

  lemma SameAsReadIff(s: string)
    ensures AsRead(s) == s <==> Holdable(s)
  {
    if AsRead(s) == s {
      assert forall i :: 0 <= i < |s| ==> s[i] == AsRead(s)[i];
    }
  }

  lemma SameEnvIff(env: seq<EnvVar>)
    ensures EnvAsRead(env) == env <==> AllHoldable(env)
  {
    forall i | 0 <= i < |env|
      ensures VarAsRead(env[i]) == env[i] <==> Holdable(env[i].key) && Holdable(env[i].value)
    {
      SameAsReadIff(env[i].key);
      SameAsReadIff(env[i].value);
    }
    if EnvAsRead(env) == env {
      assert forall i :: 0 <= i < |env| ==> env[i] == EnvAsRead(env)[i];
    }
  }

  /** Reading a rendered property list back gives the variables that went in, even one
      named EnvironmentVariables and whatever stands between the elements, exactly when
      XML can hold all their characters. */
  lemma PlistRoundTripIff(label0: string, execPath: string, env: seq<EnvVar>, logPath: string, tokens: seq<Token>)
    requires Compact(tokens) == PlistTokens(label0, execPath, env, logPath)
    ensures Steps(INITIAL, tokens).out == EnvAsRead(env)
    ensures Steps(INITIAL, tokens).out == env <==> AllHoldable(env)
  {
    SpacingIsIgnored(tokens);
    StepsPlist(label0, execPath, env, logPath);
    SameEnvIff(env);
  }

  /** A value that an install accepts and that does not come back: one with a bell in it. */
  lemma BellIsLost(label0: string, execPath: string, logPath: string, tokens: seq<Token>)
    requires Compact(tokens) == PlistTokens(label0, execPath, [EnvVar(HOSTNAME, "\U{7}")], logPath)
    ensures Representable([EnvVar(HOSTNAME, "\U{7}")])
    ensures Steps(INITIAL, tokens).out == [EnvVar(HOSTNAME, "\U{FFFD}")]
  {
    var env := [EnvVar(HOSTNAME, "\U{7}")];
    PlistRoundTripIff(label0, execPath, env, logPath, tokens);
    CapturedKeysAreValid();
    ValidKeyIsHoldable(HOSTNAME);
    assert AsRead("\U{7}") == "\U{FFFD}";
    assert EnvAsRead(env) == [VarAsRead(env[0])];
  }

  lemma ValidKeyIsHoldable(key: string)
    requires ValidKey(key)
    ensures AsRead(key) == key
  {
    forall i | 0 <= i < |key|
      ensures InXml(key[i])
    {
      assert key[i] in key;
    }
    SameAsReadIff(key);
  }

  // ------------------------------------------------------------------ install history

  /** What an install reads from the list it finds; no tokens stand for no list. */
  function Found(tokens: seq<Token>): seq<EnvVar> {
    Steps(INITIAL, tokens).out
  }

  function OneAsRead(e: Option<EnvVar>): Option<EnvVar> {
    if e.Some? then Some(VarAsRead(e.value)) else None
  }

  lemma ReadTwice(e: Option<EnvVar>)
    ensures OneAsRead(OneAsRead(e)) == OneAsRead(e)
  {
    if e.Some? {
      assert AsRead(AsRead(e.value.key)) == AsRead(e.value.key);
      assert AsRead(AsRead(e.value.value)) == AsRead(e.value.value);
    }
  }

  lemma {:induction false} LookupAsRead(env: seq<EnvVar>, key: string)
    requires Representable(env)
    ensures Lookup(EnvAsRead(env), key) == OneAsRead(Lookup(env, key))
  {
    if env != [] {
      ValidKeyIsHoldable(env[0].key);
      assert EnvAsRead(env)[0] == VarAsRead(env[0]) && EnvAsRead(env)[1..] == EnvAsRead(env[1..]);
      LookupAsRead(env[1..], key);
    }
  }

  lemma HoldableLookup(env: seq<EnvVar>, key: string)
    requires AllHoldable(env)
    ensures OneAsRead(Lookup(env, key)) == Lookup(env, key)
  {
    LookupHasKey(env, key);
    if Lookup(env, key).Some? {
      var e := Lookup(env, key).value;
      SameAsReadIff(e.key);
      SameAsReadIff(e.value);
    }
  }

  /** One install over `before`: a list with the carried environment takes its place,
      unless an entry cannot be written. */
  ghost predicate Rewrites(before: seq<Token>, shell: Shell, after: seq<Token>) {
    var env := NewEnv(Found(before), shell);
    if Representable(env) then
      exists label0, execPath, logPath :: Compact(after) == PlistTokens(label0, execPath, env, logPath)
    else after == before
  }

  ghost predicate RewritesAt(lists: seq<seq<Token>>, shells: seq<Shell>, i: nat)
    requires i < |shells| && |lists| == |shells| + 1
  {
    Rewrites(lists[i], shells[i], lists[i + 1])
  }

  /** Installs one after the other; what the first of them found was decoded from XML. */
  ghost predicate IsHistory(lists: seq<seq<Token>>, shells: seq<Shell>) {
    && |lists| == |shells| + 1 && AllHoldable(Found(lists[0]))
    && forall i :: 0 <= i < |shells| ==> RewritesAt(lists, shells, i)
  }

  /** What the most recent of the first n installs that went through and whose shell set
      `key` set it to; what the first list had, if there was none. */
  function Latest(lists: seq<seq<Token>>, shells: seq<Shell>, n: nat, key: string): Option<EnvVar>
    requires n <= |shells| && |lists| == |shells| + 1
  {
    if n == 0 then Lookup(Found(lists[0]), key)
    else if Representable(NewEnv(Found(lists[n - 1]), shells[n - 1])) && Getenv(shells[n - 1], key) != ""
    then Some(EnvVar(key, ShellValue(shells[n - 1], key)))
    else Latest(lists, shells, n - 1, key)
  }

  lemma RewriteKeepsOrSets(before: seq<Token>, shell: Shell, after: seq<Token>, key: string)
    requires key in CAPTURED && Rewrites(before, shell, after)
    ensures
      var env := NewEnv(Found(before), shell);
      Lookup(Found(after), key)
      == if !Representable(env) then Lookup(Found(before), key)
         else if Getenv(shell, key) != "" then OneAsRead(Some(EnvVar(key, ShellValue(shell, key))))
         else OneAsRead(Lookup(Found(before), key))
  {
    var env := NewEnv(Found(before), shell);
    if Representable(env) {
      var label0, execPath, logPath :| Compact(after) == PlistTokens(label0, execPath, env, logPath);
      PlistRoundTripIff(label0, execPath, env, logPath, after);
      NewEnvLookup(Found(before), shell, key);
      LookupAsRead(env, key);
    }
  }

  /** The history theorem of the systemd unit, for property lists: each captured variable
      has the value of the most recent install that went through and whose shell set it,
      as XML holds it. */
  lemma {:induction false} PlistHistory(lists: seq<seq<Token>>, shells: seq<Shell>, n: nat, key: string)
    requires IsHistory(lists, shells) && n <= |shells| && key in CAPTURED
    ensures Lookup(Found(lists[n]), key) == OneAsRead(Latest(lists, shells, n, key))
  {
    if n == 0 {
      HoldableLookup(Found(lists[0]), key);
    } else {
      PlistHistory(lists, shells, n - 1, key);
      ReadTwice(Latest(lists, shells, n - 1, key));
      assert RewritesAt(lists, shells, n - 1);
      RewriteKeepsOrSets(lists[n - 1], shells[n - 1], lists[n], key);
    }
  }
}
