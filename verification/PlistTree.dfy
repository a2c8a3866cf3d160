/** Property lists as trees, and what the environment's parser finds in any of them, not
    only in those an install wrote. */
module PlistTree {
  import opened Options
  import T = Text
  import opened UnitEnv
  import opened PlistEnv

  datatype Scalar = Integer | Real | Date | Data | True | False

  datatype Value = Text(text: string) | Leaf(scalar: Scalar, data: string) | Array(items: Items) | Dict(pairs: Pairs)

  datatype Items = NoItems | Items(first: Value, rest: Items)

  datatype Pairs = NoPairs | Pairs(key: string, value: Value, rest: Pairs)

  const ENV_KEY := "EnvironmentVariables"

  function ScalarName(s: Scalar): string {
    match s
    case Integer => "integer"
    case Real => "real"
    case Date => "date"
    case Data => "data"
    case True => "true"
    case False => "false"
  }

  /** A tree's elements as the decoder reports them. */
  function Tokens(v: Value): seq<Token> {
    match v
    case Text(text) => Element("string", text)
    case Leaf(scalar, data) => Element(ScalarName(scalar), data)
    case Array(items) => [Start("array")] + ItemTokens(items) + [End("array")]
    case Dict(pairs) => [Start("dict")] + PairTokens(pairs) + [End("dict")]
  }

  function ItemTokens(items: Items): seq<Token> {
    match items
    case NoItems => []
    case Items(first, rest) => Tokens(first) + ItemTokens(rest)
  }

  function PairTokens(pairs: Pairs): seq<Token> {
    match pairs
    case NoPairs => []
    case Pairs(key, value, rest) => Element("key", key) + Tokens(value) + PairTokens(rest)
  }

  // ------------------------------------------------------------ what a tree holds

  /** The text a value gives a variable: a string, or an array's first outside any dict. */
  function FirstText(v: Value): Option<string> {
    match v
    case Text(text) => Some(text)
    case Array(items) => FirstItemText(items)
    case _ => None
  }

  function FirstItemText(items: Items): Option<string> {
    match items
    case NoItems => None
    case Items(first, rest) => if FirstText(first).Some? then FirstText(first) else FirstItemText(rest)
  }

  function VarOf(key: string, text: Option<string>): seq<EnvVar> {
    if text.Some? then [EnvVar(key, text.value)] else []
  }

  /** The variables of an environment dict. */
  function Vars(pairs: Pairs): seq<EnvVar> {
    match pairs
    case NoPairs => []
    case Pairs(key, value, rest) =>
      VarOf(key, FirstText(value)) + Vars(rest)
  }

  /** What one of a list's own entries adds. */
  function EntryVars(key: string, value: Value): seq<EnvVar> {
    if key == ENV_KEY && value.Dict? then Vars(value.pairs) else []
  }

  /** Those of every environment dict among a list's own entries. */
  function Environment(pairs: Pairs): seq<EnvVar> {
    match pairs
    case NoPairs => []
    case Pairs(key, value, rest) =>
      EntryVars(key, value) + Environment(rest)
  }

  /** A dict in v follows an environment key, also one that `armed` says came just before,
      with no other key between them. */
  predicate Opens(v: Value, armed: bool) {
    match v
    case Array(items) => OpensItems(items, armed)
    case Dict(pairs) => armed || OpensPairs(pairs)
    case _ => false
  }

  predicate OpensItems(items: Items, armed: bool) {
    match items
    case NoItems => false
    case Items(first, rest) => Opens(first, armed) || OpensItems(rest, Arms(first, armed))
  }

  predicate OpensPairs(pairs: Pairs) {
    match pairs
    case NoPairs => false
    case Pairs(key, value, rest) => Opens(value, key == ENV_KEY) || OpensPairs(rest)
  }

  /** An environment key is still waiting for its dict after v, if none was opened. */
  predicate Arms(v: Value, armed: bool) {
    match v
    case Array(items) => ArmsItems(items, armed)
    case Dict(pairs) => ArmsPairs(pairs, false)
    case _ => armed
  }

  predicate ArmsItems(items: Items, armed: bool) {
    match items
    case NoItems => armed
    case Items(first, rest) => ArmsItems(rest, Arms(first, armed))
  }

  predicate ArmsPairs(pairs: Pairs, armed: bool) {
    match pairs
    case NoPairs => armed
    case Pairs(key, value, rest) => ArmsPairs(rest, Arms(value, key == ENV_KEY))
  }

  /** The same of an environment dict's entries, whose own keys are names of variables. */
  predicate OpensVars(pairs: Pairs, armed: bool) {
    match pairs
    case NoPairs => false
    case Pairs(_, value, rest) => Opens(value, armed) || OpensVars(rest, Arms(value, armed))
  }

  predicate ArmsVars(pairs: Pairs, armed: bool) {
    match pairs
    case NoPairs => armed
    case Pairs(_, value, rest) => ArmsVars(rest, Arms(value, armed))
  }

  /** Environment keys name dicts among the list's own entries and nowhere deeper. */
  predicate Straight(pairs: Pairs) {
    match pairs
    case NoPairs => true
    case Pairs(key, value, rest) =>
      && (if key == ENV_KEY && value.Dict? then !OpensVars(value.pairs, false) else !Opens(value, key == ENV_KEY))
      && Straight(rest)
  }

  // ---------------------------------------------------------------- single elements

  function Rested(s: Scan): Scan {
    s.(elem := "", text := "")
  }

  lemma StepsLeaf(s: Scan, scalar: Scalar, data: string)
    ensures Steps(s, Element(ScalarName(scalar), data)) == Rested(s)
  {
    var name := ScalarName(scalar);
    var open := s.(elem := name, text := "");
    StepsOne(s, Start(name));
    StepsOne(open, Chars(data));
    var chars := if data == "" then [] else [Chars(data)];
    StepsConcat(s, [Start(name)], chars);
    StepsConcat(s, [Start(name)] + chars, [End(name)]);
    StepsOne(open, End(name));
  }

  lemma StepsWrapped(s: Scan, open: Token, inner: seq<Token>, close: Token)
    ensures Steps(s, [open] + inner + [close]) == Step(Steps(Step(s, open), inner), close)
  {
    StepsOne(s, open);
    StepsConcat(s, [open], inner);
    StepsConcat(s, [open] + inner, [close]);
    StepsOne(Steps(Step(s, open), inner), close);
  }

  lemma StepsPair(s: Scan, key: string, value: Value, rest: Pairs)
    ensures Steps(s, PairTokens(Pairs(key, value, rest)))
         == Steps(Steps(Steps(s, Element("key", key)), Tokens(value)), PairTokens(rest))
  {
    StepsConcat(s, Element("key", key), Tokens(value));
    StepsConcat(s, Element("key", key) + Tokens(value), PairTokens(rest));
  }

  // ------------------------------------------------- a scan that has left an environment

  /** At depth `env` or below it, in no environment of that depth. */
  predicate Lost(s: Scan, env: int) {
    0 < env <= s.depth && s.envDepth != env
  }

  lemma LostElement(s: Scan, name: string, text: string, env: int)
    requires Lost(s, env) && name in {"key", "string"}
    ensures Steps(s, Element(name, text)).depth == s.depth && Lost(Steps(s, Element(name, text)), env)
  {
    StepsElement(s, name, text);
  }

  lemma {:induction false} LostStaysLost(s: Scan, v: Value, env: int)
    requires Lost(s, env)
    ensures Steps(s, Tokens(v)).depth == s.depth && Lost(Steps(s, Tokens(v)), env)
    decreases v, 0
  {
    match v
    case Text(text) => LostElement(s, "string", text, env);
    case Leaf(scalar, data) => StepsLeaf(s, scalar, data);
    case Array(items) =>
      StepsWrapped(s, Start("array"), ItemTokens(items), End("array"));
      LostThroughItems(Step(s, Start("array")), items, env);
    case Dict(pairs) =>
      StepsWrapped(s, Start("dict"), PairTokens(pairs), End("dict"));
      LostThroughPairs(Step(s, Start("dict")), pairs, env);
  }

  lemma {:induction false} LostThroughItems(s: Scan, items: Items, env: int)
    requires Lost(s, env)
    ensures Steps(s, ItemTokens(items)).depth == s.depth && Lost(Steps(s, ItemTokens(items)), env)
    decreases items, 0
  {
    if items.Items? {
      StepsConcat(s, Tokens(items.first), ItemTokens(items.rest));
      LostStaysLost(s, items.first, env);
      LostThroughItems(Steps(s, Tokens(items.first)), items.rest, env);
    }
  }

  lemma {:induction false} LostThroughPairs(s: Scan, pairs: Pairs, env: int)
    requires Lost(s, env)
    ensures Steps(s, PairTokens(pairs)).depth == s.depth && Lost(Steps(s, PairTokens(pairs)), env)
    decreases pairs, 0
  {
    if pairs.Pairs? {
      var s1 := Steps(s, Element("key", pairs.key));
      StepsPair(s, pairs.key, pairs.value, pairs.rest);
      LostElement(s, "key", pairs.key, env);
      LostStaysLost(s1, pairs.value, env);
      LostThroughPairs(Steps(s1, Tokens(pairs.value)), pairs.rest, env);
    }
  }

  // ------------------------------------------------ beside the environment, and below it

  predicate Beside(s: Scan) {
    s.depth >= 0 && s.envDepth >= 0 && (s.envDepth == 0 || s.depth > s.envDepth)
  }

  lemma KeyBeside(s: Scan, key: string)
    requires Beside(s)
    ensures Steps(s, Element("key", key)) == Rested(s).(armed := key == ENV_KEY)
  {
    StepsElement(s, "key", key);
  }

  /** The scan is at rest as it was, but for what the next dict is taken for. */
  predicate Passed(s: Scan, s': Scan, armed: bool) {
    Rested(s') == Rested(s).(armed := armed)
  }

  lemma ArrayBeside(s: Scan, inner: seq<Token>, armed: bool)
    requires Beside(s) && Passed(s, Steps(Step(s, Start("array")), inner), armed)
    ensures Passed(s, Steps(s, [Start("array")] + inner + [End("array")]), armed)
  {
    StepsWrapped(s, Start("array"), inner, End("array"));
  }

  lemma DictBeside(s: Scan, inner: seq<Token>, armed: bool)
    requires Beside(s) && !s.armed && Passed(Step(s, Start("dict")), Steps(Step(s, Start("dict")), inner), armed)
    ensures Passed(s, Steps(s, [Start("dict")] + inner + [End("dict")]), armed)
  {
    StepsWrapped(s, Start("dict"), inner, End("dict"));
  }

  /** Away from the environment a value changes nothing but what the next dict is taken
      for. */
  lemma {:induction false} ReadsBeside(s: Scan, v: Value)
    requires Beside(s) && !Opens(v, s.armed)
    ensures Passed(s, Steps(s, Tokens(v)), Arms(v, s.armed))
    decreases v, 0
  {
    match v
    case Text(text) => StepsElement(s, "string", text);
    case Leaf(scalar, data) => StepsLeaf(s, scalar, data);
    case Array(items) =>
      ItemsBeside(Step(s, Start("array")), items);
      ArrayBeside(s, ItemTokens(items), ArmsItems(items, s.armed));
    case Dict(pairs) =>
      PairsBeside(Step(s, Start("dict")), pairs);
      DictBeside(s, PairTokens(pairs), ArmsPairs(pairs, false));
  }

  lemma {:induction false} ItemsBeside(s: Scan, items: Items)
    requires Beside(s) && !OpensItems(items, s.armed)
    ensures Passed(s, Steps(s, ItemTokens(items)), ArmsItems(items, s.armed))
    decreases items, 0
  {
    if items.Items? {
      StepsConcat(s, Tokens(items.first), ItemTokens(items.rest));
      ReadsBeside(s, items.first);
      ItemsBeside(Steps(s, Tokens(items.first)), items.rest);
    }
  }

  lemma {:induction false} PairsBeside(s: Scan, pairs: Pairs)
    requires Beside(s) && !OpensPairs(pairs)
    ensures Passed(s, Steps(s, PairTokens(pairs)), ArmsPairs(pairs, s.armed))
    decreases pairs, 0
  {
    if pairs.Pairs? {
      var s1 := Steps(s, Element("key", pairs.key));
      StepsPair(s, pairs.key, pairs.value, pairs.rest);
      KeyBeside(s, pairs.key);
      ReadsBeside(s1, pairs.value);
      PairsBeside(Steps(s1, Tokens(pairs.value)), pairs.rest);
    }
  }

  // ------------------------------------------------------------- in the environment

  predicate Within(s: Scan) {
    InEnv(s) && s.depth > 0
  }

  /** A scan in the environment after reading this much of a value. */
  function Took(s: Scan, text: Option<string>, armed: bool): Scan {
    Rested(s).(out := s.out + (if s.wantValue && text.Some? then [EnvVar(s.curKey, text.value)] else []),
               wantValue := s.wantValue && text.None?, armed := armed)
  }

  lemma TookTwice(s: Scan, a: Option<string>, b: Option<string>, armed: bool, armed': bool)
    ensures Took(Took(s, a, armed), b, armed') == Took(s, if a.Some? then a else b, armed')
  {
  }

  lemma TookRested(s: Scan, text: Option<string>, armed: bool)
    ensures Took(Rested(s), text, armed) == Took(s, text, armed)
  {
  }

  lemma DictWithin(s: Scan, pairs: Pairs)
    requires Within(s) && !Opens(Dict(pairs), s.armed)
    ensures Rested(Steps(s, Tokens(Dict(pairs)))) == Took(s, None, Arms(Dict(pairs), s.armed))
  {
    var open := Step(s, Start("dict"));
    StepsWrapped(s, Start("dict"), PairTokens(pairs), End("dict"));
    PairsBeside(open, pairs);
    assert s.out + [] == s.out;
  }

  lemma TextWithin(s: Scan, text: string)
    requires Within(s)
    ensures Rested(Steps(s, Element("string", text))) == Took(s, Some(text), s.armed)
  {
    StepsElement(s, "string", text);
    assert s.out + [] == s.out;
  }

  lemma LeafWithin(s: Scan, scalar: Scalar, data: string)
    requires Within(s)
    ensures Rested(Steps(s, Element(ScalarName(scalar), data))) == Took(s, None, s.armed)
  {
    StepsLeaf(s, scalar, data);
    assert s.out + [] == s.out;
  }

  lemma WrappedWithin(s: Scan, inner: seq<Token>, text: Option<string>, armed: bool)
    requires Within(s) && Rested(Steps(Step(s, Start("array")), inner)) == Took(Step(s, Start("array")), text, armed)
    ensures Rested(Steps(s, [Start("array")] + inner + [End("array")])) == Took(s, text, armed)
  {
    StepsWrapped(s, Start("array"), inner, End("array"));
  }

  /** In the environment a value is taken as its first text. */
  lemma {:induction false} ReadsWithin(s: Scan, v: Value)
    requires Within(s) && !Opens(v, s.armed)
    ensures Rested(Steps(s, Tokens(v))) == Took(s, FirstText(v), Arms(v, s.armed))
    decreases v, 0
  {
    match v
    case Text(text) => TextWithin(s, text);
    case Leaf(scalar, data) => LeafWithin(s, scalar, data);
    case Array(items) =>
      ItemsWithin(Step(s, Start("array")), items);
      WrappedWithin(s, ItemTokens(items), FirstItemText(items), ArmsItems(items, s.armed));
    case Dict(pairs) => DictWithin(s, pairs);
  }

  lemma {:induction false} ItemsWithin(s: Scan, items: Items)
    requires Within(s) && !OpensItems(items, s.armed)
    ensures Rested(Steps(s, ItemTokens(items))) == Took(s, FirstItemText(items), ArmsItems(items, s.armed))
    decreases items, 0
  {
    if items.Items? {
      var s1 := Steps(s, Tokens(items.first));
      StepsConcat(s, Tokens(items.first), ItemTokens(items.rest));
      ReadsWithin(s, items.first);
      ItemsWithin(s1, items.rest);
      TookRested(s1, FirstItemText(items.rest), ArmsItems(items, s.armed));
      TookTwice(s, FirstText(items.first), FirstItemText(items.rest), s1.armed, ArmsItems(items, s.armed));
    } else {
      assert s.out + [] == s.out;
    }
  }

  lemma KeyWithin(s: Scan, key: string)
    requires Within(s)
    ensures Steps(s, Element("key", key)) == Rested(s).(curKey := key, wantValue := true)
  {
    StepsElement(s, "key", key);
  }

  lemma PairWithin(s: Scan, key: string, value: Value)
    requires Within(s) && !Opens(value, s.armed)
    ensures
      var s' := Steps(Steps(s, Element("key", key)), Tokens(value));
      && s'.out == s.out + VarOf(key, FirstText(value)) && s'.depth == s.depth && s'.envDepth == s.envDepth
      && s'.armed == Arms(value, s.armed)
  {
    KeyWithin(s, key);
    ReadsWithin(Steps(s, Element("key", key)), value);
  }

  /** The entries of an environment dict are read as its variables. */
  lemma {:induction false} VarsWithin(s: Scan, pairs: Pairs)
    requires Within(s) && !OpensVars(pairs, s.armed)
    ensures
      var s' := Steps(s, PairTokens(pairs));
      && s'.out == s.out + Vars(pairs) && s'.depth == s.depth && s'.envDepth == s.envDepth
      && s'.armed == ArmsVars(pairs, s.armed)
    decreases pairs
  {
    if pairs.Pairs? {
      var s2 := Steps(Steps(s, Element("key", pairs.key)), Tokens(pairs.value));
      StepsPair(s, pairs.key, pairs.value, pairs.rest);
      PairWithin(s, pairs.key, pairs.value);
      VarsWithin(s2, pairs.rest);
      T.Regroup(s.out, VarOf(pairs.key, FirstText(pairs.value)), Vars(pairs.rest));
    } else {
      assert s.out + [] == s.out;
    }
  }

  // ------------------------------------------------------------------ whole lists

  lemma EnvironmentIsRead(s: Scan, pairs: Pairs)
    requires Beside(s) && s.envDepth == 0 && s.armed && !OpensVars(pairs, false)
    ensures
      var s' := Steps(s, Tokens(Dict(pairs)));
      s'.out == s.out + Vars(pairs) && s'.depth == s.depth && s'.envDepth == 0
  {
    StepsWrapped(s, Start("dict"), PairTokens(pairs), End("dict"));
    VarsWithin(Step(s, Start("dict")), pairs);
  }

  lemma EntryIsRead(s: Scan, key: string, value: Value)
    requires Beside(s) && s.envDepth == 0
    requires if key == ENV_KEY && value.Dict? then !OpensVars(value.pairs, false) else !Opens(value, key == ENV_KEY)
    ensures
      var s' := Steps(Steps(s, Element("key", key)), Tokens(value));
      s'.out == s.out + EntryVars(key, value) && s'.depth == s.depth && s'.envDepth == 0
  {
    var s1 := Steps(s, Element("key", key));
    KeyBeside(s, key);
    if key == ENV_KEY && value.Dict? {
      EnvironmentIsRead(s1, value.pairs);
    } else {
      ReadsBeside(s1, value);
      assert s.out + [] == s.out;
    }
  }

  lemma {:induction false} EntriesAreRead(s: Scan, pairs: Pairs)
    requires Beside(s) && s.envDepth == 0 && Straight(pairs)
    ensures
      var s' := Steps(s, PairTokens(pairs));
      s'.out == s.out + Environment(pairs) && s'.depth == s.depth && s'.envDepth == 0
    decreases pairs
  {
    if pairs.Pairs? {
      var s2 := Steps(Steps(s, Element("key", pairs.key)), Tokens(pairs.value));
      StepsPair(s, pairs.key, pairs.value, pairs.rest);
      EntryIsRead(s, pairs.key, pairs.value);
      EntriesAreRead(s2, pairs.rest);
      T.Regroup(s.out, EntryVars(pairs.key, pairs.value), Environment(pairs.rest));
    } else {
      assert s.out + [] == s.out;
    }
  }

  /** A property list with this dict, with whatever stands between its elements. */
  ghost predicate Lists(tokens: seq<Token>, pairs: Pairs) {
    Compact(tokens) == [Other, Other, Start("plist")] + Tokens(Dict(pairs)) + [End("plist")]
  }

  lemma ListEntries(tokens: seq<Token>, pairs: Pairs)
    requires Lists(tokens, pairs)
    ensures Steps(INITIAL, tokens).out == Steps(INITIAL.(depth := 1, elem := "dict"), PairTokens(pairs)).out
  {
    var opening, dict := [Other, Other, Start("plist")], Tokens(Dict(pairs));
    SpacingIsIgnored(tokens);
    StepsConcat(INITIAL, opening, dict);
    StepsConcat(INITIAL, opening + dict, [End("plist")]);
    OpeningIsRead();
    var s := Steps(INITIAL, opening);
    StepsWrapped(s, Start("dict"), PairTokens(pairs), End("dict"));
    StepsOne(Steps(s, dict), End("plist"));
  }

  /** Whoever wrote the list: from any whose environment keys name dicts among its own
      entries and nowhere deeper, exactly the variables of those dicts are read, whatever
      else it and they hold. */
  lemma AnyListIsRead(tokens: seq<Token>, pairs: Pairs)
    requires Lists(tokens, pairs) && Straight(pairs)
    ensures Steps(INITIAL, tokens).out == Environment(pairs)
  {
    ListEntries(tokens, pairs);
    EntriesAreRead(INITIAL.(depth := 1, elem := "dict"), pairs);
    assert [] + Environment(pairs) == Environment(pairs);
  }

  lemma OpeningIsRead()
    ensures Steps(INITIAL, [Other, Other, Start("plist")]) == INITIAL.(elem := "plist")
  {
    StepsConcat(INITIAL, [Other, Other], [Start("plist")]);
    assert [Other] + [Other] == [Other, Other] && [Other, Other] + [Start("plist")] == [Other, Other, Start("plist")];
    StepsConcat(INITIAL, [Other], [Other]);
    StepsOne(INITIAL, Other);
    StepsOne(INITIAL, Start("plist"));
  }

  // -------------------------------------------------------- dicts in the environment

  /** One that opens at a dict in v is no longer in the environment after v. */
  lemma {:induction false} OpeningLeaves(s: Scan, v: Value, env: int)
    requires 0 < env == s.envDepth <= s.depth && Opens(v, s.armed)
    ensures Steps(s, Tokens(v)).depth == s.depth && Lost(Steps(s, Tokens(v)), env)
    decreases v, 0
  {
    match v
    case Array(items) =>
      StepsWrapped(s, Start("array"), ItemTokens(items), End("array"));
      ItemsLeave(Step(s, Start("array")), items, env);
    case Dict(pairs) =>
      StepsWrapped(s, Start("dict"), PairTokens(pairs), End("dict"));
      if s.armed {
        LostThroughPairs(Step(s, Start("dict")), pairs, env);
      } else {
        PairsLeave(Step(s, Start("dict")), pairs, env);
      }
  }

  lemma {:induction false} ItemsLeave(s: Scan, items: Items, env: int)
    requires 0 < env == s.envDepth <= s.depth && OpensItems(items, s.armed)
    ensures Steps(s, ItemTokens(items)).depth == s.depth && Lost(Steps(s, ItemTokens(items)), env)
    decreases items, 0
  {
    var s1 := Steps(s, Tokens(items.first));
    StepsConcat(s, Tokens(items.first), ItemTokens(items.rest));
    if Opens(items.first, s.armed) {
      OpeningLeaves(s, items.first, env);
      LostThroughItems(s1, items.rest, env);
    } else {
      if s.depth == env { ReadsWithin(s, items.first); } else { ReadsBeside(s, items.first); }
      ItemsLeave(s1, items.rest, env);
    }
  }

  lemma {:induction false} PairsLeave(s: Scan, pairs: Pairs, env: int)
    requires 0 < env == s.envDepth < s.depth && OpensPairs(pairs)
    ensures Steps(s, PairTokens(pairs)).depth == s.depth && Lost(Steps(s, PairTokens(pairs)), env)
    decreases pairs, 0
  {
    var s1 := Steps(s, Element("key", pairs.key));
    var s2 := Steps(s1, Tokens(pairs.value));
    StepsPair(s, pairs.key, pairs.value, pairs.rest);
    KeyBeside(s, pairs.key);
    if Opens(pairs.value, pairs.key == ENV_KEY) {
      OpeningLeaves(s1, pairs.value, env);
      LostThroughPairs(s2, pairs.rest, env);
    } else {
      ReadsBeside(s1, pairs.value);
      PairsLeave(s2, pairs.rest, env);
    }
  }

  /** A value in the environment, nested dicts and all, does not end its scan exactly when
      no dict in it follows an environment key. */
  lemma NestedEndsScanIff(s: Scan, v: Value)
    requires Within(s)
    ensures Within(Steps(s, Tokens(v))) <==> !Opens(v, s.armed)
  {
    if Opens(v, s.armed) {
      OpeningLeaves(s, v, s.envDepth);
    } else {
      ReadsWithin(s, v);
    }
  }

  /** What an environment that has lost its scan still reads of plain texts: nothing. */
  lemma LostReadsNothing(s: Scan, name: string, value: string)
    requires Beside(s)
    ensures Steps(s, PairTokens(Pairs(name, Text(value), NoPairs))).out == s.out
  {
    StepsPair(s, name, Text(value), NoPairs);
    KeyBeside(s, name);
    StepsElement(Steps(s, Element("key", name)), "string", value);
  }

  /** A dict in the environment that holds another environment, which is empty. */
  lemma EnvironmentInside(s: Scan)
    requires Within(s) && !s.armed
    ensures
      var s' := Steps(s, Tokens(Dict(Pairs(ENV_KEY, Dict(NoPairs), NoPairs))));
      s'.out == s.out && s'.depth == s.depth && s'.envDepth == 0
  {
    var inner := Step(s, Start("dict"));
    StepsWrapped(s, Start("dict"), PairTokens(Pairs(ENV_KEY, Dict(NoPairs), NoPairs)), End("dict"));
    StepsPair(inner, ENV_KEY, Dict(NoPairs), NoPairs);
    KeyBeside(inner, ENV_KEY);
    StepsWrapped(Steps(inner, Element("key", ENV_KEY)), Start("dict"), [], End("dict"));
  }

  /** An environment with a dict for a value, in which an environment key names another. */
  function Twofold(other: string, name: string, value: string): Pairs {
    var nested := Dict(Pairs(ENV_KEY, Dict(NoPairs), NoPairs));
    Pairs(ENV_KEY, Dict(Pairs(other, nested, Pairs(name, Text(value), NoPairs))), NoPairs)
  }

  lemma TwofoldHolds(other: string, name: string, value: string)
    ensures Environment(Twofold(other, name, value)) == [EnvVar(name, value)]
  {
    var nested := Dict(Pairs(ENV_KEY, Dict(NoPairs), NoPairs));
    var last := Pairs(name, Text(value), NoPairs);
    assert Vars(last) == [EnvVar(name, value)] + [];
    assert Vars(Pairs(other, nested, last)) == [] + Vars(last);
    assert Environment(Twofold(other, name, value)) == Vars(Pairs(other, nested, last)) + [];
  }

  lemma TwofoldVars(s: Scan, other: string, name: string, value: string)
    requires Within(s) && !s.armed
    ensures
      var nested := Dict(Pairs(ENV_KEY, Dict(NoPairs), NoPairs));
      Steps(s, PairTokens(Pairs(other, nested, Pairs(name, Text(value), NoPairs)))).out == s.out
  {
    var nested, last := Dict(Pairs(ENV_KEY, Dict(NoPairs), NoPairs)), Pairs(name, Text(value), NoPairs);
    StepsPair(s, other, nested, last);
    KeyWithin(s, other);
    EnvironmentInside(Steps(s, Element("key", other)));
    LostReadsNothing(Steps(Steps(s, Element("key", other)), Tokens(nested)), name, value);
  }

  /** What follows the inner environment is not read, in any such list. */
  lemma NestedEnvironmentEndsScan(tokens: seq<Token>, other: string, name: string, value: string)
    requires Lists(tokens, Twofold(other, name, value))
    ensures Environment(Twofold(other, name, value)) == [EnvVar(name, value)]
    ensures Steps(INITIAL, tokens).out == []
  {
    TwofoldHolds(other, name, value);
    var pairs := Twofold(other, name, value);
    var vars, s := pairs.value.pairs, INITIAL.(depth := 1, elem := "dict");
    var armed := Steps(s, Element("key", ENV_KEY));
    ListEntries(tokens, pairs);
    StepsPair(s, ENV_KEY, Dict(vars), NoPairs);
    KeyBeside(s, ENV_KEY);
    StepsWrapped(armed, Start("dict"), PairTokens(vars), End("dict"));
    TwofoldVars(Step(armed, Start("dict")), other, name, value);
  }
}
