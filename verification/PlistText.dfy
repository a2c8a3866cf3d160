/** The property list as text: what an install writes, character by character, and the part
    of an XML decoder that reading it back needs. */
module PlistText {
  import opened Options
  import opened UnitEnv
  import opened PlistEnv

  // ----------------------------------------------------------------- character data

  /** What xml.EscapeText refers to a character by, "" for one that it leaves. */
  function Reference(c: char): string {
    match c
    case '"' => "#34"
    case '\'' => "#39"
    case '&' => "amp"
    case '<' => "lt"
    case '>' => "gt"
    case '\t' => "#x9"
    case '\n' => "#xA"
    case '\r' => "#xD"
    case _ => ""
  }

  function EscapeChar(c: char): string {
    if Reference(c) != "" then "&" + Reference(c) + ";" else if InXml(c) then [c] else "\U{FFFD}"
  }

  function XmlEscape(s: string): string {
    if s == "" then "" else EscapeChar(s[0]) + XmlEscape(s[1..])
  }

  /** What is before the first c; all of it if there is none. */
  function UpTo(s: string, c: char): (r: string)
    ensures r <= s && c !in r && (|r| < |s| ==> s[|r|] == c)
  {
    if s == "" || s[0] == c then "" else [s[0]] + UpTo(s[1..], c)
  }

  function Digit(c: char, base: nat): Option<nat> {
    var d := if '0' <= c <= '9' then c as int - '0' as int
             else if 'a' <= c <= 'f' then c as int - 'a' as int + 10
             else if 'A' <= c <= 'F' then c as int - 'A' as int + 10
             else base;
    if d < base then Some(d) else None
  }

  function Number(digits: string, base: nat): Option<nat> {
    if digits == "" then Some(0)
    else
      var n, d := Number(digits[..|digits| - 1], base), Digit(digits[|digits| - 1], base);
      if n.None? || d.None? then None else Some(n.value * base + d.value)
  }

  function CharOf(code: Option<nat>): Option<char> {
    if code.None? || 0xD800 <= code.value < 0xE000 || code.value >= 0x11_0000 then None
    else if InXml(code.value as char) then Some(code.value as char)
    else None
  }

  /** A reference between & and ;. */
  function Entity(name: string): Option<char> {
    if name == "lt" then Some('<')
    else if name == "gt" then Some('>')
    else if name == "amp" then Some('&')
    else if name == "apos" then Some('\'')
    else if name == "quot" then Some('"')
    else if |name| > 2 && name[..2] == "#x" then CharOf(Number(name[2..], 16))
    else if |name| > 1 && name[0] == '#' then CharOf(Number(name[1..], 10))
    else None
  }

  function After(c: Option<char>, rest: Option<string>): Option<string> {
    if c.None? || rest.None? then None else Some([c.value] + rest.value)
  }

  /** Character data as a decoder reports it: references resolved, line ends made one, and
      an error for what XML cannot hold. */
  function Decoded(s: string): Option<string>
    decreases |s|
  {
    if s == "" then Some("")
    else if s[0] == '&' then
      var name := UpTo(s[1..], ';');
      if |name| + 1 == |s| then None else After(Entity(name), Decoded(s[|name| + 2..]))
    else if s[0] == '\r' then After(Some('\n'), Decoded(if |s| > 1 && s[1] == '\n' then s[2..] else s[1..]))
    else if !InXml(s[0]) then None
    else After(Some(s[0]), Decoded(s[1..]))
  }

  lemma {:induction false} UpToFirst(a: string, c: char, b: string)
    requires c !in a
    ensures UpTo(a + [c] + b, c) == a
  {
    if a == "" {
      assert (a + [c] + b)[0] == c;
    } else {
      assert (a + [c] + b)[0] == a[0] && (a + [c] + b)[1..] == a[1..] + [c] + b;
      UpToFirst(a[1..], c, b);
    }
  }

  lemma {:induction false} UpToAll(a: string, c: char)
    requires c !in a
    ensures UpTo(a, c) == a
  {
    if a != "" { UpToAll(a[1..], c); }
  }

  lemma DecodedReference(name: string, rest: string)
    requires ';' !in name
    ensures Decoded("&" + name + ";" + rest) == After(Entity(name), Decoded(rest))
  {
    var s := "&" + name + ";" + rest;
    assert s[1..] == name + [';'] + rest;
    UpToFirst(name, ';', rest);
    assert s[|name| + 2..] == rest;
  }

  lemma Numbers()
    ensures Number("34", 10) == Some(34) && Number("39", 10) == Some(39)
    ensures Number("9", 16) == Some(9) && Number("A", 16) == Some(10) && Number("D", 16) == Some(13)
  {
    assert "34"[..1] == "3" && "39"[..1] == "3";
    assert Number("3", 10) == Some(3);
  }

  lemma Entities()
    ensures Entity("amp") == Some('&') && Entity("lt") == Some('<') && Entity("gt") == Some('>')
    ensures Entity("#34") == Some('"') && Entity("#39") == Some('\'')
    ensures Entity("#x9") == Some('\t') && Entity("#xA") == Some('\n') && Entity("#xD") == Some('\r')
  {
    Numbers();
    assert "#34"[1..] == "34" && "#39"[1..] == "39";
    assert "#x9"[..2] == "#x" && "#x9"[2..] == "9";
    assert "#xA"[..2] == "#x" && "#xA"[2..] == "A";
    assert "#xD"[..2] == "#x" && "#xD"[2..] == "D";
  }

  lemma ReferenceResolves(c: char)
    requires Reference(c) != ""
    ensures Entity(Reference(c)) == Some(c)
  {
    Entities();
  }

  lemma ReferenceIsName(c: char)
    requires Reference(c) != ""
    ensures ';' !in Reference(c) && '<' !in Reference(c) && InXml(c)
  {
  }

  function CharAsRead(c: char): char {
    if InXml(c) then c else '\U{FFFD}'
  }

  lemma DecodedChar(c: char, rest: string)
    ensures Decoded(EscapeChar(c) + rest) == After(Some(CharAsRead(c)), Decoded(rest))
  {
    if Reference(c) != "" {
      ReferenceResolves(c);
      ReferenceIsName(c);
      DecodedReference(Reference(c), rest);
    } else {
      var d := CharAsRead(c);
      assert ([d] + rest)[1..] == rest;
      assert d != '&' && d != '\r' && InXml(d) by { NotReferred(c); }
      assert EscapeChar(c) + rest == [d] + rest;
    }
  }

  lemma NotReferred(c: char)
    requires Reference(c) == ""
    ensures c != '&' && c != '\r' && c != '<'
  {
  }

  lemma AsReadCons(s: string)
    requires s != ""
    ensures AsRead(s) == [CharAsRead(s[0])] + AsRead(s[1..])
  {
  }

  /** Escaping is undone by decoding, but for what XML cannot hold. */
  lemma {:induction false} DecodedEscape(s: string)
    ensures Decoded(XmlEscape(s)) == Some(AsRead(s))
  {
    if s == "" {
      assert AsRead(s) == "";
    } else {
      DecodedChar(s[0], XmlEscape(s[1..]));
      DecodedEscape(s[1..]);
      AsReadCons(s);
    }
  }

  lemma {:induction false} WordsAreUnescaped(s: string)
    requires forall i :: 0 <= i < |s| ==> 'A' <= s[i] <= 'z' || s[i] == '.'
    ensures XmlEscape(s) == s
  {
    if s != "" { WordsAreUnescaped(s[1..]); }
  }

  lemma {:induction false} EscapedIsText(s: string)
    ensures '<' !in XmlEscape(s)
  {
    if s != "" {
      EscapedIsText(s[1..]);
      if Reference(s[0]) == "" { NotReferred(s[0]); } else { ReferenceIsName(s[0]); }
    }
  }

  // ----------------------------------------------------------------------- tokens

  /** A tag without its brackets: its name is what is before the first blank. */
  function TagTokens(tag: string): seq<Token> {
    if tag == "" || tag[0] == '?' || tag[0] == '!' then [Other]
    else if tag[0] == '/' then [End(UpTo(tag[1..], ' '))]
    else if tag[|tag| - 1] == '/' then [Start(UpTo(tag[..|tag| - 1], ' ')), End(UpTo(tag[..|tag| - 1], ' '))]
    else [Start(UpTo(tag, ' '))]
  }

  function Joining(tokens: seq<Token>, rest: Option<seq<Token>>): Option<seq<Token>> {
    if rest.None? then None else Some(tokens + rest.value)
  }

  /** The decoder's tokens, for text whose markup has no > but at its end. */
  function Tokenize(s: string): Option<seq<Token>>
    decreases |s|
  {
    if s == "" then Some([])
    else if s[0] == '<' then
      var tag := UpTo(s[1..], '>');
      if |tag| + 1 == |s| then None else Joining(TagTokens(tag), Tokenize(s[|tag| + 2..]))
    else
      var text := UpTo(s, '<');
      var data := Decoded(text);
      if data.None? then None else Joining([Chars(data.value)], Tokenize(s[|text|..]))
  }

  /** The document in items: spacing, markup, and a key or string with its text. */
  datatype Item =
    | Space(text: string)
    | Decl(text: string)
    | Open(name: string, attrs: string)
    | Close(name: string)
    | Empty(name: string)
    | Field(name: string, text: string)

  function Tagged(name: string, data: string): string {
    "<" + name + ">" + data + "</" + name + ">"
  }

  function ItemText(item: Item): string {
    match item
    case Space(text) => text
    case Decl(text) => "<" + text + ">"
    case Open(name, attrs) => "<" + (name + attrs) + ">"
    case Close(name) => "<" + ("/" + name) + ">"
    case Empty(name) => "<" + (name + "/") + ">"
    case Field(name, text) => Tagged(name, XmlEscape(text))
  }

  function Doc(items: seq<Item>): string {
    if items == [] then "" else ItemText(items[0]) + Doc(items[1..])
  }

  predicate Blank(s: string) {
    s != "" && forall i :: 0 <= i < |s| ==> s[i] == '\n' || s[i] == '\t'
  }

  predicate TagName(name: string) {
    name != "" && forall i :: 0 <= i < |name| ==> 'a' <= name[i] <= 'z'
  }

  predicate ItemOk(item: Item) {
    match item
    case Space(text) => Blank(text)
    case Decl(text) => text != "" && (text[0] == '?' || text[0] == '!') && '>' !in text
    case Open(name, attrs) =>
      && TagName(name) && name != "key" && name != "string"
      && '>' !in attrs && (attrs == "" || (attrs[0] == ' ' && attrs[|attrs| - 1] != '/'))
    case Close(name) => TagName(name)
    case Empty(name) => TagName(name) && name != "key" && name != "string"
    case Field(name, _) => name == "key" || name == "string"
  }

  /** No two spacings in a row: they would be one. */
  predicate DocOk(items: seq<Item>) {
    && (forall i :: 0 <= i < |items| ==> ItemOk(items[i]))
    && (forall i :: 0 <= i < |items| - 1 && items[i].Space? ==> !items[i + 1].Space?)
  }

  function ItemElements(item: Item): seq<Token> {
    match item
    case Space(_) => []
    case Decl(_) => [Other]
    case Open(name, _) => [Start(name)]
    case Close(name) => [End(name)]
    case Empty(name) => [Start(name), End(name)]
    case Field(name, text) => Element(name, AsRead(text))
  }

  function ItemTokens(item: Item): seq<Token> {
    if item.Space? then [Chars(item.text)] else ItemElements(item)
  }

  function DocTokens(items: seq<Item>): seq<Token> {
    if items == [] then [] else ItemTokens(items[0]) + DocTokens(items[1..])
  }

  lemma TokenizeTag(tag: string, rest: string)
    requires '>' !in tag
    ensures Tokenize("<" + tag + ">" + rest) == Joining(TagTokens(tag), Tokenize(rest))
  {
    var s := "<" + tag + ">" + rest;
    assert s[1..] == tag + ['>'] + rest;
    UpToFirst(tag, '>', rest);
    assert s[|tag| + 2..] == rest;
  }

  lemma TokenizeText(text: string, rest: string)
    requires text != "" && '<' !in text && Decoded(text).Some? && (rest == "" || rest[0] == '<')
    ensures Tokenize(text + rest) == Joining([Chars(Decoded(text).value)], Tokenize(rest))
  {
    var s := text + rest;
    if rest == "" {
      assert s == text;
      UpToAll(text, '<');
    } else {
      assert s == text + ['<'] + rest[1..];
      UpToFirst(text, '<', rest[1..]);
    }
    assert s[0] == text[0] && text[0] in text;
    assert s[|text|..] == rest;
  }

  lemma {:induction false} BlankIsItself(s: string)
    requires forall i :: 0 <= i < |s| ==> s[i] == '\n' || s[i] == '\t'
    ensures Decoded(s) == Some(s)
  {
    if s != "" {
      BlankIsItself(s[1..]);
      assert [s[0]] + s[1..] == s;
    }
  }

  lemma NameEndsAtBlank(name: string, attrs: string)
    requires TagName(name) && (attrs == "" || attrs[0] == ' ')
    ensures UpTo(name + attrs, ' ') == name
  {
    assert ' ' !in name;
    if attrs == "" {
      UpToAll(name, ' ');
      assert name + attrs == name;
    } else {
      UpToFirst(name, ' ', attrs[1..]);
      assert name + attrs == name + [' '] + attrs[1..];
    }
  }

  lemma OpenTag(name: string, attrs: string)
    requires TagName(name) && (attrs == "" || (attrs[0] == ' ' && attrs[|attrs| - 1] != '/'))
    ensures TagTokens(name + attrs) == [Start(name)]
  {
    NameEndsAtBlank(name, attrs);
    var tag := name + attrs;
    assert tag[0] == name[0] && (attrs == "" ==> tag[|tag| - 1] == name[|name| - 1]);
  }

  lemma CloseTag(name: string)
    requires TagName(name)
    ensures '>' !in "/" + name && TagTokens("/" + name) == [End(name)]
  {
    UpToAll(name, ' ');
    assert ("/" + name)[1..] == name;
  }

  lemma EmptyTag(name: string)
    requires TagName(name)
    ensures '>' !in name + "/" && TagTokens(name + "/") == [Start(name), End(name)]
  {
    UpToAll(name, ' ');
    assert (name + "/")[..|name|] == name;
  }

  lemma FieldNames()
    ensures TagName("key") && TagName("string")
  {
  }

  lemma FieldText(name: string, text: string, rest: string)
    ensures ItemText(Field(name, text)) + rest
         == "<" + name + ">" + (XmlEscape(text) + ("<" + ("/" + name) + ">" + rest))
  {
    assert "</" + name == "<" + ("/" + name);
  }

  lemma TokenizeField(name: string, text: string, rest: string)
    requires name == "key" || name == "string"
    ensures Tokenize(ItemText(Field(name, text)) + rest) == Joining(Element(name, AsRead(text)), Tokenize(rest))
  {
    var ending := "<" + ("/" + name) + ">" + rest;
    FieldNames();
    OpenTag(name, "");
    assert name + "" == name;
    CloseTag(name);
    FieldText(name, text, rest);
    TokenizeTag(name, XmlEscape(text) + ending);
    TokenizeTag("/" + name, rest);
    TokenizeData(text, ending);
    FieldJoined(name, AsRead(text), Tokenize(rest));
  }

  lemma TokenizeData(text: string, ending: string)
    requires ending != "" && ending[0] == '<'
    ensures Tokenize(XmlEscape(text) + ending)
         == if AsRead(text) == "" then Tokenize(ending) else Joining([Chars(AsRead(text))], Tokenize(ending))
  {
    DecodedEscape(text);
    EscapedIsText(text);
    EscapedIsEmptyIff(text);
    if text == "" {
      assert XmlEscape(text) + ending == ending;
    } else {
      TokenizeText(XmlEscape(text), ending);
    }
  }

  lemma EscapedIsEmptyIff(s: string)
    ensures XmlEscape(s) == "" <==> s == ""
    ensures AsRead(s) == "" <==> s == ""
  {
  }

  lemma FieldJoined(name: string, text: string, rest: Option<seq<Token>>)
    ensures
      var ending := Joining([End(name)], rest);
      Joining(Element(name, text), rest)
      == Joining([Start(name)], if text == "" then ending else Joining([Chars(text)], ending))
  {
    if rest.Some? {
      var data := if text == "" then [] else [Chars(text)];
      assert Element(name, text) + rest.value == [Start(name)] + (data + ([End(name)] + rest.value));
      assert text == "" ==> data + ([End(name)] + rest.value) == [End(name)] + rest.value;
    }
  }

  lemma TokenizeItem(item: Item, rest: string)
    requires ItemOk(item) && (item.Space? ==> rest == "" || rest[0] == '<')
    ensures Tokenize(ItemText(item) + rest) == Joining(ItemTokens(item), Tokenize(rest))
  {
    match item
    case Space(text) =>
      BlankIsItself(text);
      TokenizeText(text, rest);
    case Decl(text) => TokenizeTag(text, rest);
    case Open(name, attrs) =>
      OpenTag(name, attrs);
      TokenizeTag(name + attrs, rest);
    case Close(name) =>
      CloseTag(name);
      TokenizeTag("/" + name, rest);
    case Empty(name) =>
      EmptyTag(name);
      TokenizeTag(name + "/", rest);
    case Field(name, text) => TokenizeField(name, text, rest);
  }

  lemma {:induction false} TokenizeDoc(items: seq<Item>)
    requires DocOk(items)
    ensures Tokenize(Doc(items)) == Some(DocTokens(items))
  {
    if items != [] {
      TokenizeDoc(items[1..]);
      TokenizeItem(items[0], Doc(items[1..]));
    }
  }

  // --------------------------------------------------- the elements without the spacing

  predicate AtRest(tokens: seq<Token>) {
    Elem(tokens) != "key" && Elem(tokens) != "string"
  }

  lemma {:induction false} RestConcat(a: seq<Token>, b: seq<Token>)
    requires AtRest(a)
    ensures AtRest(a + b) <==> AtRest(b)
  {
    if b == [] {
      assert a + b == a;
    } else {
      assert (a + b)[..|a + b| - 1] == a + b[..|b| - 1];
      RestConcat(a, b[..|b| - 1]);
    }
  }

  lemma {:induction false} CompactConcat(a: seq<Token>, b: seq<Token>)
    requires AtRest(a)
    ensures Compact(a + b) == Compact(a) + Compact(b)
  {
    if b == [] {
      assert a + b == a;
    } else {
      assert (a + b)[..|a + b| - 1] == a + b[..|b| - 1];
      RestConcat(a, b[..|b| - 1]);
      CompactConcat(a, b[..|b| - 1]);
    }
  }

  function Elements(items: seq<Item>): seq<Token> {
    if items == [] then [] else ItemElements(items[0]) + Elements(items[1..])
  }

  lemma CompactOne(tokens: seq<Token>, t: Token)
    ensures Compact(tokens + [t]) == Compact(tokens) + if Between(tokens, t) then [] else [t]
  {
  }

  lemma CompactStart(name: string)
    ensures Compact([Start(name)]) == [Start(name)] && Elem([Start(name)]) == name
  {
    assert [] + [Start(name)] == [Start(name)];
    CompactOne([], Start(name));
  }

  lemma CompactData(name: string, text: string)
    requires name == "key" || name == "string"
    ensures Compact([Start(name), Chars(text)]) == [Start(name), Chars(text)]
  {
    CompactStart(name);
    CompactOne([Start(name)], Chars(text));
    assert [Start(name)] + [Chars(text)] == [Start(name), Chars(text)];
  }

  lemma CompactEnded(open: seq<Token>, name: string)
    requires Compact(open) == open
    ensures Compact(open + [End(name)]) == open + [End(name)] && AtRest(open + [End(name)])
  {
    CompactOne(open, End(name));
  }

  lemma CompactField(name: string, text: string)
    requires name == "key" || name == "string"
    ensures Compact(Element(name, text)) == Element(name, text) && AtRest(Element(name, text))
  {
    var open := if text == "" then [Start(name)] else [Start(name), Chars(text)];
    assert Compact(open) == open by {
      CompactStart(name);
      CompactData(name, text);
    }
    CompactEnded(open, name);
    assert Element(name, text) == open + [End(name)];
  }

  lemma CompactEmpty(name: string)
    requires name != "key" && name != "string"
    ensures Compact([Start(name), End(name)]) == [Start(name), End(name)] && AtRest([Start(name), End(name)])
  {
    CompactStart(name);
    CompactEnded([Start(name)], name);
    assert [Start(name)] + [End(name)] == [Start(name), End(name)];
  }

  lemma CompactAlone(t: Token)
    ensures Compact([t]) == if t.Chars? then [] else [t]
    ensures AtRest([t]) <==> !t.Start? || (t.name != "key" && t.name != "string")
  {
    assert [] + [t] == [t] && [t][..0] == [];
    assert Elem([]) == "";
    CompactOne([], t);
  }

  lemma CompactItem(item: Item)
    requires ItemOk(item)
    ensures Compact(ItemTokens(item)) == ItemElements(item) && AtRest(ItemTokens(item))
  {
    match item
    case Space(text) => CompactAlone(Chars(text));
    case Decl(_) => CompactAlone(Other);
    case Open(name, _) => CompactAlone(Start(name));
    case Close(name) => CompactAlone(End(name));
    case Empty(name) => CompactEmpty(name);
    case Field(name, text) => CompactField(name, AsRead(text));
  }

  lemma {:induction false} CompactDoc(items: seq<Item>)
    requires DocOk(items)
    ensures Compact(DocTokens(items)) == Elements(items)
  {
    if items != [] {
      CompactItem(items[0]);
      CompactDoc(items[1..]);
      CompactConcat(ItemTokens(items[0]), DocTokens(items[1..]));
    }
  }

  // ----------------------------------------------------------------- the rendered list

  const XML := "?xml version=\"1.0\" encoding=\"UTF-8\"?"
  const VERSION := " version=\"1.0\""

  /** The document type, in parts. */
  const DOCTYPE_NAME := "!DOCTYPE plist PUBLIC"
  const DOCTYPE_ID := " \"-//Apple//DTD PLIST 1.0//EN\""
  const DOCTYPE_SITE := " \"http://www.apple.com/DTDs"
  const DOCTYPE_FILE := "/PropertyList-1.0.dtd\""
  const DOCTYPE := DOCTYPE_NAME + DOCTYPE_ID + DOCTYPE_SITE + DOCTYPE_FILE

  const HEAD :=
    [Decl(XML), Space("\n"), Decl(DOCTYPE)] + [Space("\n"), Open("plist", VERSION), Space("\n")]
    + [Open("dict", ""), Space("\n\t")]

  function SettingItems(name: string, text: string): seq<Item> {
    [Field("key", name), Field("string", text)]
  }

  function ProgramItems(execPath: string): seq<Item> {
    [Space("\n\t"), Field("key", "ProgramArguments"), Space("\n\t")]
    + [Open("array", ""), Space("\n\t\t"), Field("string", execPath)]
    + [Space("\n\t\t"), Field("string", "serve"), Space("\n\t")]
    + [Close("array"), Space("\n\t")]
  }

  const ENV_OPENING := [Field("key", "EnvironmentVariables"), Space("\n\t"), Open("dict", "")]

  function OpeningItems(label0: string, execPath: string): seq<Item> {
    HEAD + SettingItems("Label", label0) + ProgramItems(execPath) + ENV_OPENING
  }

  function FlagItems(name: string): seq<Item> {
    [Field("key", name), Empty("true"), Space("\n\t")]
  }

  const ENDING := [Space("\n"), Close("dict"), Space("\n")] + [Close("plist"), Space("\n")]

  function ClosingItems(logPath: string): seq<Item> {
    [Close("dict"), Space("\n\t")] + FlagItems("RunAtLoad") + FlagItems("KeepAlive")
    + SettingItems("StandardOutPath", logPath) + [Space("\n\t")] + SettingItems("StandardErrorPath", logPath)
    + ENDING
  }

  /** plistTemplate filled in, the environment block at its place. The words of the template
      are escaped here like the rest, which leaves them as they are. */
  function PlistContent(label0: string, execPath: string, block: string, logPath: string): string {
    Doc(OpeningItems(label0, execPath)) + "\n" + block + "\t" + Doc(ClosingItems(logPath))
  }

  function EntryItems(e: EnvVar): seq<Item> {
    [Space("\n\t\t"), Field("key", e.key), Field("string", e.value)]
  }

  function EnvItems(env: seq<EnvVar>): seq<Item> {
    if env == [] then [] else EnvItems(env[..|env| - 1]) + EntryItems(env[|env| - 1])
  }

  function PlistItems(label0: string, execPath: string, env: seq<EnvVar>, logPath: string): seq<Item> {
    OpeningItems(label0, execPath) + EnvItems(env) + [Space("\n\t")] + ClosingItems(logPath)
  }

  /** One line of renderEnv. */
  function EnvLine(e: EnvVar): string {
    "\t\t" + Tagged("key", XmlEscape(e.key)) + Tagged("string", XmlEscape(e.value)) + "\n"
  }

  function EnvBlock(env: seq<EnvVar>): string {
    if env == [] then "" else EnvBlock(env[..|env| - 1]) + EnvLine(env[|env| - 1])
  }

  method RenderEnv(env: seq<EnvVar>) returns (block: Option<string>)
    ensures block == if Representable(env) then Some(EnvBlock(env)) else None
  {
    var b := "";
    for i := 0 to |env|
      invariant Representable(env[..i]) && b == EnvBlock(env[..i])
    {
      var ok := ValidateEnv(env[i]);
      if !ok {
        return None;
      }
      RepresentableStep(env, i);
      assert env[..i + 1][..i] == env[..i];
      b := b + EnvLine(env[i]);
    }
    assert env[..|env|] == env;
    block := Some(b);
  }

  // --------------------------------------------------------------------- as items

  lemma {:induction false} DocConcat(a: seq<Item>, b: seq<Item>)
    ensures Doc(a + b) == Doc(a) + Doc(b)
  {
    if a == [] {
      assert a + b == b;
    } else {
      assert (a + b)[1..] == a[1..] + b;
      DocConcat(a[1..], b);
    }
  }

  lemma {:induction false} ElementsConcat(a: seq<Item>, b: seq<Item>)
    ensures Elements(a + b) == Elements(a) + Elements(b)
  {
    if a == [] {
      assert a + b == b;
    } else {
      assert (a + b)[1..] == a[1..] + b;
      ElementsConcat(a[1..], b);
    }
  }

  lemma DocOfOne(x: Item)
    ensures Doc([x]) == ItemText(x)
  {
    assert [x][1..] == [] && ItemText(x) + "" == ItemText(x);
  }

  lemma DocOfThree(x: Item, y: Item, z: Item)
    ensures Doc([x, y, z]) == ItemText(x) + ItemText(y) + ItemText(z)
  {
    DocOfOne(x);
    DocOfOne(y);
    DocOfOne(z);
    DocConcat([x], [y]);
    DocConcat([x] + [y], [z]);
    assert [x] + [y] + [z] == [x, y, z];
  }

  lemma LineShifts(k: string, v: string)
    ensures "\n" + ("\t\t" + k + v + "\n") == "\n\t\t" + k + v + "\n"
  {
    assert "\n" + ("\t\t" + k + v) == "\n\t\t" + k + v;
  }

  /** The line end that a line of the block has behind it, its element has in front. */
  lemma LineIsItems(e: EnvVar)
    ensures "\n" + EnvLine(e) == Doc(EntryItems(e)) + "\n"
  {
    DocOfThree(Space("\n\t\t"), Field("key", e.key), Field("string", e.value));
    LineShifts(Tagged("key", XmlEscape(e.key)), Tagged("string", XmlEscape(e.value)));
  }

  lemma BlockShifts(block: string, line: string, doc: string, entry: string)
    requires "\n" + block == doc + "\n" && "\n" + line == entry + "\n"
    ensures "\n" + (block + line) == doc + entry + "\n"
  {
    assert "\n" + (block + line) == ("\n" + block) + line;
    assert doc + "\n" + line == doc + ("\n" + line);
    assert doc + (entry + "\n") == doc + entry + "\n";
  }

  lemma {:induction false} BlockIsItems(env: seq<EnvVar>)
    ensures "\n" + EnvBlock(env) == Doc(EnvItems(env)) + "\n"
  {
    if env != [] {
      var init, e := env[..|env| - 1], env[|env| - 1];
      BlockIsItems(init);
      LineIsItems(e);
      DocConcat(EnvItems(init), EntryItems(e));
      BlockShifts(EnvBlock(init), EnvLine(e), Doc(EnvItems(init)), Doc(EntryItems(e)));
    }
  }

  lemma ContentIsItems(label0: string, execPath: string, env: seq<EnvVar>, logPath: string)
    ensures PlistContent(label0, execPath, EnvBlock(env), logPath) == Doc(PlistItems(label0, execPath, env, logPath))
  {
    var a, b, c := OpeningItems(label0, execPath), EnvItems(env), ClosingItems(logPath);
    BlockIsItems(env);
    DocConcat(a, b);
    DocConcat(a + b, [Space("\n\t")]);
    DocConcat(a + b + [Space("\n\t")], c);
    DocOfOne(Space("\n\t"));
    Regrouped(Doc(a), EnvBlock(env), Doc(b), Doc(c));
  }

  lemma Regrouped(a: string, block: string, b: string, c: string)
    requires "\n" + block == b + "\n"
    ensures a + "\n" + block + "\t" + c == a + b + "\n\t" + c
  {
    assert a + "\n" + block == a + ("\n" + block);
    assert a + (b + "\n") == a + b + "\n";
    assert a + b + "\n" + "\t" == a + b + "\n\t";
  }

  // ------------------------------------------------------------------ round trip

  lemma DoctypeIsOk()
    ensures ItemOk(Decl(DOCTYPE))
  {
    assert '>' !in DOCTYPE_NAME && '>' !in DOCTYPE_ID;
    assert '>' !in DOCTYPE_SITE && '>' !in DOCTYPE_FILE;
    assert DOCTYPE[0] == DOCTYPE_NAME[0];
  }

  lemma XmlIsOk()
    ensures ItemOk(Decl(XML))
  {
  }

  lemma NamesAreOk()
    ensures TagName("plist") && TagName("dict") && TagName("array") && TagName("true")
  {
  }

  lemma VersionIsOk()
    ensures ItemOk(Open("plist", VERSION))
  {
    NamesAreOk();
  }

  lemma SpacingIsOk()
    ensures ItemOk(Space("\n")) && ItemOk(Space("\n\t")) && ItemOk(Space("\n\t\t"))
  {
  }

  lemma DocOkConcat(a: seq<Item>, b: seq<Item>)
    requires DocOk(a) && DocOk(b) && (a != [] && b != [] && b[0].Space? ==> !a[|a| - 1].Space?)
    ensures DocOk(a + b)
  {
  }

  lemma ElementsOfOne(x: Item)
    ensures Elements([x]) == ItemElements(x)
  {
    assert [x][1..] == [] && ItemElements(x) + [] == ItemElements(x);
  }

  lemma ElementsOfTwo(x: Item, y: Item)
    ensures Elements([x, y]) == ItemElements(x) + ItemElements(y)
  {
    ElementsOfOne(x);
    ElementsOfOne(y);
    ElementsConcat([x], [y]);
    assert [x] + [y] == [x, y];
  }

  lemma ElementsOfThree(x: Item, y: Item, z: Item)
    ensures Elements([x, y, z]) == ItemElements(x) + ItemElements(y) + ItemElements(z)
  {
    ElementsOfTwo(x, y);
    ElementsOfOne(z);
    ElementsConcat([x, y], [z]);
    assert [x, y] + [z] == [x, y, z];
  }

  /** b may follow a: they do not meet in two spacings. */
  predicate Meets(a: seq<Item>, b: seq<Item>) {
    a != [] && b != [] && (b[0].Space? ==> !a[|a| - 1].Space?)
  }

  lemma DocJoined(a: seq<Item>, b: seq<Item>)
    requires DocOk(a) && DocOk(b) && Meets(a, b)
    ensures DocOk(a + b) && Elements(a + b) == Elements(a) + Elements(b)
    ensures (a + b)[0] == a[0] && (a + b)[|a + b| - 1] == b[|b| - 1]
  {
    DocOkConcat(a, b);
    ElementsConcat(a, b);
  }

  lemma ThreeJoined(a: seq<Item>, b: seq<Item>, c: seq<Item>)
    requires DocOk(a) && DocOk(b) && DocOk(c) && Meets(a, b) && Meets(b, c)
    ensures DocOk(a + b + c) && Elements(a + b + c) == Elements(a) + Elements(b) + Elements(c)
    ensures (a + b + c)[0] == a[0] && (a + b + c)[|a + b + c| - 1] == c[|c| - 1]
  {
    DocJoined(a, b);
    DocJoined(a + b, c);
  }

  lemma FourJoined(a: seq<Item>, b: seq<Item>, c: seq<Item>, d: seq<Item>)
    requires DocOk(a) && DocOk(b) && DocOk(c) && DocOk(d) && Meets(a, b) && Meets(b, c) && Meets(c, d)
    ensures DocOk(a + b + c + d)
    ensures Elements(a + b + c + d) == Elements(a) + Elements(b) + Elements(c) + Elements(d)
    ensures (a + b + c + d)[0] == a[0] && (a + b + c + d)[|a + b + c + d| - 1] == d[|d| - 1]
  {
    ThreeJoined(a, b, c);
    DocJoined(a + b + c, d);
  }

  lemma DeclsOk()
    ensures
      var items := [Decl(XML), Space("\n"), Decl(DOCTYPE)];
      DocOk(items) && Elements(items) == [Other, Other]
  {
    XmlIsOk();
    DoctypeIsOk();
    SpacingIsOk();
    ElementsOfThree(Decl(XML), Space("\n"), Decl(DOCTYPE));
  }

  lemma PlistTagOk()
    ensures
      var items := [Space("\n"), Open("plist", VERSION), Space("\n")];
      DocOk(items) && Elements(items) == [Start("plist")]
  {
    VersionIsOk();
    SpacingIsOk();
    ElementsOfThree(Space("\n"), Open("plist", VERSION), Space("\n"));
  }

  lemma DictTagOk()
    ensures
      var items := [Open("dict", ""), Space("\n\t")];
      DocOk(items) && Elements(items) == [Start("dict")]
  {
    NamesAreOk();
    SpacingIsOk();
    ElementsOfTwo(Open("dict", ""), Space("\n\t"));
  }

  lemma HeadOk()
    ensures DocOk(HEAD) && Elements(HEAD) == PREAMBLE && HEAD[|HEAD| - 1].Space?
  {
    var a, b := [Decl(XML), Space("\n"), Decl(DOCTYPE)], [Space("\n"), Open("plist", VERSION), Space("\n")];
    var c := [Open("dict", ""), Space("\n\t")];
    DeclsOk();
    PlistTagOk();
    DictTagOk();
    ThreeJoined(a, b, c);
    assert HEAD == a + b + c;
  }

  lemma SettingOk(name: string, text: string)
    ensures DocOk(SettingItems(name, text))
    ensures Elements(SettingItems(name, text)) == Setting(AsRead(name), AsRead(text))
  {
    ElementsOfTwo(Field("key", name), Field("string", text));
  }

  predicate Letters(s: string) {
    forall i :: 0 <= i < |s| ==> 'A' <= s[i] <= 'z'
  }

  lemma PlainAsRead(s: string)
    requires Letters(s)
    ensures AsRead(s) == s
  {
    SameAsReadIff(s);
  }

  lemma SpacedFieldOk(before: string, name: string, text: string, after: string)
    requires Blank(before) && Blank(after) && (name == "key" || name == "string")
    ensures
      var items := [Space(before), Field(name, text), Space(after)];
      DocOk(items) && Elements(items) == Element(name, AsRead(text))
  {
    ElementsOfThree(Space(before), Field(name, text), Space(after));
  }

  lemma ArrayOk(execPath: string)
    ensures
      var items := [Open("array", ""), Space("\n\t\t"), Field("string", execPath)];
      DocOk(items) && Elements(items) == [Start("array")] + Element("string", AsRead(execPath))
  {
    NamesAreOk();
    SpacingIsOk();
    ElementsOfThree(Open("array", ""), Space("\n\t\t"), Field("string", execPath));
  }

  lemma ArrayEndOk()
    ensures
      var items := [Close("array"), Space("\n\t")];
      DocOk(items) && Elements(items) == [End("array")]
  {
    NamesAreOk();
    SpacingIsOk();
    ElementsOfTwo(Close("array"), Space("\n\t"));
  }

  lemma ProgramOk(execPath: string)
    ensures DocOk(ProgramItems(execPath)) && Elements(ProgramItems(execPath)) == Program(AsRead(execPath))
    ensures ProgramItems(execPath) != [] && ProgramItems(execPath)[|ProgramItems(execPath)| - 1].Space?
  {
    var a := [Space("\n\t"), Field("key", "ProgramArguments"), Space("\n\t")];
    var b := [Open("array", ""), Space("\n\t\t"), Field("string", execPath)];
    var c := [Space("\n\t\t"), Field("string", "serve"), Space("\n\t")];
    var d := [Close("array"), Space("\n\t")];
    SpacingIsOk();
    SpacedFieldOk("\n\t", "key", "ProgramArguments", "\n\t");
    ArrayOk(execPath);
    SpacedFieldOk("\n\t\t", "string", "serve", "\n\t");
    ArrayEndOk();
    PlainAsRead("ProgramArguments");
    PlainAsRead("serve");
    FourJoined(a, b, c, d);
    ProgramParts(AsRead(execPath));
  }

  lemma ProgramParts(execPath: string)
    ensures
      var e := Element("string", execPath);
      Element("key", "ProgramArguments") + ([Start("array")] + e) + Element("string", "serve") + [End("array")]
      == Program(execPath)
  {
  }

  lemma EnvOpeningOk()
    ensures DocOk(ENV_OPENING) && Elements(ENV_OPENING) == Element("key", "EnvironmentVariables") + [Start("dict")]
  {
    NamesAreOk();
    SpacingIsOk();
    PlainAsRead("EnvironmentVariables");
    ElementsOfThree(ENV_OPENING[0], ENV_OPENING[1], ENV_OPENING[2]);
  }

  lemma OpeningOk(label0: string, execPath: string)
    ensures
      var items := OpeningItems(label0, execPath);
      && DocOk(items) && items != [] && items[|items| - 1].Open?
      && Elements(items) == Opening(AsRead(label0), AsRead(execPath))
  {
    var b, c := SettingItems("Label", label0), ProgramItems(execPath);
    HeadOk();
    SettingOk("Label", label0);
    PlainAsRead("Label");
    ProgramOk(execPath);
    EnvOpeningOk();
    FourJoined(HEAD, b, c, ENV_OPENING);
  }

  lemma FlagOk(name: string)
    ensures DocOk(FlagItems(name)) && Elements(FlagItems(name)) == Flag(AsRead(name))
  {
    NamesAreOk();
    SpacingIsOk();
    ElementsOfThree(Field("key", name), Empty("true"), Space("\n\t"));
  }

  lemma EntryOk(e: EnvVar)
    ensures DocOk(EntryItems(e)) && Elements(EntryItems(e)) == Entry(e)
  {
    SpacingIsOk();
    ElementsOfThree(Space("\n\t\t"), Field("key", e.key), Field("string", e.value));
  }

  lemma {:induction false} EnvOk(env: seq<EnvVar>)
    ensures DocOk(EnvItems(env)) && Elements(EnvItems(env)) == EnvTokens(env)
    ensures env != [] ==> EnvItems(env) != [] && EnvItems(env)[|EnvItems(env)| - 1].Field?
  {
    if env != [] {
      var init, e := env[..|env| - 1], env[|env| - 1];
      EnvOk(init);
      EntryOk(e);
      DocOkConcat(EnvItems(init), EntryItems(e));
      ElementsConcat(EnvItems(init), EntryItems(e));
    }
  }

  lemma NamedFlagOk(name: string)
    requires Letters(name)
    ensures
      var items := FlagItems(name);
      && DocOk(items) && |items| == 3 && items[0].Field? && items[2].Space?
      && Elements(items) == Flag(name)
  {
    FlagOk(name);
    PlainAsRead(name);
  }

  lemma FlagNames()
    ensures Letters("RunAtLoad") && Letters("KeepAlive")
  {
  }

  lemma EnvEndOk()
    ensures
      var items := [Close("dict"), Space("\n\t")];
      DocOk(items) && Elements(items) == [End("dict")]
  {
    NamesAreOk();
    SpacingIsOk();
    ElementsOfTwo(Close("dict"), Space("\n\t"));
  }

  lemma FlagsOk()
    ensures
      var items := [Close("dict"), Space("\n\t")] + FlagItems("RunAtLoad") + FlagItems("KeepAlive");
      && DocOk(items) && items[0].Close? && items[|items| - 1].Space?
      && Elements(items) == [End("dict")] + Flag("RunAtLoad") + Flag("KeepAlive")
  {
    EnvEndOk();
    FlagNames();
    NamedFlagOk("RunAtLoad");
    NamedFlagOk("KeepAlive");
    ThreeJoined([Close("dict"), Space("\n\t")], FlagItems("RunAtLoad"), FlagItems("KeepAlive"));
  }

  lemma NamedOk(name: string, text: string)
    requires Letters(name)
    ensures
      var items := SettingItems(name, text);
      && DocOk(items) && |items| == 2 && items[0].Field? && items[1].Field?
      && Elements(items) == Setting(name, AsRead(text))
  {
    SettingOk(name, text);
    PlainAsRead(name);
  }

  lemma LogNames()
    ensures Letters("StandardOutPath") && Letters("StandardErrorPath")
  {
  }

  lemma TwoSettingsOk(a: string, b: string, text: string)
    requires Letters(a) && Letters(b)
    ensures
      var items := SettingItems(a, text) + [Space("\n\t")] + SettingItems(b, text);
      && DocOk(items) && items[0].Field? && items[|items| - 1].Field?
      && Elements(items) == Setting(a, AsRead(text)) + Setting(b, AsRead(text))
  {
    NamedOk(a, text);
    NamedOk(b, text);
    SpacingIsOk();
    ElementsOfOne(Space("\n\t"));
    ThreeJoined(SettingItems(a, text), [Space("\n\t")], SettingItems(b, text));
    assert Setting(a, AsRead(text)) + [] == Setting(a, AsRead(text));
  }

  lemma EndOk()
    ensures
      DocOk(ENDING) && Elements(ENDING) == [End("dict"), End("plist")]
  {
    NamesAreOk();
    SpacingIsOk();
    var a, b := [Space("\n"), Close("dict"), Space("\n")], [Close("plist"), Space("\n")];
    ElementsOfThree(Space("\n"), Close("dict"), Space("\n"));
    ElementsOfTwo(Close("plist"), Space("\n"));
    DocJoined(a, b);
  }

  lemma ClosingOk(logPath: string)
    ensures
      var items := ClosingItems(logPath);
      DocOk(items) && items != [] && items[0].Close? && Elements(items) == Closing(AsRead(logPath))
  {
    var a := [Close("dict"), Space("\n\t")] + FlagItems("RunAtLoad") + FlagItems("KeepAlive");
    var out, err := SettingItems("StandardOutPath", logPath), SettingItems("StandardErrorPath", logPath);
    var b := out + [Space("\n\t")] + err;
    FlagsOk();
    LogNames();
    TwoSettingsOk("StandardOutPath", "StandardErrorPath", logPath);
    EndOk();
    ThreeJoined(a, b, ENDING);
    assert ClosingItems(logPath) == a + b + ENDING;
    ClosingParts(AsRead(logPath));
  }

  lemma ClosingParts(logPath: string)
    ensures
      var flags := [End("dict")] + Flag("RunAtLoad") + Flag("KeepAlive");
      var logs := Setting("StandardOutPath", logPath) + Setting("StandardErrorPath", logPath);
      flags + logs + [End("dict"), End("plist")] == Closing(logPath)
  {
  }

  lemma ItemsOk(label0: string, execPath: string, env: seq<EnvVar>, logPath: string)
    ensures DocOk(PlistItems(label0, execPath, env, logPath))
    ensures Elements(PlistItems(label0, execPath, env, logPath))
         == PlistTokens(AsRead(label0), AsRead(execPath), env, AsRead(logPath))
  {
    var a, b, c := OpeningItems(label0, execPath), EnvItems(env), ClosingItems(logPath);
    OpeningOk(label0, execPath);
    EnvOk(env);
    ClosingOk(logPath);
    SpacingIsOk();
    ElementsOfOne(Space("\n\t"));
    if env == [] {
      assert a + b == a;
      ThreeJoined(a, [Space("\n\t")], c);
    } else {
      FourJoined(a, b, [Space("\n\t")], c);
    }
    PlistParts(Elements(a), Elements(b), Elements(c));
  }

  lemma PlistParts(a: seq<Token>, b: seq<Token>, c: seq<Token>)
    ensures a + b + [] + c == a + b + c && a + [] + c == a + c && (b == [] ==> a + b + c == a + c)
  {
  }

  /** From text to text: the list that an install writes is one a decoder accepts, and
      reading it gives the variables that went in exactly when XML can hold all their
      characters, and otherwise U+FFFD in the place of those it cannot. */
  lemma PlistTextRoundTripIff(label0: string, execPath: string, env: seq<EnvVar>, logPath: string)
    ensures
      var tokens := Tokenize(PlistContent(label0, execPath, EnvBlock(env), logPath));
      && tokens.Some?
      && Steps(INITIAL, tokens.value).out == EnvAsRead(env)
      && (Steps(INITIAL, tokens.value).out == env <==> AllHoldable(env))
  {
    var items := PlistItems(label0, execPath, env, logPath);
    ContentIsItems(label0, execPath, env, logPath);
    ItemsOk(label0, execPath, env, logPath);
    TokenizeDoc(items);
    CompactDoc(items);
    PlistRoundTripIff(AsRead(label0), AsRead(execPath), env, AsRead(logPath), DocTokens(items));
  }

  /** The job a decoder finds in the list that an install writes: the given binary, told to
      serve. */
  lemma PlistRunsBinary(label0: string, execPath: string, env: seq<EnvVar>, logPath: string)
    returns (before: seq<Token>, after: seq<Token>)
    ensures
      var tokens := Tokenize(PlistContent(label0, execPath, EnvBlock(env), logPath));
      && tokens.Some?
      && Compact(tokens.value)
         == before + [Start("key"), Chars("ProgramArguments"), End("key"), Start("array")]
            + Element("string", AsRead(execPath)) + Element("string", "serve") + [End("array")] + after
  {
    var items := PlistItems(label0, execPath, env, logPath);
    ContentIsItems(label0, execPath, env, logPath);
    ItemsOk(label0, execPath, env, logPath);
    TokenizeDoc(items);
    CompactDoc(items);
    before := PREAMBLE + Setting("Label", AsRead(label0));
    after := Element("key", "EnvironmentVariables") + [Start("dict")] + EnvTokens(env) + Closing(AsRead(logPath));
    ProgramInList(before, AsRead(execPath), after);
    JobInList(AsRead(label0), AsRead(execPath), env, AsRead(logPath));
  }

  lemma ProgramInList(before: seq<Token>, execPath: string, after: seq<Token>)
    ensures before + Program(execPath) + after
         == before + [Start("key"), Chars("ProgramArguments"), End("key"), Start("array")]
            + Element("string", execPath) + Element("string", "serve") + [End("array")] + after
  {
    assert Element("key", "ProgramArguments") + [Start("array")]
        == [Start("key"), Chars("ProgramArguments"), End("key"), Start("array")];
  }

  lemma JobInList(label0: string, execPath: string, env: seq<EnvVar>, logPath: string)
    ensures PlistTokens(label0, execPath, env, logPath)
         == PREAMBLE + Setting("Label", label0) + Program(execPath)
            + (Element("key", "EnvironmentVariables") + [Start("dict")] + EnvTokens(env) + Closing(logPath))
  {
  }
}
