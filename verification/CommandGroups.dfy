/** Tool commands that launch a group: `;;` separates, `\;;` is a literal `;;`. */
module CommandGroups {
  import opened Text

  const SEP := ";;"
  const ESCAPED := "\\;;"

  /** strings.HasPrefix(s, ";;") and strings.HasPrefix(s, `\;;`). */
  predicate AtSep(s: string) {
    |s| >= 2 && s[0] == ';' && s[1] == ';'
  }

  predicate AtEscaped(s: string) {
    |s| >= 3 && s[0] == '\\' && AtSep(s[1..])
  }

  /** The raw pieces between separators, escapes undone; always at least one. */
  function Pieces(cmd: string): (p: seq<string>)
    ensures p != []
  {
    if cmd == "" then [""]
    else if AtEscaped(cmd) then Prepend(SEP, Pieces(cmd[3..]))
    else if AtSep(cmd) then [""] + Pieces(cmd[2..])
    else Prepend([cmd[0]], Pieces(cmd[1..]))
  }

  function Prepend(head: string, pieces: seq<string>): (p: seq<string>)
    requires pieces != []
    ensures p != []
  {
    [head + pieces[0]] + pieces[1..]
  }

  /** The pieces trimmed, without the blank ones. */
  function Kept(pieces: seq<string>): seq<string> {
    if pieces == [] then []
    else
      var last := Trim(pieces[|pieces| - 1]);
      Kept(pieces[..|pieces| - 1]) + if last != "" then [last] else []
  }

  function OrBlank(kept: seq<string>): seq<string> {
    if kept == [] then [""] else kept
  }

  function Split(cmd: string): seq<string> {
    OrBlank(Kept(Pieces(cmd)))
  }

  /** The first blank-separated field of a command. */
  function FirstField(text: string): string {
    if text == "" || IsSpace(text[0]) then "" else [text[0]] + FirstField(text[1..])
  }

  function DropSlashes(path: string): string {
    if path != "" && path[|path| - 1] == '/' then DropSlashes(path[..|path| - 1]) else path
  }

  function AfterLastSlash(path: string): string {
    if path == "" || path[|path| - 1] == '/' then ""
    else AfterLastSlash(path[..|path| - 1]) + [path[|path| - 1]]
  }

  /** filepath.Base of a non-empty path. */
  function Base(path: string): string {
    var bare := DropSlashes(path);
    if bare == "" then "/" else AfterLastSlash(bare)
  }

  /** The program a command runs, which names its session within a group. */
  function CommandLabel(cmd: string): string {
    var program := FirstField(TrimLeft(cmd));
    if program == "" then "" else Base(program)
  }

  predicate NoSpace(text: string) {
    forall c :: c in text ==> !IsSpace(c)
  }

  lemma {:induction false} FirstFieldIs(field: string, rest: string)
    requires NoSpace(field) && (rest == "" || IsSpace(rest[0]))
    ensures FirstField(field + rest) == field
  {
    var text := field + rest;
    if field != "" {
      assert text[0] == field[0] && text[1..] == field[1..] + rest;
      FirstFieldIs(field[1..], rest);
      assert [field[0]] + field[1..] == field;
    } else {
      assert text == rest;
    }
  }

  lemma {:induction false} AfterLastSlashIs(dir: string, program: string)
    requires '/' !in program && (dir == "" || dir[|dir| - 1] == '/')
    ensures AfterLastSlash(dir + program) == program
  {
    var path := dir + program;
    if program != "" {
      var init := program[..|program| - 1];
      assert path[..|path| - 1] == dir + init;
      AfterLastSlashIs(dir, init);
      FrontAndLast(program);
    } else {
      assert path == dir;
    }
  }

  lemma {:induction false} TrimLeftDrops(blanks: string, text: string)
    requires (forall c :: c in blanks ==> IsSpace(c)) && text != "" && !IsSpace(text[0])
    ensures TrimLeft(blanks + text) == text
  {
    if blanks == "" {
      assert blanks + text == text;
    } else {
      assert (blanks + text)[0] == blanks[0] && (blanks + text)[1..] == blanks[1..] + text;
      TrimLeftDrops(blanks[1..], text);
    }
  }

  /** A command line in parts: the directory its program is given in, ending in a slash,
      the program's own name, and the arguments behind a blank. */
  predicate RunsProgram(dir: string, program: string, args: string) {
    && program != "" && '/' !in program && NoSpace(dir) && NoSpace(program)
    && (dir == "" || dir[|dir| - 1] == '/') && (args == "" || IsSpace(args[0]))
  }

  /** Whatever directory a command's program is given in and whatever its arguments are,
      its session is labelled with the program. */
  lemma LabelNamesTheProgram(blanks: string, dir: string, program: string, args: string)
    requires (forall c :: c in blanks ==> IsSpace(c)) && RunsProgram(dir, program, args)
    ensures CommandLabel(blanks + (dir + program + args)) == program
  {
    var path := dir + program;
    assert path[0] in path && (path[0] in dir || path[0] in program);
    assert (path + args)[0] == path[0];
    TrimLeftDrops(blanks, path + args);
    FirstFieldIs(path, args);
    AfterLastSlashIs(dir, program);
    assert path[|path| - 1] == program[|program| - 1];
  }

  predicate Slashes(text: string) {
    forall i :: 0 <= i < |text| ==> text[i] == '/'
  }

  lemma {:induction false} SlashesDrop(path: string, slashes: string)
    requires Slashes(slashes) && (path == "" || path[|path| - 1] != '/')
    ensures DropSlashes(path + slashes) == path
  {
    var text := path + slashes;
    if slashes == "" {
      assert text == path;
    } else {
      assert text[..|text| - 1] == path + slashes[..|slashes| - 1];
      SlashesDrop(path, slashes[..|slashes| - 1]);
    }
  }

  lemma LabelOfField(field: string)
    requires NoSpace(field) && field != "" && !IsSpace(field[0])
    ensures CommandLabel(field) == Base(field)
  {
    FirstFieldIs(field, "");
    assert field + "" == field;
  }

  /** A program given with slashes behind its name is labelled without them. */
  lemma LabelDropsSlashes(dir: string, program: string, slashes: string)
    requires Slashes(slashes) && RunsProgram(dir, program, "")
    ensures CommandLabel(dir + program + slashes) == program
  {
    var path := dir + program;
    PathEndsInProgram(dir, program);
    LabelOfField(path + slashes);
    SlashesDrop(path, slashes);
    AfterLastSlashIs(dir, program);
  }

  lemma PathEndsInProgram(dir: string, program: string)
    requires RunsProgram(dir, program, "")
    ensures var path := dir + program; NoSpace(path) && path != "" && path[|path| - 1] != '/' && !IsSpace(path[0])
  {
    var path := dir + program;
    assert path[|path| - 1] == program[|program| - 1] && program[|program| - 1] in program;
    assert path[0] in path;
  }

  /** The root directory is labelled with its slash, and a blank command with nothing. */
  lemma LabelOfRoot(slashes: string)
    requires Slashes(slashes) && slashes != ""
    ensures CommandLabel(slashes) == "/" && CommandLabel("") == ""
  {
    LabelOfField(slashes);
    SlashesDrop("", slashes);
    assert "" + slashes == slashes;
  }

  lemma PrependTwice(a: string, b: string, pieces: seq<string>)
    requires pieces != []
    ensures Prepend(a, Prepend(b, pieces)) == Prepend(a + b, pieces)
  {
    assert a + b + pieces[0] == a + (b + pieces[0]);
  }

  lemma PrependNothing(pieces: seq<string>)
    requires pieces != []
    ensures Prepend("", pieces) == pieces
  {
    assert "" + pieces[0] == pieces[0];
  }

  /** With everything before i read: the finished pieces, and the one being built. */
  ghost predicate Scanned(cmd: string, i: nat, raw: seq<string>, cur: string) {
    i <= |cmd| && Pieces(cmd) == raw + Prepend(cur, Pieces(cmd[i..]))
  }

  lemma ScanEscaped(cmd: string, i: nat, raw: seq<string>, cur: string)
    requires i < |cmd| && AtEscaped(cmd[i..]) && Scanned(cmd, i, raw, cur)
    ensures Scanned(cmd, i + 3, raw, cur + SEP)
  {
    assert cmd[i..][3..] == cmd[i + 3..];
    PrependTwice(cur, SEP, Pieces(cmd[i + 3..]));
  }

  lemma ScanSep(cmd: string, i: nat, raw: seq<string>, cur: string)
    requires i < |cmd| && AtSep(cmd[i..]) && Scanned(cmd, i, raw, cur)
    ensures Scanned(cmd, i + 2, raw + [cur], "")
  {
    var tail := Pieces(cmd[i + 2..]);
    assert cmd[i..][2..] == cmd[i + 2..];
    assert cur + "" == cur;
    assert Prepend(cur, [""] + tail) == [cur] + tail;
    PrependNothing(tail);
    assert raw + ([cur] + tail) == raw + [cur] + tail;
  }

  lemma ScanChar(cmd: string, i: nat, raw: seq<string>, cur: string)
    requires i < |cmd| && !AtEscaped(cmd[i..]) && !AtSep(cmd[i..]) && Scanned(cmd, i, raw, cur)
    ensures Scanned(cmd, i + 1, raw, cur + [cmd[i]])
  {
    assert cmd[i..][1..] == cmd[i + 1..];
    PrependTwice(cur, [cmd[i]], Pieces(cmd[i + 1..]));
  }

  lemma ScanStart(cmd: string)
    ensures Scanned(cmd, 0, [], "")
  {
    assert cmd[0..] == cmd;
    PrependNothing(Pieces(cmd));
  }

  lemma ScanEnd(cmd: string, raw: seq<string>, cur: string)
    requires Scanned(cmd, |cmd|, raw, cur)
    ensures Pieces(cmd) == raw + [cur]
  {
    assert cmd[|cmd|..] == "";
    assert cur + "" == cur;
  }

  /** One pass over the command, building the current segment. */
  method SplitCommand(cmd: string) returns (commands: seq<string>)
    ensures commands == Split(cmd)
  {
    var out: seq<string>, cur := [], "";
    ghost var raw: seq<string> := [];
    var i := 0;
    ScanStart(cmd);
    while i < |cmd|
      invariant 0 <= i <= |cmd| && Scanned(cmd, i, raw, cur)
      invariant |out| == |raw| && forall k :: 0 <= k < |out| ==> out[k] == Trim(raw[k])
    {
      if AtEscaped(cmd[i..]) {
        ScanEscaped(cmd, i, raw, cur);
        cur := cur + SEP;
        i := i + 3;
      } else if AtSep(cmd[i..]) {
        ScanSep(cmd, i, raw, cur);
        out := out + [Trim(cur)];
        raw := raw + [cur];
        cur := "";
        i := i + 2;
      } else {
        ScanChar(cmd, i, raw, cur);
        cur := cur + [cmd[i]];
        i := i + 1;
      }
    }
    ScanEnd(cmd, raw, cur);
    out := out + [Trim(cur)];
    raw := raw + [cur];
    commands := DropBlank(out, raw);
  }

  /** The trimmed segments that are not blank. */
  method DropBlank(out: seq<string>, ghost raw: seq<string>) returns (commands: seq<string>)
    requires |out| == |raw| && forall k :: 0 <= k < |out| ==> out[k] == Trim(raw[k])
    ensures commands == OrBlank(Kept(raw))
  {
    var kept: seq<string> := [];
    for k := 0 to |out|
      invariant kept == Kept(raw[..k])
    {
      assert raw[..k + 1][..k] == raw[..k];
      if out[k] != "" {
        kept := kept + [out[k]];
      }
    }
    assert raw[..|raw|] == raw;
    commands := if |kept| == 0 then [""] else kept;
  }

  // -------------------------------------------------------------- round trip

  /** Each leftmost `;;` written `\;;`. */
  function Escape(cmd: string): string {
    if cmd == "" then ""
    else if AtSep(cmd) then ESCAPED + Escape(cmd[2..])
    else [cmd[0]] + Escape(cmd[1..])
  }

  function Join(cmds: seq<string>): string {
    if cmds == [] then ""
    else if |cmds| == 1 then Escape(cmds[0])
    else Escape(cmds[0]) + " ;; " + Join(cmds[1..])
  }

  /** What may follow an escaped command: nothing, or the blank before a separator. */
  predicate Follows(rest: string) {
    rest == "" || rest[0] == ' '
  }

  lemma EscapeHead(cmd: string, rest: string)
    requires Follows(rest) && cmd != "" && !AtSep(cmd)
    ensures !AtSep(Escape(cmd) + rest) && !AtEscaped(Escape(cmd) + rest)
  {
  }

  lemma PiecesAfterEscaped(tail: string)
    ensures Pieces(ESCAPED + tail) == Prepend(SEP, Pieces(tail))
  {
  }

  lemma PiecesAfterSep(tail: string)
    ensures Pieces(SEP + tail) == [""] + Pieces(tail)
  {
  }

  lemma PiecesAfterChar(c: char, tail: string)
    requires !AtSep([c] + tail) && !AtEscaped([c] + tail)
    ensures Pieces([c] + tail) == Prepend([c], Pieces(tail))
  {
  }

  lemma {:induction false} PiecesOfEscaped(cmd: string, rest: string)
    requires Follows(rest)
    ensures Pieces(Escape(cmd) + rest) == Prepend(cmd, Pieces(rest))
  {
    if cmd == "" {
      assert Escape(cmd) + rest == rest;
      PrependNothing(Pieces(rest));
    } else {
      var n := if AtSep(cmd) then 2 else 1;
      PiecesOfEscaped(cmd[n..], rest);
      PrependTwice(cmd[..n], cmd[n..], Pieces(rest));
      assert cmd[..n] + cmd[n..] == cmd;
      PiecesOfHead(cmd, rest, n);
    }
  }

  lemma PiecesOfHead(cmd: string, rest: string, n: nat)
    requires Follows(rest) && cmd != "" && n == if AtSep(cmd) then 2 else 1
    ensures Pieces(Escape(cmd) + rest) == Prepend(cmd[..n], Pieces(Escape(cmd[n..]) + rest))
  {
    if AtSep(cmd) {
      PiecesOfSepHead(cmd, rest);
    } else {
      PiecesOfCharHead(cmd, rest);
    }
  }

  lemma PiecesOfSepHead(cmd: string, rest: string)
    requires AtSep(cmd)
    ensures Pieces(Escape(cmd) + rest) == Prepend(cmd[..2], Pieces(Escape(cmd[2..]) + rest))
  {
    var coded := Escape(cmd[2..]);
    assert Escape(cmd) == ESCAPED + coded;
    PiecesAfterEscaped(coded + rest);
    assert ESCAPED + coded + rest == ESCAPED + (coded + rest);
    assert cmd[..2] == SEP;
  }

  lemma PiecesOfCharHead(cmd: string, rest: string)
    requires Follows(rest) && cmd != "" && !AtSep(cmd)
    ensures Pieces(Escape(cmd) + rest) == Prepend(cmd[..1], Pieces(Escape(cmd[1..]) + rest))
  {
    EscapeHead(cmd, rest);
    EscapeChar(cmd, rest);
    PiecesAfterChar(cmd[0], Escape(cmd[1..]) + rest);
    assert cmd[..1] == [cmd[0]];
  }

  lemma EscapeChar(cmd: string, rest: string)
    requires cmd != "" && !AtSep(cmd)
    ensures Escape(cmd) + rest == [cmd[0]] + (Escape(cmd[1..]) + rest)
  {
  }

  /** The pieces of a joined list: every command with the blanks around separators,
      after `lead`, which is blank in front of every command but the first. */
  function Spaced(lead: string, cmds: seq<string>): seq<string>
    requires cmds != []
    decreases |cmds|
  {
    if |cmds| == 1 then [lead + cmds[0]] else [lead + cmds[0] + " "] + Spaced(" ", cmds[1..])
  }

  lemma PiecesAfterBlank(cmds: seq<string>)
    requires cmds != [] && Pieces(Join(cmds)) == Spaced("", cmds)
    ensures Pieces(" " + Join(cmds)) == Spaced(" ", cmds)
  {
    assert "" + cmds[0] == cmds[0];
    if |cmds| > 1 {
      assert " " + (cmds[0] + " ") == " " + cmds[0] + " ";
    }
    PiecesAfterChar(' ', Join(cmds));
    assert " " + ("" + cmds[0]) == " " + cmds[0];
  }

  lemma SpacedMore(cmds: seq<string>)
    requires |cmds| > 1
    ensures Prepend(cmds[0], Prepend(" ", [""] + Spaced(" ", cmds[1..]))) == Spaced("", cmds)
  {
    PrependTwice(cmds[0], " ", [""] + Spaced(" ", cmds[1..]));
    assert cmds[0] + " " + "" == "" + cmds[0] + " ";
  }

  lemma BlanksAroundSep(a: string, b: string)
    ensures a + " ;; " + b == a + (" " + (SEP + (" " + b)))
  {
  }

  lemma PiecesOfSep(tail: string)
    ensures Pieces(" " + (SEP + tail)) == Prepend(" ", [""] + Pieces(tail))
  {
    PiecesAfterChar(' ', SEP + tail);
    PiecesAfterSep(tail);
  }

  lemma PiecesOfMore(cmds: seq<string>)
    requires |cmds| > 1 && Pieces(" " + Join(cmds[1..])) == Spaced(" ", cmds[1..])
    ensures Pieces(Join(cmds)) == Spaced("", cmds)
  {
    var tail := " " + Join(cmds[1..]);
    BlanksAroundSep(Escape(cmds[0]), Join(cmds[1..]));
    PiecesOfSep(tail);
    PiecesOfEscaped(cmds[0], " " + (SEP + tail));
    SpacedMore(cmds);
  }

  lemma {:induction false} PiecesOfJoin(lead: string, cmds: seq<string>)
    requires cmds != [] && (lead == "" || lead == " ")
    ensures Pieces(lead + Join(cmds)) == Spaced(lead, cmds)
    decreases |cmds|, |lead|
  {
    if lead == " " {
      PiecesOfJoin("", cmds);
      assert "" + Join(cmds) == Join(cmds);
      PiecesAfterBlank(cmds);
    } else if |cmds| == 1 {
      PiecesOfEscaped(cmds[0], "");
      assert Escape(cmds[0]) + "" == lead + Join(cmds);
      assert cmds[0] + "" == lead + cmds[0];
    } else {
      PiecesOfJoin(" ", cmds[1..]);
      PiecesOfMore(cmds);
      assert "" + Join(cmds) == Join(cmds);
    }
  }

  lemma TrimBlanks(lead: string, s: string, tail: string)
    requires Clean(s) && (lead == "" || lead == " ") && (tail == "" || tail == " ")
    ensures Trim(lead + s + tail) == s
  {
    TrimRightBlank(s, tail);
    var text := lead + s + tail;
    var body := s + tail;
    assert body[0] == s[0];
    assert TrimLeft(body) == body;
    if lead == " " {
      assert text[0] == ' ';
      assert text[1..] == body;
    } else {
      assert text == body;
    }
  }

  lemma TrimRightBlank(s: string, tail: string)
    requires Clean(s) && (tail == "" || tail == " ")
    ensures TrimRight(s + tail) == s
  {
  }

  lemma {:induction false} KeptConcat(a: seq<string>, b: seq<string>)
    ensures Kept(a + b) == Kept(a) + Kept(b)
  {
    if b == [] {
      assert a + b == a;
    } else {
      assert (a + b)[..|a + b| - 1] == a + b[..|b| - 1];
      KeptConcat(a, b[..|b| - 1]);
    }
  }

  lemma KeptSingle(piece: string, c: string)
    requires Trim(piece) == c != ""
    ensures Kept([piece]) == [c]
  {
  }

  lemma {:induction false} KeptSpaced(lead: string, cmds: seq<string>)
    requires cmds != [] && (lead == "" || lead == " ")
    requires forall c :: c in cmds ==> Clean(c)
    ensures Kept(Spaced(lead, cmds)) == cmds
    decreases |cmds|
  {
    var head := cmds[0];
    if |cmds| == 1 {
      TrimBlanks(lead, head, "");
      assert lead + head + "" == lead + head;
      KeptSingle(lead + head, head);
    } else {
      TrimBlanks(lead, head, " ");
      KeptSingle(lead + head + " ", head);
      KeptSpaced(" ", cmds[1..]);
      KeptConcat([lead + head + " "], Spaced(" ", cmds[1..]));
      assert [head] + cmds[1..] == cmds;
    }
  }

  lemma {:induction false} KeptAreClean(pieces: seq<string>)
    ensures forall c :: c in Kept(pieces) ==> Clean(c)
  {
    if pieces != [] {
      KeptAreClean(pieces[..|pieces| - 1]);
      TrimIsClean(pieces[|pieces| - 1]);
    }
  }

  /** A launch never has nothing to start, and starts a blank command only when there
      is nothing else. */
  lemma SplitIsNeverEmpty(cmd: string)
    ensures Split(cmd) == [""] || (Split(cmd) != [] && forall c :: c in Split(cmd) ==> Clean(c))
  {
    KeptAreClean(Pieces(cmd));
  }

  /** Escaping each command and joining with ` ;; ` is undone by SplitCommand, exactly
      for the lists it can produce: trimmed, non-blank commands, at least one, or the
      single blank command. */
  lemma JoinThenSplitIff(cmds: seq<string>)
    ensures Split(Join(cmds)) == cmds
       <==> cmds == [""] || (cmds != [] && forall c :: c in cmds ==> Clean(c))
  {
    SplitIsNeverEmpty(Join(cmds));
    if cmds == [""] {
      assert Join(cmds) == "";
      assert Kept([""]) == [];
    } else if cmds != [] && forall c :: c in cmds ==> Clean(c) {
      PiecesOfJoin("", cmds);
      assert "" + Join(cmds) == Join(cmds);
      KeptSpaced("", cmds);
    }
  }
}
