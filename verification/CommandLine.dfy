/** The typed-argv decoder of `engine/src/command_line.rs`.

    The decoder's loop is proved against `Run`, a function of the command and the loop's state.
    `Command` is the grammar of quoted commands; `ParsesExactly` and `AcceptedIsCommand` show
    that the decoder accepts exactly that grammar and returns what it means. */
module CommandLine {
  import opened Text

  datatype ArgvError = EmptyOrNul | Operator(c: char) | Unterminated | NoExecutable | NotDirect(program: string)

  datatype Quote = Unquoted | Single | Double

  datatype State = State(argv: seq<string>, current: string, started: bool, quote: Quote)

  predicate IsOperator(c: char) {
    c in {'|', '&', ';', '<', '>', '$', '(', ')', '`'}
  }

  predicate IsEscapable(c: char) { c == '"' || c == '\\' }

  // ---------------------------------------------------------------------------------------
  // Direct programs
  // ---------------------------------------------------------------------------------------

  const SHELLS := {"cmd", "sh", "bash", "dash", "ksh", "zsh", "fish", "busybox", "pwsh", "powershell"}

  /** The part of a path after its last separator, of either kind. */
  function FileName(path: string): string {
    if path == "" || path[|path| - 1] == '/' || path[|path| - 1] == '\\' then ""
    else FileName(path[..|path| - 1]) + [path[|path| - 1]]
  }

  /** Windows drops trailing dots and spaces from a file name. */
  function TrimDots(name: string): string {
    if name != "" && (name[|name| - 1] == '.' || name[|name| - 1] == ' ') then TrimDots(name[..|name| - 1]) else name
  }

  function Lower(text: string): string {
    seq(|text|, i requires 0 <= i < |text| => if 'A' <= text[i] <= 'Z' then (text[i] as int + 32) as char else text[i])
  }

  /** The text before the last dot, or all of it. */
  function Stem(name: string): string {
    if '.' !in name then name
    else if name[|name| - 1] == '.' then name[..|name| - 1]
    else Stem(name[..|name| - 1])
  }

  /** `validate_direct_program`. */
  predicate IsDirect(program: string) {
    && program != "" && '\0' !in program && '\n' !in program && '\r' !in program
    && Stem(Lower(TrimDots(FileName(program)))) !in SHELLS
  }

  predicate DotOrSpace(c: char) { c == '.' || c == ' ' }

  lemma {:induction false} FileNameIs(dir: string, name: string)
    requires dir == "" || dir[|dir| - 1] == '/' || dir[|dir| - 1] == '\\'
    requires '/' !in name && '\\' !in name
    ensures FileName(dir + name) == name
    decreases |name|
  {
    if name == "" {
      assert dir + name == dir;
    } else {
      var init := name[..|name| - 1];
      assert (dir + name)[..|dir + name| - 1] == dir + init && name == init + [name[|name| - 1]] && name[|name| - 1] in name;
      FileNameIs(dir, init);
    }
  }

  lemma {:induction false} TrimDotsIs(name: string, tail: string)
    requires name != "" && !DotOrSpace(name[|name| - 1]) && forall c | c in tail :: DotOrSpace(c)
    ensures TrimDots(name + tail) == name
    decreases |tail|
  {
    if tail == "" {
      assert name + tail == name;
    } else {
      var init := tail[..|tail| - 1];
      assert (name + tail)[..|name + tail| - 1] == name + init && tail[|tail| - 1] in tail;
      TrimDotsIs(name, init);
    }
  }

  lemma {:induction false} StemIs(name: string, ending: string)
    requires '.' !in name && '.' !in ending
    ensures Stem(name) == name && Stem(name + ("." + ending)) == name
    decreases |ending|
  {
    var s := name + ("." + ending);
    assert s[|name|] == '.';
    if ending == "" {
      assert s[..|s| - 1] == name;
    } else {
      var init := ending[..|ending| - 1];
      assert s[..|s| - 1] == name + ("." + init) && ending[|ending| - 1] in ending;
      StemIs(name, init);
    }
  }

  /** The shells and their hosts, none of which may be started directly. */
  predicate NamesShell(name: string) {
    || name == "sh" || name == "bash" || name == "dash" || name == "ksh" || name == "zsh" || name == "fish"
    || name == "cmd" || name == "pwsh" || name == "powershell" || name == "busybox"
  }

  /** A program is refused exactly if its file name, but for one ending, names a shell in letters of any
      case, wherever the file lies and whatever dots and spaces are behind it. */
  lemma ShellRefused(dir: string, name: string, ending: string, tail: string)
    requires dir == "" || dir[|dir| - 1] == '/' || dir[|dir| - 1] == '\\'
    requires name != "" && '.' !in name && !DotOrSpace(name[|name| - 1])
    requires ending == "" || (|ending| > 1 && ending[0] == '.' && '.' !in ending[1..] && ending[|ending| - 1] != ' ')
    requires forall c | c in tail :: DotOrSpace(c)
    requires '/' !in name + ending && '\\' !in name + ending
    requires var p := dir + (name + ending + tail); '\0' !in p && '\n' !in p && '\r' !in p
    ensures IsDirect(dir + (name + ending + tail)) <==> !NamesShell(Lower(name))
  {
    var file := name + ending;
    assert file[|file| - 1] == if ending == "" then name[|name| - 1] else ending[|ending| - 1];
    if |ending| > 1 { assert ending[1..][|ending| - 2] in ending[1..]; }
    FileNameIs(dir, file + tail);
    TrimDotsIs(file, tail);
    StemOfLower(name, ending);
  }

  lemma StemOfLower(name: string, ending: string)
    requires '.' !in name && (ending == "" || (ending[0] == '.' && '.' !in ending[1..]))
    ensures Stem(Lower(name + ending)) == Lower(name)
  {
    LowerDots(name);
    if ending == "" {
      assert name + ending == name;
      StemIs(Lower(name), "");
    } else {
      LowerDots(ending[1..]);
      assert Lower(name + ending) == Lower(name) + ("." + Lower(ending[1..]));
      StemIs(Lower(name), Lower(ending[1..]));
    }
  }

  lemma LowerDots(s: string)
    requires '.' !in s
    ensures '.' !in Lower(s)
  {
    forall c | c in Lower(s) ensures c != '.' {
      var i :| 0 <= i < |s| && Lower(s)[i] == c;
      assert s[i] in s;
    }
  }

  // ---------------------------------------------------------------------------------------
  // The decoder
  // ---------------------------------------------------------------------------------------

  function Finish(st: State): Result<seq<string>, ArgvError> {
    if st.quote != Unquoted then Err(Unterminated)
    else
      var argv := if st.started then st.argv + [st.current] else st.argv;
      if argv == [] then Err(NoExecutable)
      else if IsDirect(argv[0]) then Ok(argv)
      else Err(NotDirect(argv[0]))
  }

  /** What the rest of the command from index `i` decodes to. */
  function Run(s: string, i: nat, st: State): Result<seq<string>, ArgvError>
    decreases |s| - i
  {
    if i >= |s| then Finish(st)
    else
      var c := s[i];
      match st.quote
      case Single =>
        if c == '\'' then Run(s, i + 1, st.(quote := Unquoted, started := true))
        else Run(s, i + 1, st.(current := st.current + [c], started := true))
      case Double =>
        if c == '"' then Run(s, i + 1, st.(quote := Unquoted, started := true))
        else if c == '\\' && i + 1 < |s| && IsEscapable(s[i + 1])
        then Run(s, i + 2, st.(current := st.current + [s[i + 1]], started := true))
        else Run(s, i + 1, st.(current := st.current + [c], started := true))
      case Unquoted =>
        if c == '\'' then Run(s, i + 1, st.(quote := Single, started := true))
        else if c == '"' then Run(s, i + 1, st.(quote := Double, started := true))
        else if IsWhitespace(c) then
          Run(s, i + 1, if st.started then State(st.argv + [st.current], "", false, Unquoted) else st)
        else if IsOperator(c) then Err(Operator(c))
        else Run(s, i + 1, st.(current := st.current + [c], started := true))
  }

  function Parse(command: string): Result<seq<string>, ArgvError> {
    if Trim(command) == "" || '\0' in command then Err(EmptyOrNul)
    else Run(command, 0, State([], "", false, Unquoted))
  }

  /** `parse_typed_argv`. */
  method ParseTypedArgv(command: string) returns (r: Result<seq<string>, ArgvError>)
    ensures r == Parse(command)
  {
    if Trim(command) == "" || '\0' in command { return Err(EmptyOrNul); }
    var argv: seq<string> := [];
    var current := "";
    var started := false;
    var quote := Unquoted;
    var i := 0;
    while i < |command|
      invariant i <= |command|
      invariant Run(command, 0, State([], "", false, Unquoted)) == Run(command, i, State(argv, current, started, quote))
    {
      var c := command[i];
      i := i + 1;
      match quote {
        case Single =>
          if c == '\'' { quote := Unquoted; } else { current := current + [c]; }
        case Double =>
          if c == '"' {
            quote := Unquoted;
          } else if c == '\\' && i < |command| && IsEscapable(command[i]) {
            current := current + [command[i]];
            i := i + 1;
          } else {
            current := current + [c];
          }
        case Unquoted =>
          if c == '\'' {
            quote := Single;
          } else if c == '"' {
            quote := Double;
          } else if IsWhitespace(c) {
            if started {
              argv, current := argv + [current], "";
              started := false;
            }
          } else if IsOperator(c) {
            return Err(Operator(c));
          } else {
            current := current + [c];
          }
      }
      if quote != Unquoted || !IsWhitespace(c) {
        started := true;
      }
    }
    if quote != Unquoted { return Err(Unterminated); }
    if started { argv := argv + [current]; }
    if argv == [] { return Err(NoExecutable); }
    if !IsDirect(argv[0]) { return Err(NotDirect(argv[0])); }
    return Ok(argv);
  }

  // ---------------------------------------------------------------------------------------
  // The grammar of commands
  // ---------------------------------------------------------------------------------------

  /** What stands between double quotes: a character, an escaped quote or backslash, or a
      backslash that escapes nothing because of the character after it. */
  datatype Quoted = Close | Plain(c: char, rest: Quoted) | Escaped(c: char, rest: Quoted) | Lone(c: char, rest: Quoted)

  /** One argument: unquoted characters and quoted stretches in any order. */
  datatype Word =
    | EndWord
    | Bare(c: char, rest: Word)
    | InSingle(text: string, rest: Word)
    | InDouble(q: Quoted, rest: Word)

  /** Words, each behind its white space, and the white space at the end. */
  datatype Command = EndCommand(w: string) | Argument(w: string, word: Word, rest: Command)

  predicate WellQuoted(q: Quoted) {
    match q
    case Close => true
    case Plain(c, rest) => !IsEscapable(c) && WellQuoted(rest)
    case Escaped(c, rest) => IsEscapable(c) && WellQuoted(rest)
    case Lone(c, rest) => !IsEscapable(c) && WellQuoted(rest)
  }

  predicate WellWord(word: Word) {
    match word
    case EndWord => true
    case Bare(c, rest) => c != '\'' && c != '"' && !IsWhitespace(c) && !IsOperator(c) && WellWord(rest)
    case InSingle(text, rest) => '\'' !in text && WellWord(rest)
    case InDouble(q, rest) => WellQuoted(q) && WellWord(rest)
  }

  /** Every argument but the first needs white space before it. */
  predicate WellCommand(cmd: Command, first: bool) {
    match cmd
    case EndCommand(w) => Blank(w)
    case Argument(w, word, rest) =>
      Blank(w) && (first || w != "") && word != EndWord && WellWord(word) && WellCommand(rest, false)
  }

  /** The stretch and its closing quote. */
  function PrintQuoted(q: Quoted): string {
    match q
    case Close => "\""
    case Plain(c, rest) => [c] + PrintQuoted(rest)
    case Escaped(c, rest) => ['\\', c] + PrintQuoted(rest)
    case Lone(c, rest) => ['\\', c] + PrintQuoted(rest)
  }

  function PrintWord(word: Word): string {
    match word
    case EndWord => ""
    case Bare(c, rest) => [c] + PrintWord(rest)
    case InSingle(text, rest) => "'" + (text + ("'" + PrintWord(rest)))
    case InDouble(q, rest) => "\"" + (PrintQuoted(q) + PrintWord(rest))
  }

  function PrintCommand(cmd: Command): string {
    match cmd
    case EndCommand(w) => w
    case Argument(w, word, rest) => w + (PrintWord(word) + PrintCommand(rest))
  }

  function QuotedText(q: Quoted): string {
    match q
    case Close => ""
    case Plain(c, rest) => [c] + QuotedText(rest)
    case Escaped(c, rest) => [c] + QuotedText(rest)
    case Lone(c, rest) => ['\\', c] + QuotedText(rest)
  }

  function WordText(word: Word): string {
    match word
    case EndWord => ""
    case Bare(c, rest) => [c] + WordText(rest)
    case InSingle(text, rest) => text + WordText(rest)
    case InDouble(q, rest) => QuotedText(q) + WordText(rest)
  }

  function Arguments(cmd: Command): seq<string> {
    match cmd
    case EndCommand(_) => []
    case Argument(_, word, rest) => [WordText(word)] + Arguments(rest)
  }

  /** The characters of a command that stand outside quotes. */
  function OutsideQuotes(cmd: Command): string {
    match cmd
    case EndCommand(w) => w
    case Argument(w, word, rest) => w + BareText(word) + OutsideQuotes(rest)
  }

  function BareText(word: Word): string {
    match word
    case EndWord => ""
    case Bare(c, rest) => [c] + BareText(rest)
    case InSingle(_, rest) => BareText(rest)
    case InDouble(_, rest) => BareText(rest)
  }

  // ---------------------------------------------------------------------------------------
  // Every command of the grammar decodes to its arguments
  // ---------------------------------------------------------------------------------------

  lemma {:induction false} RunSingle(s: string, i: nat, text: string, st: State)
    requires st.quote == Single && st.started && '\'' !in text && At(s, i, text)
    ensures Run(s, i, st) == Run(s, i + |text|, st.(current := st.current + text))
    decreases |text|
  {
    if text == "" {
      assert st.current + text == st.current;
    } else {
      AtTail(s, i, text);
      RunSingle(s, i + 1, text[1..], st.(current := st.current + [text[0]]));
      assert st.current + [text[0]] + text[1..] == st.current + text;
    }
  }

  lemma {:induction false} RunQuoted(s: string, i: nat, q: Quoted, st: State)
    requires st.quote == Double && st.started && WellQuoted(q) && At(s, i, PrintQuoted(q))
    ensures Run(s, i, st) == Run(s, i + |PrintQuoted(q)|, st.(current := st.current + QuotedText(q), quote := Unquoted))
    decreases q
  {
    match q
    case Close =>
      AtTail(s, i, PrintQuoted(q));
      assert st.current + "" == st.current;
    case Plain(c, rest) =>
      AtHead(s, i, [c], PrintQuoted(rest));
      RunQuoted(s, i + 1, rest, st.(current := st.current + [c]));
      Assoc(st.current, [c], QuotedText(rest));
    case Escaped(c, rest) =>
      AtHead(s, i, ['\\', c], PrintQuoted(rest));
      RunQuoted(s, i + 2, rest, st.(current := st.current + [c]));
      Assoc(st.current, [c], QuotedText(rest));
    case Lone(c, rest) =>
      AtHead(s, i, ['\\', c], PrintQuoted(rest));
      RunQuoted(s, i + 2, rest, st.(current := st.current + ['\\', c]));
      assert st.current + ['\\'] + [c] == st.current + ['\\', c];
      Assoc(st.current, ['\\', c], QuotedText(rest));
  }

  /** A prefix of one or two characters, read off the text. */
  lemma AtHead(s: string, i: nat, x: string, rest: string)
    requires At(s, i, x + rest) && 0 < |x| <= 2
    ensures i + |x| <= |s| && s[i] == x[0] && (|x| == 2 ==> s[i + 1] == x[1]) && At(s, i + |x|, rest)
  {
    AtConcat(s, i, x, rest);
    assert x[0] == s[i];
    if |x| == 2 { assert x[1] == s[i + 1]; }
  }

  /** One character outside quotes. */
  lemma RunBare(s: string, i: nat, c: char, tail: string, st: State)
    requires st.quote == Unquoted && c != '\'' && c != '"' && !IsWhitespace(c) && !IsOperator(c) && At(s, i, [c] + tail)
    ensures At(s, i + 1, tail) && Run(s, i, st) == Run(s, i + 1, Extended(st, [c]))
  {
    AtHead(s, i, [c], tail);
  }

  /** A whole single-quoted part of a word. */
  lemma RunInSingle(s: string, i: nat, text: string, tail: string, st: State)
    requires st.quote == Unquoted && '\'' !in text && At(s, i, "'" + (text + ("'" + tail)))
    ensures At(s, i + 2 + |text|, tail)
    ensures Run(s, i, st) == Run(s, i + 2 + |text|, Extended(st, text))
  {
    AtHead(s, i, "'", text + ("'" + tail));
    AtConcat(s, i + 1, text, "'" + tail);
    RunSingle(s, i + 1, text, st.(quote := Single, started := true));
    AtHead(s, i + 1 + |text|, "'", tail);
  }

  /** A whole double-quoted part of a word. */
  lemma RunInDouble(s: string, i: nat, q: Quoted, tail: string, st: State)
    requires st.quote == Unquoted && WellQuoted(q) && At(s, i, "\"" + (PrintQuoted(q) + tail))
    ensures At(s, i + 1 + |PrintQuoted(q)|, tail)
    ensures Run(s, i, st) == Run(s, i + 1 + |PrintQuoted(q)|, Extended(st, QuotedText(q)))
  {
    AtHead(s, i, "\"", PrintQuoted(q) + tail);
    AtConcat(s, i + 1, PrintQuoted(q), tail);
    RunQuoted(s, i + 1, q, st.(quote := Double, started := true));
  }

  lemma {:induction false} RunWord(s: string, i: nat, word: Word, st: State)
    requires st.quote == Unquoted && WellWord(word) && At(s, i, PrintWord(word))
    requires st.started || word != EndWord
    ensures Run(s, i, st) == Run(s, i + |PrintWord(word)|, Extended(st, WordText(word)))
    decreases word, 1
  {
    if word == EndWord {
      assert Extended(st, "") == st;
    } else {
      var j := i + |Front(word)|;
      RunFront(s, i, word, st);
      FrontIs(word);
      RunRest(s, j, word.rest, st, FrontText(word), i + |PrintWord(word)|, WordText(word));
    }
  }

  /** The first part of a word, as it is printed and as it reads. */
  function Front(word: Word): string
    requires word != EndWord
  {
    match word
    case Bare(c, _) => [c]
    case InSingle(text, _) => "'" + text + "'"
    case InDouble(q, _) => "\"" + PrintQuoted(q)
  }

  function FrontText(word: Word): string
    requires word != EndWord
  {
    match word
    case Bare(c, _) => [c]
    case InSingle(text, _) => text
    case InDouble(q, _) => QuotedText(q)
  }

  lemma RunFront(s: string, i: nat, word: Word, st: State)
    requires st.quote == Unquoted && word != EndWord && WellWord(word) && At(s, i, PrintWord(word))
    ensures At(s, i + |Front(word)|, PrintWord(word.rest))
    ensures Run(s, i, st) == Run(s, i + |Front(word)|, Extended(st, FrontText(word)))
  {
    match word
    case Bare(c, rest) => RunBare(s, i, c, PrintWord(rest), st);
    case InSingle(text, rest) => RunInSingle(s, i, text, PrintWord(rest), st);
    case InDouble(q, rest) => RunInDouble(s, i, q, PrintWord(rest), st);
  }

  lemma FrontIs(word: Word)
    requires word != EndWord && WellWord(word)
    ensures WellWord(word.rest) && WordText(word) == FrontText(word) + WordText(word.rest)
    ensures |PrintWord(word)| == |Front(word)| + |PrintWord(word.rest)|
  {}

  /** A word under way, with more text in it. */
  function Extended(st: State, text: string): State { State(st.argv, st.current + text, true, st.quote) }

  lemma {:induction false} RunRest(s: string, i: nat, rest: Word, st: State, text: string, end: nat, whole: string)
    requires st.quote == Unquoted && WellWord(rest) && At(s, i, PrintWord(rest))
    requires end == i + |PrintWord(rest)| && whole == text + WordText(rest)
    ensures end <= |s| && Run(s, i, Extended(st, text)) == Run(s, end, Extended(st, whole))
    decreases rest, 2
  {
    RunWord(s, i, rest, Extended(st, text));
    Assoc(st.current, text, WordText(rest));
    assert Extended(Extended(st, text), WordText(rest)) == Extended(st, whole);
  }

  /** White space ends the argument being read, if there is one. */
  function EndArgument(st: State): State {
    if st.started then State(st.argv + [st.current], "", false, Unquoted) else st
  }

  lemma {:induction false} RunBlank(s: string, i: nat, w: string, st: State)
    requires st.quote == Unquoted && At(s, i, w) && Blank(w) && w != ""
    ensures Run(s, i, st) == Run(s, i + |w|, EndArgument(st))
    decreases |w|
  {
    AtTail(s, i, w);
    if |w| > 1 {
      RunBlank(s, i + 1, w[1..], EndArgument(st));
    }
  }

  function Checked(argv: seq<string>): Result<seq<string>, ArgvError> {
    if argv == [] then Err(NoExecutable) else if IsDirect(argv[0]) then Ok(argv) else Err(NotDirect(argv[0]))
  }

  lemma {:induction false} RunCommand(s: string, i: nat, cmd: Command, st: State)
    requires st.quote == Unquoted && (!st.started ==> st.current == "") && WellCommand(cmd, !st.started)
    requires At(s, i, PrintCommand(cmd)) && i + |PrintCommand(cmd)| == |s|
    ensures Run(s, i, st) == Checked(EndArgument(st).argv + Arguments(cmd))
    decreases cmd
  {
    var st1 := EndArgument(st);
    match cmd
    case EndCommand(w) =>
      if w != "" { RunBlank(s, i, w, st); }
      assert st1.argv + [] == st1.argv;
    case Argument(w, word, rest) =>
      var st2 := State(st1.argv, WordText(word), true, st1.quote);
      RunArgument(s, i, cmd, st, st2);
      RunCommand(s, i + |w| + |PrintWord(word)|, rest, st2);
      assert st1.argv + [WordText(word)] + Arguments(rest) == st1.argv + Arguments(cmd);
  }

  lemma RunArgument(s: string, i: nat, cmd: Command, st: State, st2: State)
    requires st.quote == Unquoted && (!st.started ==> st.current == "") && WellCommand(cmd, !st.started) && cmd.Argument?
    requires At(s, i, PrintCommand(cmd)) && st2 == State(EndArgument(st).argv, WordText(cmd.word), true, Unquoted)
    ensures At(s, i + |cmd.w| + |PrintWord(cmd.word)|, PrintCommand(cmd.rest))
    ensures Run(s, i, st) == Run(s, i + |cmd.w| + |PrintWord(cmd.word)|, st2)
  {
    var w, word := cmd.w, cmd.word;
    AtConcat(s, i, w, PrintWord(word) + PrintCommand(cmd.rest));
    if w != "" { RunBlank(s, i, w, st); }
    AtConcat(s, i + |w|, PrintWord(word), PrintCommand(cmd.rest));
    RunWord(s, i + |w|, word, EndArgument(st));
    assert "" + WordText(word) == WordText(word);
  }

  lemma {:induction false} WordVisible(word: Word)
    requires WellWord(word) && word != EndWord
    ensures PrintWord(word) != "" && !IsWhitespace(PrintWord(word)[0])
  {}

  lemma {:induction false} CommandBlank(cmd: Command, first: bool)
    requires WellCommand(cmd, first)
    ensures Trim(PrintCommand(cmd)) == "" <==> Arguments(cmd) == []
  {
    match cmd
    case EndCommand(w) =>
      TrimStartBlank(w, "");
      assert w + "" == w;
    case Argument(w, word, rest) =>
      WordVisible(word);
      var tail := PrintWord(word) + PrintCommand(rest);
      TrimStartBlank(w, tail);
      TrimEndVisible(tail);
  }

  /** Whatever text the grammar can print, the decoder returns its arguments, and refuses it only
      for having none, for a NUL, or for a program that is not to be started directly. */
  lemma ParsesExactly(cmd: Command)
    requires WellCommand(cmd, true)
    ensures Parse(PrintCommand(cmd)) ==
            if Arguments(cmd) == [] || '\0' in PrintCommand(cmd) then Err(EmptyOrNul)
            else if IsDirect(Arguments(cmd)[0]) then Ok(Arguments(cmd))
            else Err(NotDirect(Arguments(cmd)[0]))
  {
    CommandBlank(cmd, true);
    RunCommand(PrintCommand(cmd), 0, cmd, State([], "", false, Unquoted));
    assert [] + Arguments(cmd) == Arguments(cmd);
  }

  // ---------------------------------------------------------------------------------------
  // Every accepted command belongs to the grammar
  // ---------------------------------------------------------------------------------------

  lemma {:induction false} FromUnquoted(s: string, i: nat, st: State) returns (word: Word, rest: Command)
    requires i <= |s| && st.quote == Unquoted && (!st.started ==> st.current == "") && Run(s, i, st).Ok?
    ensures WellWord(word) && WellCommand(rest, !st.started && word == EndWord)
    ensures s[i..] == PrintWord(word) + PrintCommand(rest)
    decreases |s| - i, 0
  {
    if i == |s| {
      return EndWord, EndCommand("");
    }
    var c := s[i];
    assert s[i..] == [c] + s[i + 1..];
    if c == '\'' {
      var text, w, r := FromSingle(s, i + 1, st.(quote := Single, started := true));
      word, rest := InSingle(text, w), r;
      Assoc(text, "'" + PrintWord(w), PrintCommand(r));
      Assoc("'", PrintWord(w), PrintCommand(r));
      Assoc("'", text + ("'" + PrintWord(w)), PrintCommand(r));
    } else if c == '"' {
      var q, w, r := FromDouble(s, i + 1, st.(quote := Double, started := true));
      word, rest := InDouble(q, w), r;
      Assoc(PrintQuoted(q), PrintWord(w), PrintCommand(r));
      Assoc("\"", PrintQuoted(q) + PrintWord(w), PrintCommand(r));
    } else if IsWhitespace(c) {
      var w, r := FromUnquoted(s, i + 1, EndArgument(st));
      word := EndWord;
      rest := AfterBlank(c, w, r);
      assert "" + PrintCommand(rest) == PrintCommand(rest);
    } else {
      var w, r := FromUnquoted(s, i + 1, st.(current := st.current + [c], started := true));
      word, rest := Bare(c, w), r;
      Assoc([c], PrintWord(w), PrintCommand(r));
    }
  }

  /** Puts a white space character in front of a word and the rest of its command. */
  lemma AfterBlank(c: char, word: Word, rest: Command) returns (cmd: Command)
    requires IsWhitespace(c) && WellWord(word) && WellCommand(rest, word == EndWord)
    ensures WellCommand(cmd, false) && PrintCommand(cmd) == [c] + (PrintWord(word) + PrintCommand(rest))
  {
    if word != EndWord {
      cmd := Argument([c], word, rest);
    } else {
      match rest
      case EndCommand(w) =>
        cmd := EndCommand([c] + w);
      case Argument(w, first, more) =>
        cmd := Argument([c] + w, first, more);
    }
  }

  lemma {:induction false} FromSingle(s: string, i: nat, st: State) returns (text: string, word: Word, rest: Command)
    requires i <= |s| && st.quote == Single && st.started && Run(s, i, st).Ok?
    ensures '\'' !in text && WellWord(word) && WellCommand(rest, false)
    ensures s[i..] == text + ("'" + (PrintWord(word) + PrintCommand(rest)))
    decreases |s| - i, 1
  {
    assert s[i..] == [s[i]] + s[i + 1..];
    if s[i] == '\'' {
      text := "";
      word, rest := FromUnquoted(s, i + 1, st.(quote := Unquoted));
    } else {
      text, word, rest := FromSingle(s, i + 1, st.(current := st.current + [s[i]]));
      text := [s[i]] + text;
    }
  }

  lemma {:induction false} FromDouble(s: string, i: nat, st: State) returns (q: Quoted, word: Word, rest: Command)
    requires i <= |s| && st.quote == Double && st.started && Run(s, i, st).Ok?
    ensures WellQuoted(q) && WellWord(word) && WellCommand(rest, false)
    ensures s[i..] == PrintQuoted(q) + (PrintWord(word) + PrintCommand(rest))
    decreases |s| - i, 1
  {
    assert s[i..] == [s[i]] + s[i + 1..];
    if s[i] == '"' {
      q := Close;
      word, rest := FromUnquoted(s, i + 1, st.(quote := Unquoted));
    } else if s[i] != '\\' {
      q, word, rest := FromDouble(s, i + 1, st.(current := st.current + [s[i]]));
      q := Plain(s[i], q);
    } else if IsEscapable(s[i + 1]) {
      q, word, rest := FromDouble(s, i + 2, st.(current := st.current + [s[i + 1]]));
      q := Escaped(s[i + 1], q);
      assert s[i..] == ['\\', s[i + 1]] + s[i + 2..];
    } else {
      q, word, rest := FromDouble(s, i + 2, st.(current := st.current + ['\\'] + [s[i + 1]]));
      q := Lone(s[i + 1], q);
      assert s[i..] == ['\\', s[i + 1]] + s[i + 2..];
    }
  }

  lemma {:induction false} OutsideIsHarmless(cmd: Command, first: bool)
    requires WellCommand(cmd, first)
    ensures forall c | c in OutsideQuotes(cmd) :: !IsOperator(c)
  {
    match cmd
    case EndCommand(w) =>
    case Argument(w, word, rest) =>
      BareIsHarmless(word);
      OutsideIsHarmless(rest, false);
  }

  lemma {:induction false} BareIsHarmless(word: Word)
    requires WellWord(word)
    ensures forall c | c in BareText(word) :: !IsOperator(c)
  {
    match word
    case EndWord =>
    case Bare(_, rest) => BareIsHarmless(rest);
    case InSingle(_, rest) => BareIsHarmless(rest);
    case InDouble(_, rest) => BareIsHarmless(rest);
  }

  /** Every accepted command is one of the grammar, was decoded to its arguments, starts a program
      directly, and keeps each shell operator it contains inside quotes. */
  lemma AcceptedIsCommand(command: string) returns (cmd: Command)
    requires Parse(command).Ok?
    ensures WellCommand(cmd, true) && PrintCommand(cmd) == command
    ensures Parse(command) == Ok(Arguments(cmd)) && Arguments(cmd) != [] && IsDirect(Arguments(cmd)[0])
    ensures forall c | c in OutsideQuotes(cmd) :: !IsOperator(c)
  {
    var word, rest := FromUnquoted(command, 0, State([], "", false, Unquoted));
    cmd := if word == EndWord then rest else Argument("", word, rest);
    assert command[0..] == command;
    assert word == EndWord ==> "" + PrintCommand(rest) == PrintCommand(rest);
    assert "" + (PrintWord(word) + PrintCommand(rest)) == PrintWord(word) + PrintCommand(rest);
    ParsesExactly(cmd);
    OutsideIsHarmless(cmd, true);
  }

  // ---------------------------------------------------------------------------------------
  // Quoting an argument vector
  // ---------------------------------------------------------------------------------------

  /** Escapes quotes and backslashes. */
  function Escape(text: string): string {
    if text == "" then "" else (if IsEscapable(text[0]) then ['\\', text[0]] else [text[0]]) + Escape(text[1..])
  }

  /** Each argument in double quotes, joined by spaces. */
  function QuoteArgs(argv: seq<string>): string
    requires argv != []
  {
    var one := "\"" + Escape(argv[0]) + "\"";
    if |argv| == 1 then one else one + " " + QuoteArgs(argv[1..])
  }

  function QuotedOf(text: string): Quoted {
    if text == "" then Close
    else if IsEscapable(text[0]) then Escaped(text[0], QuotedOf(text[1..]))
    else Plain(text[0], QuotedOf(text[1..]))
  }

  lemma {:induction false} QuotedOfText(text: string)
    ensures var q := QuotedOf(text); WellQuoted(q) && QuotedText(q) == text && PrintQuoted(q) == Escape(text) + "\""
  {
    if text != "" {
      QuotedOfText(text[1..]);
      assert [text[0]] + text[1..] == text;
    }
  }

  function CommandOf(argv: seq<string>, w: string): Command {
    if argv == [] then EndCommand("") else Argument(w, InDouble(QuotedOf(argv[0]), EndWord), CommandOf(argv[1..], " "))
  }

  lemma {:induction false} CommandOfArgs(argv: seq<string>, w: string, first: bool)
    requires argv != [] && Blank(w) && (first || w != "")
    ensures var cmd := CommandOf(argv, w);
            WellCommand(cmd, first) && Arguments(cmd) == argv && PrintCommand(cmd) == w + QuoteArgs(argv)
    decreases |argv|
  {
    var word := InDouble(QuotedOf(argv[0]), EndWord);
    var one := "\"" + Escape(argv[0]) + "\"";
    assert WellWord(word) && PrintWord(word) == one && WordText(word) == argv[0] by {
      QuotedOfText(argv[0]);
      assert WordText(EndWord) == "" && PrintWord(EndWord) == "";
      assert QuotedText(word.q) + "" == argv[0];
      assert "\"" + (PrintQuoted(word.q) + "") == one;
    }
    var rest := CommandOf(argv[1..], " ");
    assert CommandOf(argv, w) == Argument(w, word, rest);
    assert [argv[0]] + argv[1..] == argv;
    if |argv| == 1 {
      assert argv[1..] == [] && one + "" == one;
    } else {
      CommandOfArgs(argv[1..], " ", false);
      Assoc(one, " ", QuoteArgs(argv[1..]));
    }
  }

  /** Quoting an argument vector is undone by the decoder, for every vector without a NUL whose
      program may be started directly; for any other program the decoder refuses it. */
  lemma QuotingRoundTrip(argv: seq<string>)
    requires argv != [] && '\0' !in QuoteArgs(argv)
    ensures Parse(QuoteArgs(argv)) == if IsDirect(argv[0]) then Ok(argv) else Err(NotDirect(argv[0]))
  {
    CommandOfArgs(argv, "", true);
    assert "" + QuoteArgs(argv) == QuoteArgs(argv);
    ParsesExactly(CommandOf(argv, ""));
  }
}
