/** Config discovery, from `engine/src/config_discovery.rs`: commands a model proposes are checked
    and appended to `config.md`. The rewritten file means what the old one meant, plus the
    accepted commands. */
module ConfigDiscovery {
  import opened Text
  import opened StatusText
  import opened LineFields
  import opened ConfigFields
  import JsonLine
  import CommandLine

  // ---------------------------------------------------------------------------------------
  // Printing the accepted commands
  // ---------------------------------------------------------------------------------------

  /** The letter of a character's short escape, if `serde_json` uses one. */
  function ShortFor(c: char): Option<char> {
    if c == '"' || c == '\\' then Some(c)
    else if c == '\n' then Some('n')
    else if c == '\t' then Some('t')
    else if c == '\r' then Some('r')
    else if c == '\U{08}' then Some('b')
    else if c == '\U{0C}' then Some('f')
    else None
  }

  /** How `serde_json` spells one character of a string. */
  function SerdeChar(c: char, rest: JsonLine.Spelling): JsonLine.Spelling {
    match ShortFor(c)
    case Some(e) => JsonLine.Short(e, rest)
    case None => if (c as int) < 0x20 then JsonLine.SpellUnit(c as int, rest) else JsonLine.Raw(c, rest)
  }

  function SerdeText(text: string): JsonLine.Spelling {
    if text == "" then JsonLine.End else SerdeChar(text[0], SerdeText(text[1..]))
  }

  /** A string with its quotes, as an array element, and what follows it. */
  function PrintElements(commands: seq<string>): string
    requires commands != []
  {
    "\"" + JsonLine.Body(SerdeText(commands[0])) + (if |commands| == 1 then "]" else "," + PrintElements(commands[1..]))
  }

  /** `serde_json::to_string` of a list of strings. */
  function PrintCommands(commands: seq<string>): string { if commands == [] then "[]" else "[" + PrintElements(commands) }

  // ---------------------------------------------------------------------------------------
  // The printed array is decoded back
  // ---------------------------------------------------------------------------------------

  /** The spellings the strict decoder takes: what `SerdeText` uses. */
  predicate Strict(p: JsonLine.Spelling) {
    match p
    case End => true
    case Raw(c, rest) => (c as int) >= 0x20 && c != '"' && c != '\\' && Strict(rest)
    case Short(c, rest) => IsShort(c) && Strict(rest)
    case Unit(a, b, c, d, rest) =>
      && IsHex(a) && IsHex(b) && IsHex(c) && IsHex(d) && JsonLine.UnitOf(p).Some? && JsonLine.UnitOf(p).value < 0x20
      && Strict(rest)
  }

  lemma SerdeCharStrict(c: char, rest: JsonLine.Spelling)
    requires Strict(rest) && JsonLine.WellSpelled(rest)
    ensures Strict(SerdeChar(c, rest)) && JsonLine.WellSpelled(SerdeChar(c, rest))
    ensures JsonLine.First(SerdeChar(c, rest)) == (c, rest)
  {
    match ShortFor(c)
    case Some(e) => ShortStrict(c, e, rest);
    case None => if (c as int) < 0x20 { ControlStrict(c, rest); }
  }

  lemma ShortStrict(c: char, e: char, rest: JsonLine.Spelling)
    requires Strict(rest) && JsonLine.WellSpelled(rest) && ShortFor(c) == Some(e)
    ensures var p := JsonLine.Short(e, rest); Strict(p) && JsonLine.WellSpelled(p) && JsonLine.First(p) == (c, rest)
  {
    assert IsShort(e) && e != 'u' && JsonLine.ShortEscape(e) == c;
  }

  lemma ControlStrict(c: char, rest: JsonLine.Spelling)
    requires Strict(rest) && JsonLine.WellSpelled(rest) && (c as int) < 0x20
    ensures var p := JsonLine.SpellUnit(c as int, rest);
            Strict(p) && JsonLine.WellSpelled(p) && JsonLine.First(p) == (c, rest)
  {
    HexDigits(c as int, rest);
  }

  lemma HexDigits(u: nat, rest: JsonLine.Spelling)
    requires u < 0x20
    ensures var p := JsonLine.SpellUnit(u, rest); IsHex(p.h0) && IsHex(p.h1) && IsHex(p.h2) && IsHex(p.h3)
  {
    HexCharIsHex(u % 16);
    HexCharIsHex(u / 16 % 16);
    HexCharIsHex(0);
  }

  lemma HexCharIsHex(d: nat)
    requires d < 16
    ensures IsHex(JsonLine.HexChar(d))
  {}

  lemma {:induction false} SerdeTextStrict(text: string)
    ensures Strict(SerdeText(text)) && JsonLine.WellSpelled(SerdeText(text)) && JsonLine.Meaning(SerdeText(text)) == text
  {
    if text != "" {
      SerdeTextStrict(text[1..]);
      SerdeCharStrict(text[0], SerdeText(text[1..]));
      assert [text[0]] + text[1..] == text;
    }
  }

  /** The strict decoder reads a strict spelling as the lenient scanner does. */
  lemma {:induction false} StrictScans(s: string, i: nat, p: JsonLine.Spelling)
    requires Strict(p) && JsonLine.WellSpelled(p) && At(s, i, JsonLine.Body(p))
    ensures ScanStrict(s, i) == JsonLine.ScanString(s, i)
    decreases p
  {
    match p
    case End => JsonLine.AtEnd(s, i);
    case Raw(c, rest) =>
      JsonLine.AtRaw(s, i, p);
      StrictScans(s, i + 1, rest);
    case Short(c, rest) =>
      JsonLine.AtShort(s, i, p);
      StrictScans(s, i + 2, rest);
    case Unit(_, _, _, _, rest) =>
      JsonLine.AtUnit(s, i, p);
      StrictScans(s, i + 6, rest);
  }

  lemma StrictReads(s: string, i: nat, text: string)
    requires At(s, i, JsonLine.Body(SerdeText(text)))
    ensures ScanStrict(s, i) == Some((text, i + |JsonLine.Body(SerdeText(text))|))
  {
    SerdeTextStrict(text);
    StrictScans(s, i, SerdeText(text));
    JsonLine.ScanReadsMeaning(s, i, SerdeText(text));
  }

  /** Where the parts of the first element lie. */
  lemma ElementParts(s: string, i: nat, commands: seq<string>) returns (j: nat)
    requires commands != [] && At(s, i, PrintElements(commands)) && i + |PrintElements(commands)| == |s|
    ensures var body := JsonLine.Body(SerdeText(commands[0]));
            && i < |s| && s[i] == '"' && At(s, i + 1, body) && j == i + 1 + |body| && j < |s|
            && (|commands| == 1 ==> s[j] == ']' && j + 1 == |s|)
            && (|commands| > 1 ==>
                  && s[j] == ',' && At(s, j + 1, PrintElements(commands[1..]))
                  && j + 1 + |PrintElements(commands[1..])| == |s|)
  {
    var body := JsonLine.Body(SerdeText(commands[0]));
    var tail := if |commands| == 1 then "]" else "," + PrintElements(commands[1..]);
    j := i + 1 + |body|;
    PartsAt(s, i, body, tail);
    if |commands| == 1 {
      OneChar(s, j, ']');
    } else {
      AtConcat(s, j, ",", PrintElements(commands[1..]));
      OneChar(s, j, ',');
    }
  }

  lemma PartsAt(s: string, i: nat, body: string, tail: string)
    requires At(s, i, "\"" + body + tail)
    ensures i < |s| && s[i] == '"' && At(s, i + 1, body) && At(s, i + 1 + |body|, tail)
  {
    AtConcat(s, i, "\"" + body, tail);
    AtConcat(s, i, "\"", body);
    OneChar(s, i, '"');
  }

  lemma {:induction false} ElementsRead(s: string, i: nat, commands: seq<string>)
    requires commands != [] && At(s, i, PrintElements(commands)) && i + |PrintElements(commands)| == |s|
    ensures ElementsAt(s, i) == Some(commands)
    decreases |commands|
  {
    var j := ElementParts(s, i, commands);
    StrictReads(s, i + 1, commands[0]);
    if |commands| == 1 {
      assert commands == [commands[0]];
    } else {
      ElementsRead(s, j + 1, commands[1..]);
      assert commands == [commands[0]] + commands[1..];
    }
    OneElement(s, i, j, commands[0]);
  }

  lemma OneElement(s: string, i: nat, j: nat, text: string)
    requires i < |s| && s[i] == '"' && ScanStrict(s, i + 1) == Some((text, j)) && j < |s|
    ensures s[j] == ']' && j + 1 == |s| ==> ElementsAt(s, i) == Some([text])
    ensures s[j] == ',' && ElementsAt(s, j + 1).Some? ==> ElementsAt(s, i) == Some([text] + ElementsAt(s, j + 1).value)
  {}

  lemma PrintedDecodes(commands: seq<string>)
    requires commands != []
    ensures DecodeStrings(PrintCommands(commands)) == Some(commands)
  {
    var s := PrintCommands(commands);
    assert s[1..] == PrintElements(commands);
    assert At(s, 1, PrintElements(commands));
    assert PrintElements(commands)[0] == '"' by { assert PrintElements(commands) == "\"" + PrintElements(commands)[1..]; }
    assert s[1] == PrintElements(commands)[0];
    ElementsRead(s, 1, commands);
  }

  // ---------------------------------------------------------------------------------------
  // The printed array survives comment stripping
  // ---------------------------------------------------------------------------------------

  /** No hash inside a JSON string starts a comment, whatever quotes the string contains. */
  lemma {:induction false} PassBody(s: string, i: nat, p: JsonLine.Spelling, blank: bool)
    requires Strict(p) && At(s, i, JsonLine.Body(p))
    ensures CommentAt(s, i, Double(false), blank) == CommentAt(s, i + |JsonLine.Body(p)|, Unquoted, false)
    decreases p
  {
    if p == JsonLine.End {
      PassEnd(s, i, blank);
    } else {
      PassFront(s, i, p, blank);
      PassBody(s, i + Width(p), p.rest, BlankAfter(p));
    }
  }

  /** How wide the first part of a string is, and whether what it stands for counts as a blank. */
  function Width(p: JsonLine.Spelling): nat
    requires p != JsonLine.End
  {
    match p case Raw(_, _) => 1 case Short(_, _) => 2 case Unit(_, _, _, _, _) => 6
  }

  function BlankAfter(p: JsonLine.Spelling): bool
    requires p != JsonLine.End
  {
    match p case Raw(c, _) => IsWhitespace(c) case Short(c, _) => IsWhitespace(c) case Unit(_, _, _, _, _) => false
  }

  lemma PassFront(s: string, i: nat, p: JsonLine.Spelling, blank: bool)
    requires p != JsonLine.End && Strict(p) && At(s, i, JsonLine.Body(p))
    ensures i + Width(p) <= |s| && At(s, i + Width(p), JsonLine.Body(p.rest)) && Strict(p.rest)
    ensures |JsonLine.Body(p)| == Width(p) + |JsonLine.Body(p.rest)|
    ensures CommentAt(s, i, Double(false), blank) == CommentAt(s, i + Width(p), Double(false), BlankAfter(p))
  {
    match p
    case Raw(_, _) => PassRaw(s, i, p, blank);
    case Short(_, _) => PassShort(s, i, p, blank);
    case Unit(_, _, _, _, _) => PassUnit(s, i, p, blank);
  }

  lemma PassEnd(s: string, i: nat, blank: bool)
    requires At(s, i, JsonLine.Body(JsonLine.End))
    ensures CommentAt(s, i, Double(false), blank) == CommentAt(s, i + |JsonLine.Body(JsonLine.End)|, Unquoted, false)
  {
    JsonLine.AtEnd(s, i);
  }

  lemma PassRaw(s: string, i: nat, p: JsonLine.Spelling, blank: bool)
    requires p.Raw? && Strict(p) && At(s, i, JsonLine.Body(p))
    ensures i + 1 <= |s| && At(s, i + 1, JsonLine.Body(p.rest))
    ensures CommentAt(s, i, Double(false), blank) == CommentAt(s, i + 1, Double(false), IsWhitespace(p.c))
  {
    JsonLine.AtRaw(s, i, p);
  }

  lemma PassShort(s: string, i: nat, p: JsonLine.Spelling, blank: bool)
    requires p.Short? && Strict(p) && At(s, i, JsonLine.Body(p))
    ensures i + 2 <= |s| && At(s, i + 2, JsonLine.Body(p.rest))
    ensures CommentAt(s, i, Double(false), blank) == CommentAt(s, i + 2, Double(false), IsWhitespace(p.c))
  {
    JsonLine.AtShort(s, i, p);
    assert CommentAt(s, i + 1, Double(true), false) == CommentAt(s, i + 2, Double(false), IsWhitespace(p.c));
  }

  lemma PassUnit(s: string, i: nat, p: JsonLine.Spelling, blank: bool)
    requires p.Unit? && Strict(p) && At(s, i, JsonLine.Body(p))
    ensures i + 6 <= |s| && At(s, i + 6, JsonLine.Body(p.rest))
    ensures CommentAt(s, i, Double(false), blank) == CommentAt(s, i + 6, Double(false), false)
  {
    JsonLine.AtUnit(s, i, p);
    assert CommentAt(s, i + 1, Double(true), false) == CommentAt(s, i + 2, Double(false), false);
    PassHex(s, i + 2);
  }

  lemma PassHex(s: string, i: nat)
    requires i + 4 <= |s| && IsHex(s[i]) && IsHex(s[i + 1]) && IsHex(s[i + 2]) && IsHex(s[i + 3])
    ensures CommentAt(s, i, Double(false), false) == CommentAt(s, i + 4, Double(false), false)
  {
    assert CommentAt(s, i, Double(false), false) == CommentAt(s, i + 1, Double(false), false);
    assert CommentAt(s, i + 1, Double(false), false) == CommentAt(s, i + 2, Double(false), false);
    assert CommentAt(s, i + 2, Double(false), false) == CommentAt(s, i + 3, Double(false), false);
  }

  lemma {:induction false} PassElements(s: string, i: nat, commands: seq<string>)
    requires commands != [] && At(s, i, PrintElements(commands)) && i + |PrintElements(commands)| == |s|
    ensures CommentAt(s, i, Unquoted, false) == |s|
    decreases |commands|
  {
    var j := ElementParts(s, i, commands);
    SerdeTextStrict(commands[0]);
    PassBody(s, i + 1, SerdeText(commands[0]), false);
    PassOne(s, i);
    if |commands| > 1 { PassElements(s, j + 1, commands[1..]); }
    PassOne(s, j);
  }

  /** A quote, a comma and a closing bracket outside quotes. */
  lemma PassOne(s: string, i: nat)
    requires i < |s|
    ensures s[i] == '"' ==> CommentAt(s, i, Unquoted, false) == CommentAt(s, i + 1, Double(false), false)
    ensures s[i] == ',' || s[i] == '[' ==>
      forall blank :: CommentAt(s, i, Unquoted, blank) == CommentAt(s, i + 1, Unquoted, false)
    ensures s[i] == ' ' ==> forall blank :: CommentAt(s, i, Unquoted, blank) == CommentAt(s, i + 1, Unquoted, true)
    ensures s[i] == ']' && i + 1 == |s| ==> CommentAt(s, i, Unquoted, false) == |s|
  {}

  /** The value of the line discovery writes is the printed array, all of it. */
  lemma PrintedSurvives(commands: seq<string>)
    requires commands != []
    ensures Trim(StripComment(" " + PrintCommands(commands))) == PrintCommands(commands)
  {
    var json := PrintCommands(commands);
    PrintedUncut(" " + json, commands);
    assert (" " + json)[..|" " + json|] == " " + json && (" " + json)[1..] == json;
    LastBracket(commands);
    NoTrim(json);
  }

  lemma PrintedUncut(s: string, commands: seq<string>)
    requires commands != [] && s == " " + ("[" + PrintElements(commands))
    ensures CommentAt(s, 0, Unquoted, true) == |s|
  {
    assert s[2..] == PrintElements(commands) && s[0] == ' ' && s[1] == '[';
    assert At(s, 2, PrintElements(commands));
    PassElements(s, 2, commands);
    PassOne(s, 0);
    PassOne(s, 1);
  }

  lemma {:induction false} LastBracket(commands: seq<string>)
    ensures commands != [] ==> PrintElements(commands) != "" && PrintElements(commands)[|PrintElements(commands)| - 1] == ']'
    ensures PrintCommands(commands)[|PrintCommands(commands)| - 1] == ']' && PrintCommands(commands)[0] == '['
  {
    if |commands| > 1 { LastBracket(commands[1..]); }
  }

  // ---------------------------------------------------------------------------------------
  // What the rewritten file consists of
  // ---------------------------------------------------------------------------------------

  const PREFIX := "VERIFICATION_COMMANDS_DISCOVERY_SKIPPED_"
  const NOTE := "# Verification profile " + ("proposed by read-only " + ("config discovery and " + "validated locally."))

  /** `sanitize_comment`. */
  function Sanitize(reason: string): (r: string)
    ensures |r| == |reason| && forall c | c in r :: !IsControl(c)
  {
    if reason == "" then "" else [if IsControl(reason[0]) then ' ' else reason[0]] + Sanitize(reason[1..])
  }

  function SkippedLine(index: nat, reason: string): string {
    PREFIX + PrintNat(index) + (":" + (" off  # " + Sanitize(reason)))
  }

  function SkippedLines(first: nat, reasons: seq<string>): seq<string>
    decreases |reasons|
  {
    if reasons == [] then [] else [SkippedLine(first, reasons[0])] + SkippedLines(first + 1, reasons[1..])
  }

  function CommandsLine(accepted: seq<string>): string { COMMANDS + (":" + (" " + PrintCommands(accepted))) }

  function AddedLines(accepted: seq<string>, skipped: seq<string>, first: nat): (r: seq<string>)
    ensures r != []
  {
    [NOTE] + (if accepted != [] then [CommandsLine(accepted)] else []) + SkippedLines(first, skipped)
  }

  /** `usize::from_str`. */
  function IndexOn(line: string): nat {
    if !StartsWith(line, PREFIX) then 0
    else
      var rest := line[|PREFIX|..];
      var k := ColonAt(rest);
      if k == |rest| then 0 else match ParseIndex(Trim(rest[..k])) case Some(n) => n case None => 0
  }

  function ParseIndex(s: string): Option<nat> {
    var digits := if StartsWith(s, "+") then s[1..] else s;
    if digits != "" && forall c | c in digits :: IsDigit(c) then Some(DigitsValue(digits, 0)) else None
  }

  function LargestIndex(lines: seq<string>): nat {
    if lines == [] then 0
    else if IndexOn(lines[0]) > LargestIndex(lines[1..]) then IndexOn(lines[0]) else LargestIndex(lines[1..])
  }

  /** `next_skipped_index`. */
  function NextIndex(existing: string): nat { LargestIndex(Lines(existing)) + 1 }

  /** The line ends that keep the addition apart from the existing text. */
  function Gap(existing: string): string {
    if existing == "" then "" else if existing[|existing| - 1] == '\n' then "\n" else "\n\n"
  }

  function Updated(existing: string, accepted: seq<string>, skipped: seq<string>): string {
    existing + Gap(existing) + Unlines(AddedLines(accepted, skipped, NextIndex(existing)))
  }

  // ---------------------------------------------------------------------------------------
  // Reading the rewritten file
  // ---------------------------------------------------------------------------------------

  lemma {:induction false} ColonAppend(s: string, c: char)
    requires c != ':'
    ensures ColonAt(s + [c]) == if ColonAt(s) == |s| then |s| + 1 else ColonAt(s)
  {
    if s == "" {
      assert s + [c] == [c] && [c][1..] == "";
    } else {
      assert (s + [c])[0] == s[0] && (s + [c])[1..] == s[1..] + [c];
      ColonAppend(s[1..], c);
    }
  }

  lemma {:induction false} CommentAppend(s: string, c: char, i: nat, quote: ConfigFields.Quote, blank: bool)
    requires c != '#' && i <= |s|
    ensures CommentAt(s + [c], i, quote, blank) == if CommentAt(s, i, quote, blank) == |s| then |s| + 1 else CommentAt(s, i, quote, blank)
    decreases |s| - i
  {
    if i < |s| {
      assert (s + [c])[i] == s[i];
      if !(quote == Unquoted && s[i] == '#' && blank) { CommentAppend(s, c, i + 1, NextQuote(quote, s[i]), IsWhitespace(s[i])); }
    } else {
      assert (s + [c])[i] == c;
    }
  }

  /** A carriage return at the end of a line does not matter to its field. */
  lemma FieldCr(line: string)
    ensures FieldOf(line + ['\r']) == FieldOf(line)
  {
    var l := line + ['\r'];
    ColonAppend(line, '\r');
    if line != "" {
      assert l[0] == line[0];
      var k := ColonAt(line);
      if k < |line| {
        assert l[..k] == line[..k];
        ValueCr(line[k + 1..]);
        assert l[k + 1..] == line[k + 1..] + ['\r'];
      } else {
        assert ColonAt(l) == |l|;
      }
    }
  }

  lemma ValueCr(v: string)
    ensures Trim(StripComment(v + ['\r'])) == Trim(StripComment(v))
  {
    CommentAppend(v, '\r', 0, Unquoted, true);
    var at := CommentAt(v, 0, Unquoted, true);
    if at == |v| {
      assert (v + ['\r'])[..|v| + 1] == v + ['\r'] && v[..|v|] == v;
      TrimAppend(v, '\r');
    } else {
      assert (v + ['\r'])[..at] == v[..at];
    }
  }

  lemma FieldStripCr(line: string)
    ensures FieldOf(StripCr(line)) == FieldOf(line)
  {
    if StripCr(line) != line {
      assert line == StripCr(line) + ['\r'];
      FieldCr(StripCr(line));
    }
  }

  /** Ending the last line changes no field. */
  lemma {:induction false} PairsNewline(s: string)
    requires !EndsLine(s)
    ensures Pairs(Lines(s + "\n")) == Pairs(Lines(s))
    decreases |s|
  {
    var (first, rest, ended) := FirstLine(s);
    if ended {
      assert s == first + "\n" + rest;
      assert s + "\n" == first + "\n" + (rest + "\n");
      FirstLineOf(first, rest + "\n");
      PairsNewline(rest);
    } else {
      assert s == first && s + "\n" == s + "\n" + "";
      LinesOf(s, "");
      assert Lines(s) == [s];
      assert Lines(s + "\n") == [StripCr(s)];
      FieldStripCr(s);
    }
  }

  lemma GapAddsNothing(existing: string)
    ensures EndsLine(existing + Gap(existing)) && Pairs(Lines(existing + Gap(existing))) == Pairs(Lines(existing))
  {
    if existing == "" {
      assert existing + Gap(existing) == existing;
    } else {
      var ended := if EndsLine(existing) then existing else existing + "\n";
      if !EndsLine(existing) { PairsNewline(existing); }
      assert existing + Gap(existing) == ended + "\n";
      LinesJoin(ended, "\n");
      EmptyLine();
      PairsJoin(Lines(ended), [""]);
    }
  }

  lemma EmptyLine()
    ensures Lines("\n") == [""] && Pairs([""]) == []
  {
    assert "" + "\n" + "" == "\n";
    LinesOf("", "");
    assert [""][1..] == [];
  }

  lemma NamesOfKeys()
    ensures IsName(COMMANDS) && COMMANDS[0] == 'V' && PREFIX[0] == 'V' && ':' !in COMMANDS && ':' !in PREFIX
    ensures NOTE[0] == '#' && '\n' !in NOTE && NOTE[|NOTE| - 1] == '.' && '\n' !in PREFIX && '\n' !in COMMANDS
  {
    NoteIs("# Verification profile ", "proposed by read-only ", "config discovery and ", "validated locally.");
  }

  lemma NoteIs(a: string, b: string, c: string, d: string)
    requires a == "# Verification profile " && b == "proposed by read-only " && c == "config discovery and " && d == "validated locally."
    ensures a + (b + (c + d)) == NOTE && NOTE[0] == '#' && '\n' !in NOTE && NOTE[|NOTE| - 1] == '.'
  {
    assert '\n' !in a && '\n' !in b && '\n' !in c && '\n' !in d;
    LastOfFour(a, b, c, d);
  }

  lemma LastOfFour(a: string, b: string, c: string, d: string)
    requires a != "" && d != ""
    ensures var s := a + (b + (c + d)); s[0] == a[0] && s[|s| - 1] == d[|d| - 1]
  {}

  lemma CommandsField(accepted: seq<string>)
    requires accepted != []
    ensures FieldOf(CommandsLine(accepted)) == Some((COMMANDS, PrintCommands(accepted)))
  {
    NamesOfKeys();
    NamedField(COMMANDS, " " + PrintCommands(accepted));
    PrintedSurvives(accepted);
  }

  lemma NamedField(key: string, rest: string)
    requires IsName(key) && ':' !in key
    ensures FieldOf(key + (":" + rest)) == Some((key, Trim(StripComment(rest))))
  {
    var line := key + (":" + rest);
    ColonFirst(key, rest);
    assert line[..|key|] == key && line[|key| + 1..] == rest && line[0] == key[0] && key[0] in key;
  }

  lemma SkippedField(index: nat, reason: string)
    ensures FieldOf(SkippedLine(index, reason)) == None
  {
    var line, key := SkippedLine(index, reason), PREFIX + PrintNat(index);
    NamesOfKeys();
    assert ':' !in key by { assert forall c | c in PrintNat(index) :: IsDigit(c); }
    ColonFirst(key, " off  # " + Sanitize(reason));
    assert line[..|key|] == key;
    assert PrintNat(index)[0] in key && IsDigit(PrintNat(index)[0]) by { assert PrintNat(index)[0] in PrintNat(index); }
  }

  lemma {:induction false} SkippedPairs(first: nat, reasons: seq<string>)
    ensures Pairs(SkippedLines(first, reasons)) == []
    decreases |reasons|
  {
    if reasons != [] {
      SkippedField(first, reasons[0]);
      SkippedPairs(first + 1, reasons[1..]);
      assert SkippedLines(first, reasons)[1..] == SkippedLines(first + 1, reasons[1..]);
    }
  }

  /** The fields the addition brings: the accepted commands, if there are any. */
  function NewPairs(accepted: seq<string>): seq<Pair> { if accepted != [] then [(COMMANDS, PrintCommands(accepted))] else [] }

  lemma AddedPairs(accepted: seq<string>, skipped: seq<string>, first: nat)
    ensures Pairs(AddedLines(accepted, skipped, first)) == NewPairs(accepted)
  {
    var middle := if accepted != [] then [CommandsLine(accepted)] else [];
    NamesOfKeys();
    PairsJoin([NOTE] + middle, SkippedLines(first, skipped));
    PairsJoin([NOTE], middle);
    SkippedPairs(first, skipped);
    assert [NOTE][1..] == [];
    if accepted != [] {
      CommandsField(accepted);
      assert middle[1..] == [];
    }
  }

  lemma {:induction false} BodyOneLine(p: JsonLine.Spelling)
    requires Strict(p)
    ensures '\n' !in JsonLine.Body(p)
    decreases p
  {
    match p
    case End =>
    case Raw(c, rest) => BodyOneLine(rest);
    case Short(c, rest) => BodyOneLine(rest);
    case Unit(a, b, c, d, rest) => BodyOneLine(rest);
  }

  lemma {:induction false} ElementsOneLine(commands: seq<string>)
    requires commands != []
    ensures '\n' !in PrintElements(commands)
  {
    SerdeTextStrict(commands[0]);
    BodyOneLine(SerdeText(commands[0]));
    if |commands| > 1 { ElementsOneLine(commands[1..]); }
  }

  lemma CommandsIsLine(accepted: seq<string>)
    requires accepted != []
    ensures IsLine(CommandsLine(accepted))
  {
    NamesOfKeys();
    ElementsOneLine(accepted);
    LastBracket(accepted);
    var line := CommandsLine(accepted);
    assert line == (COMMANDS + ": ") + PrintCommands(accepted);
    assert line[|line| - 1] == ']';
  }

  lemma SkippedIsLine(index: nat, reason: string)
    ensures IsLine(SkippedLine(index, reason))
  {
    NamesOfKeys();
    var tail, line := " off  # " + Sanitize(reason), SkippedLine(index, reason);
    assert forall c | c in PrintNat(index) :: IsDigit(c);
    assert line == (PREFIX + PrintNat(index) + ":") + tail;
    assert line[|line| - 1] == tail[|tail| - 1];
    assert tail[|tail| - 1] == ' ' || tail[|tail| - 1] in Sanitize(reason);
  }

  lemma {:induction false} SkippedAreLines(first: nat, reasons: seq<string>)
    ensures forall l | l in SkippedLines(first, reasons) :: IsLine(l)
    decreases |reasons|
  {
    if reasons != [] {
      SkippedIsLine(first, reasons[0]);
      SkippedAreLines(first + 1, reasons[1..]);
    }
  }

  lemma AddedAreLines(accepted: seq<string>, skipped: seq<string>, first: nat)
    ensures forall l | l in AddedLines(accepted, skipped, first) :: IsLine(l)
  {
    NamesOfKeys();
    SkippedAreLines(first, skipped);
    if accepted != [] { CommandsIsLine(accepted); }
  }

  /** The active fields of the rewritten file are the old ones and the accepted commands. */
  lemma UpdatedPairs(existing: string, accepted: seq<string>, skipped: seq<string>)
    ensures Pairs(Lines(Updated(existing, accepted, skipped))) == Pairs(Lines(existing)) + NewPairs(accepted)
  {
    var added := AddedLines(accepted, skipped, NextIndex(existing));
    GapAddsNothing(existing);
    LinesJoin(existing + Gap(existing), Unlines(added));
    AddedAreLines(accepted, skipped, NextIndex(existing));
    LinesOfUnlines(added);
    PairsJoin(Lines(existing + Gap(existing)), added);
    AddedPairs(accepted, skipped, NextIndex(existing));
  }

  /** For every valid text without a verification profile, whatever was accepted or skipped: the
      rewritten text is valid, its fields are the old ones plus the commands, and the commands read
      back are exactly the accepted ones. */
  lemma DiscoveryExtends(existing: string, accepted: seq<string>, skipped: seq<string>, rest: map<string, string> -> bool)
    requires Valid(existing, rest) && Unconfigured(Fields(existing).value) && AllTyped(accepted)
    ensures var text, fields := Updated(existing, accepted, skipped), Fields(existing).value;
            && Valid(text, rest)
            && Fields(text) == Some(if accepted == [] then fields else fields[COMMANDS := PrintCommands(accepted)])
            && CommandsOf(Fields(text).value, COMMANDS) == Some(accepted)
  {
    var before, fields := Pairs(Lines(existing)), Fields(existing).value;
    UpdatedPairs(existing, accepted, skipped);
    if accepted == [] {
      assert before + [] == before;
    } else {
      var last := (COMMANDS, PrintCommands(accepted));
      assert (before + [last])[..|before|] == before;
      PrintedDecodes(accepted);
      TypedIsCommand(accepted);
      ExtendedValid(fields, accepted, rest);
    }
  }

  /** None of the four keys an operator would have configured is active. */
  predicate Unconfigured(fields: map<string, string>) {
    COMMANDS !in fields && REVIEW_COMMANDS !in fields && SMOKE !in fields && MODE !in fields
  }

  lemma TypedIsCommand(commands: seq<string>)
    requires AllTyped(commands)
    ensures forall c | c in commands :: Trim(c) != "" && '\0' !in c
  {}

  lemma ExtendedValid(fields: map<string, string>, accepted: seq<string>, rest: map<string, string> -> bool)
    requires ValidFields(fields, rest) && Unconfigured(fields) && AllTyped(accepted)
    requires Commands(PrintCommands(accepted)) == Some(accepted) && accepted != []
    ensures ValidFields(fields[COMMANDS := PrintCommands(accepted)], rest)
  {
    var longer := fields[COMMANDS := PrintCommands(accepted)];
    assert longer - {COMMANDS} == fields - {COMMANDS};
  }

  // ---------------------------------------------------------------------------------------
  // The candidates
  // ---------------------------------------------------------------------------------------

  datatype Candidate = Candidate(command: string, file: string)

  /** What the machine and the repository say: whether a program can be run, and why a witness file
      does not do; and the wording of a refused command line. */
  datatype Local = Local(available: string -> bool, witnessed: (string, string, string) -> Option<string>, explain: string -> string)

  function BeforeDot(name: string): string {
    if name == "" || name[0] == '.' then "" else [name[0]] + BeforeDot(name[1..])
  }

  /** `required_witness`: the allow-list of tools. */
  function RequiredWitness(program: string): Option<string> { WitnessFile(CommandLine.Lower(BeforeDot(CommandLine.FileName(program)))) }

  function WitnessFile(tool: string): Option<string> {
    if tool in {"cargo", "rustfmt"} then Some("Cargo.toml")
    else if tool in {"npm", "npx", "pnpm", "yarn", "bun"} then Some("package.json")
    else if tool == "just" then Some("justfile")
    else if tool == "make" then Some("Makefile")
    else if tool == "go" then Some("go.mod")
    else if tool in {"python", "python3", "pytest", "ruff", "black"} then Some("pyproject.toml")
    else None
  }

  /** `validate_candidate`: why a command is skipped. */
  function Rejection(local: Local, command: string, file: string, seen: set<string>): Option<string> {
    match CommandLine.Parse(command)
    case Err(_) => Some(local.explain(command))
    case Ok(argv) =>
      if command in seen then Some(command + ": duplicate candidate")
      else if argv == [] || !local.available(argv[0]) then Some((if argv == [] then "" else argv[0]) + ": not found on PATH")
      else
        match RequiredWitness(argv[0])
        case None => Some(argv[0] + ": not a recognized verification tool")
        case Some(required) => local.witnessed(command, file, required)
  }

  function Seen(command: string, seen: set<string>): set<string> {
    if CommandLine.Parse(command).Ok? then seen + {command} else seen
  }

  /** A candidate goes to the accepted commands, or its reason to the skipped ones. */
  function Pick(local: Local, candidate: Candidate, seen: set<string>): (seq<string>, seq<string>) {
    match Rejection(local, Trim(candidate.command), Trim(candidate.file), seen)
    case Some(reason) => ([], [reason])
    case None => ([Trim(candidate.command)], [])
  }

  /** The accepted commands and the reasons for the others. */
  function Sift(local: Local, candidates: seq<Candidate>, seen: set<string>): (seq<string>, seq<string>)
    decreases |candidates|
  {
    if candidates == [] then ([], [])
    else
      var first := Pick(local, candidates[0], seen);
      var more := Sift(local, candidates[1..], Seen(Trim(candidates[0].command), seen));
      (first.0 + more.0, first.1 + more.1)
  }

  /** An accepted command is a typed command line of an allow-listed tool, and none is accepted
      twice. */
  lemma {:induction false} AcceptedAreTyped(local: Local, candidates: seq<Candidate>, seen: set<string>)
    ensures var accepted := Sift(local, candidates, seen).0;
            && AllTyped(accepted)
            && (forall c | c in accepted :: c !in seen && CommandLine.Parse(c).value != [] && RequiredWitness(CommandLine.Parse(c).value[0]).Some?)
            && forall i, j | 0 <= i < j < |accepted| :: accepted[i] != accepted[j]
    decreases |candidates|
  {
    if candidates != [] {
      AcceptedAreTyped(local, candidates[1..], Seen(Trim(candidates[0].command), seen));
    }
  }

  /** The command of a candidate as it is looked at. */
  function Asked(candidates: seq<Candidate>, i: nat): string
    requires i < |candidates|
  {
    Trim(candidates[i].command)
  }

  /** The candidate is a command line that no candidate ahead of it is, of a tool that can be run, is
      allow-listed, and has its witness. */
  predicate Sound(local: Local, candidates: seq<Candidate>, i: nat) {
    && i < |candidates| && CommandLine.Parse(Asked(candidates, i)).Ok?
    && (forall j | 0 <= j < i :: Asked(candidates, j) != Asked(candidates, i))
    && var argv := CommandLine.Parse(Asked(candidates, i)).value;
       && argv != [] && local.available(argv[0]) && RequiredWitness(argv[0]).Some?
       && local.witnessed(Asked(candidates, i), Trim(candidates[i].file), RequiredWitness(argv[0]).value) == None
  }

  /** Why a candidate is skipped: the first of these that holds. */
  predicate SkippedFor(local: Local, candidates: seq<Candidate>, i: nat, reason: string)
    requires i < |candidates|
  {
    var command := Asked(candidates, i);
    match CommandLine.Parse(command)
    case Err(_) => reason == local.explain(command)
    case Ok(argv) =>
      if exists j :: 0 <= j < i && Asked(candidates, j) == command then reason == command + ": duplicate candidate"
      else if argv == [] then reason == ": not found on PATH"
      else if !local.available(argv[0]) then reason == argv[0] + ": not found on PATH"
      else if RequiredWitness(argv[0]).None? then reason == argv[0] + ": not a recognized verification tool"
      else local.witnessed(command, Trim(candidates[i].file), RequiredWitness(argv[0]).value) == Some(reason)
  }

  predicate Ascending(order: seq<nat>, n: nat) {
    (forall k | 0 <= k < |order| :: order[k] < n) && forall k | 0 <= k < |order| - 1 :: order[k] < order[k + 1]
  }

  /** The first `n` candidates divided in two, each part in its order: the sound ones, whose commands
      are accepted, and the others, each with its reason. */
  ghost predicate Divided(local: Local, candidates: seq<Candidate>, n: nat, kept: seq<nat>, left: seq<nat>, sifted: (seq<string>, seq<string>)) {
    && n <= |candidates| && Ascending(kept, n) && Ascending(left, n) && |kept| + |left| == n
    && KeptAre(local, candidates, kept, sifted.0) && LeftAre(local, candidates, left, sifted.1)
  }

  ghost predicate KeptAre(local: Local, candidates: seq<Candidate>, kept: seq<nat>, accepted: seq<string>) {
    && |accepted| == |kept|
    && forall k | 0 <= k < |kept| :: Sound(local, candidates, kept[k]) && accepted[k] == Asked(candidates, kept[k])
  }

  ghost predicate LeftAre(local: Local, candidates: seq<Candidate>, left: seq<nat>, skipped: seq<string>) {
    && |skipped| == |left|
    && forall k | 0 <= k < |left| ::
         left[k] < |candidates| && !Sound(local, candidates, left[k]) && SkippedFor(local, candidates, left[k], skipped[k])
  }

  /** What has been seen of the first `n` candidates: the command lines among them. */
  ghost predicate SeenIn(candidates: seq<Candidate>, n: nat, seen: set<string>) {
    && n <= |candidates|
    && forall c :: c in seen <==> CommandLine.Parse(c).Ok? && exists j :: 0 <= j < n && Asked(candidates, j) == c
  }

  lemma SeenMore(candidates: seq<Candidate>, n: nat, seen: set<string>)
    requires n < |candidates| && SeenIn(candidates, n, seen)
    ensures SeenIn(candidates, n + 1, Seen(Asked(candidates, n), seen))
  {
    var next := Seen(Asked(candidates, n), seen);
    forall c ensures c in next <==> CommandLine.Parse(c).Ok? && exists j :: 0 <= j < n + 1 && Asked(candidates, j) == c {
      if c in seen {
        var j :| 0 <= j < n && Asked(candidates, j) == c;
        assert j < n + 1;
      }
    }
  }

  /** One candidate is accepted if it is sound, and skipped for its reason otherwise. */
  lemma PickIs(local: Local, candidates: seq<Candidate>, n: nat, seen: set<string>)
    requires n < |candidates| && SeenIn(candidates, n, seen)
    ensures var pick := Pick(local, candidates[n], seen);
            if Sound(local, candidates, n) then pick == ([Asked(candidates, n)], [])
            else |pick.1| == 1 && pick.0 == [] && SkippedFor(local, candidates, n, pick.1[0])
  {
    var command := Asked(candidates, n);
    if CommandLine.Parse(command).Ok? {
      assert command in seen <==> exists j :: 0 <= j < n && Asked(candidates, j) == command;
    }
  }

  lemma AscendingMore(order: seq<nat>, n: nat)
    requires Ascending(order, n)
    ensures Ascending(order, n + 1) && Ascending(order + [n], n + 1)
  {}

  lemma KeptMore(local: Local, candidates: seq<Candidate>, n: nat, kept: seq<nat>, accepted: seq<string>)
    requires KeptAre(local, candidates, kept, accepted) && Sound(local, candidates, n)
    ensures KeptAre(local, candidates, kept + [n], accepted + [Asked(candidates, n)])
  {
    var more := kept + [n];
    forall k | 0 <= k < |more| ensures Sound(local, candidates, more[k]) && (accepted + [Asked(candidates, n)])[k] == Asked(candidates, more[k]) {
      if k < |kept| { assert more[k] == kept[k]; }
    }
  }

  lemma LeftMore(local: Local, candidates: seq<Candidate>, n: nat, left: seq<nat>, skipped: seq<string>, reason: string)
    requires LeftAre(local, candidates, left, skipped)
    requires n < |candidates| && !Sound(local, candidates, n) && SkippedFor(local, candidates, n, reason)
    ensures LeftAre(local, candidates, left + [n], skipped + [reason])
  {
    var more, reasons := left + [n], skipped + [reason];
    forall k | 0 <= k < |more|
      ensures more[k] < |candidates| && !Sound(local, candidates, more[k]) && SkippedFor(local, candidates, more[k], reasons[k])
    {
      if k < |left| { assert more[k] == left[k] && reasons[k] == skipped[k]; } else { assert more[k] == n && reasons[k] == reason; }
    }
  }

  lemma DividedMore(local: Local, candidates: seq<Candidate>, n: nat, kept: seq<nat>, left: seq<nat>, sifted: (seq<string>, seq<string>), pick: (seq<string>, seq<string>))
    requires n < |candidates| && Divided(local, candidates, n, kept, left, sifted)
    requires if Sound(local, candidates, n) then pick == ([Asked(candidates, n)], [])
             else |pick.1| == 1 && pick.0 == [] && SkippedFor(local, candidates, n, pick.1[0])
    ensures var sound := Sound(local, candidates, n);
            Divided(local, candidates, n + 1, if sound then kept + [n] else kept, if sound then left else left + [n],
                    (sifted.0 + pick.0, sifted.1 + pick.1))
  {
    AscendingMore(kept, n);
    AscendingMore(left, n);
    if Sound(local, candidates, n) {
      KeptMore(local, candidates, n, kept, sifted.0);
      assert sifted.1 + pick.1 == sifted.1;
    } else {
      LeftMore(local, candidates, n, left, sifted.1, pick.1[0]);
      assert sifted.0 + pick.0 == sifted.0 && pick.1 == [pick.1[0]];
    }
  }

  lemma {:induction false} SiftedOn(local: Local, candidates: seq<Candidate>, n: nat, seen: set<string>, kept: seq<nat>, left: seq<nat>, sifted: (seq<string>, seq<string>))
    returns (allKept: seq<nat>, allLeft: seq<nat>)
    requires SeenIn(candidates, n, seen) && Divided(local, candidates, n, kept, left, sifted)
    ensures var more := Sift(local, candidates[n..], seen);
            Divided(local, candidates, |candidates|, allKept, allLeft, (sifted.0 + more.0, sifted.1 + more.1))
    decreases |candidates| - n
  {
    if n == |candidates| {
      assert sifted.0 + [] == sifted.0 && sifted.1 + [] == sifted.1;
      allKept, allLeft := kept, left;
    } else {
      var pick, sound := Pick(local, candidates[n], seen), Sound(local, candidates, n);
      PickIs(local, candidates, n, seen);
      SeenMore(candidates, n, seen);
      DividedMore(local, candidates, n, kept, left, sifted, pick);
      SiftStep(local, candidates, n, seen, sifted.0, sifted.1);
      allKept, allLeft := SiftedOn(local, candidates, n + 1, Seen(Asked(candidates, n), seen),
        if sound then kept + [n] else kept, if sound then left else left + [n], (sifted.0 + pick.0, sifted.1 + pick.1));
    }
  }

  /** Sifting accepts exactly the sound candidates, and gives a reason for each of the others, in
      their order. */
  lemma SiftDivides(local: Local, candidates: seq<Candidate>) returns (kept: seq<nat>, left: seq<nat>)
    ensures Divided(local, candidates, |candidates|, kept, left, Sift(local, candidates, {}))
  {
    kept, left := SiftedOn(local, candidates, 0, {}, [], [], ([], []));
    var all := Sift(local, candidates, {});
    assert candidates[0..] == candidates && [] + all.0 == all.0 && [] + all.1 == all.1;
  }

  // The allow-list

  /** The tools that verify, with the file each needs to be there. */
  const TOOLS: map<string, string> := map[
    "cargo" := "Cargo.toml", "rustfmt" := "Cargo.toml",
    "npm" := "package.json", "npx" := "package.json", "pnpm" := "package.json", "yarn" := "package.json", "bun" := "package.json",
    "just" := "justfile", "make" := "Makefile", "go" := "go.mod",
    "python" := "pyproject.toml", "python3" := "pyproject.toml", "pytest" := "pyproject.toml",
    "ruff" := "pyproject.toml", "black" := "pyproject.toml"]

  lemma {:induction false} BeforeDotIs(name: string, ending: string)
    requires '.' !in name && (ending == "" || ending[0] == '.')
    ensures BeforeDot(name + ending) == name
  {
    if name == "" {
      assert name + ending == ending;
    } else {
      assert name[0] in name && (name + ending)[0] == name[0] && (name + ending)[1..] == name[1..] + ending;
      BeforeDotIs(name[1..], ending);
    }
  }

  /** A program is known by its file name ahead of the first dot, wherever it lies and in letters of
      any case. */
  lemma WitnessOf(dir: string, name: string, ending: string)
    requires dir == "" || dir[|dir| - 1] == '/' || dir[|dir| - 1] == '\\'
    requires '.' !in name && (ending == "" || ending[0] == '.')
    requires '/' !in name + ending && '\\' !in name + ending
    ensures RequiredWitness(dir + (name + ending)) ==
            if CommandLine.Lower(name) in TOOLS then Some(TOOLS[CommandLine.Lower(name)]) else None
  {
    CommandLine.FileNameIs(dir, name + ending);
    BeforeDotIs(name, ending);
    ToolTable(CommandLine.Lower(name));
  }

  lemma ToolTable(tool: string)
    ensures WitnessFile(tool) == if tool in TOOLS then Some(TOOLS[tool]) else None
  {}

  // ---------------------------------------------------------------------------------------
  // The whole discovery
  // ---------------------------------------------------------------------------------------

  datatype Discovery =
    | InvalidExisting
    | AlreadyConfigured
    | EmptyOutput
    | InvalidComposed
    | Rewritten(text: string, accepted: nat, skipped: nat)

  /** `discover_and_write`, once the model's candidates are decoded. */
  function Discover(existing: string, candidates: seq<Candidate>, local: Local, rest: map<string, string> -> bool): Discovery {
    if !Valid(existing, rest) then InvalidExisting
    else if !Unconfigured(Fields(existing).value) then AlreadyConfigured
    else if candidates == [] then EmptyOutput
    else
      var (accepted, skipped) := Sift(local, candidates, {});
      var text := Updated(existing, accepted, skipped);
      if (accepted != [] && Commands(PrintCommands(accepted)) == None) || !Valid(text, rest) then InvalidComposed
      else Rewritten(text, |accepted|, |skipped|)
  }

  predicate OperatorKey(key: string) {
    || key == "VERIFICATION_COMMANDS" || key == "REVIEW_CYCLE_VERIFICATION_COMMANDS"
    || key == "SMOKE_CMD" || key == "VERIFICATION_MODE"
  }

  /** What becomes of a configuration: nothing is discovered for one that is invalid, or has one of the
      keys an operator sets, or without candidates; every other one is rewritten. */
  lemma DiscoveryIs(existing: string, candidates: seq<Candidate>, local: Local, rest: map<string, string> -> bool)
    ensures var r := Discover(existing, candidates, local, rest);
            && (r == InvalidExisting <==> !Valid(existing, rest))
            && (r == AlreadyConfigured <==>
                  Valid(existing, rest) && exists key | key in Fields(existing).value :: OperatorKey(key))
            && (r == EmptyOutput ==> candidates == [])
            && (r.Rewritten? <==> Valid(existing, rest) && Unconfigured(Fields(existing).value) && candidates != [])
  {
    NeverInvalidComposed(existing, candidates, local, rest);
  }

  /** The check of the composed text never fails: discovery refuses only a configuration that was
      already invalid. */
  lemma NeverInvalidComposed(existing: string, candidates: seq<Candidate>, local: Local, rest: map<string, string> -> bool)
    ensures Discover(existing, candidates, local, rest) != InvalidComposed
  {
    if Valid(existing, rest) && Unconfigured(Fields(existing).value) {
      var (accepted, skipped) := Sift(local, candidates, {});
      AcceptedAreTyped(local, candidates, {});
      DiscoveryExtends(existing, accepted, skipped, rest);
      if accepted != [] {
        PrintedDecodes(accepted);
        TypedIsCommand(accepted);
      }
    }
  }

  /** A discovery that ran leaves a configuration that discovery will not touch again, if anything
      was accepted. */
  lemma RediscoveryStops(existing: string, candidates: seq<Candidate>, local: Local, rest: map<string, string> -> bool, again: seq<Candidate>)
    requires Discover(existing, candidates, local, rest).Rewritten? && Discover(existing, candidates, local, rest).accepted > 0
    ensures Discover(Discover(existing, candidates, local, rest).text, again, local, rest) == AlreadyConfigured
  {
    var (accepted, skipped) := Sift(local, candidates, {});
    AcceptedAreTyped(local, candidates, {});
    DiscoveryExtends(existing, accepted, skipped, rest);
  }

  /** The line of a skipped candidate: its number and, in a comment, its reason with blanks for control
      characters. */
  lemma SkippedShows(index: nat, reason: string)
    ensures exists shown :: |shown| == |reason|
              && (forall i | 0 <= i < |reason| :: shown[i] == if IsControl(reason[i]) then ' ' else reason[i])
              && SkippedLine(index, reason) == PREFIX + (PrintNat(index) + (":" + (" off  # " + shown)))
  {
    SanitizeIs(reason);
    SkippedText(index, reason, Sanitize(reason));
  }

  lemma SkippedText(index: nat, reason: string, shown: string)
    requires shown == Sanitize(reason)
    ensures SkippedLine(index, reason) == PREFIX + (PrintNat(index) + (":" + (" off  # " + shown)))
  {}

  lemma {:induction false} SanitizeIs(reason: string)
    ensures forall i | 0 <= i < |reason| :: Sanitize(reason)[i] == if IsControl(reason[i]) then ' ' else reason[i]
  {
    if reason != "" { SanitizeIs(reason[1..]); }
  }

  // Numbers of skipped candidates

  lemma {:induction false} LargestBounds(lines: seq<string>, line: string)
    requires line in lines
    ensures IndexOn(line) <= LargestIndex(lines)
  {
    if line != lines[0] { LargestBounds(lines[1..], line); }
  }

  /** Every number given to a skipped candidate is new to the file, and none is given twice. */
  lemma {:induction false} FreshNumbers(existing: string, skipped: seq<string>, k: nat, line: string)
    requires k < |skipped| && line in Lines(existing)
    ensures |SkippedLines(NextIndex(existing), skipped)| == |skipped|
    ensures IndexOn(SkippedLines(NextIndex(existing), skipped)[k]) == NextIndex(existing) + k > IndexOn(line)
  {
    var first := NextIndex(existing);
    NumberAt(first, skipped, k);
    NextIsLater(existing, line);
  }

  lemma NumberAt(first: nat, skipped: seq<string>, k: nat)
    requires k < |skipped|
    ensures |SkippedLines(first, skipped)| == |skipped| && IndexOn(SkippedLines(first, skipped)[k]) == first + k
  {
    SkippedAt(first, skipped, k);
    NumberRead(first + k, skipped[k]);
  }

  lemma NextIsLater(existing: string, line: string)
    requires line in Lines(existing)
    ensures NextIndex(existing) > IndexOn(line)
  {
    LargestBounds(Lines(existing), line);
  }

  lemma {:induction false} SkippedAt(first: nat, reasons: seq<string>, k: nat)
    requires k < |reasons|
    ensures |SkippedLines(first, reasons)| == |reasons| && SkippedLines(first, reasons)[k] == SkippedLine(first + k, reasons[k])
    decreases |reasons|
  {
    if |reasons| > 1 { SkippedAt(first + 1, reasons[1..], if k == 0 then 0 else k - 1); }
  }

  lemma NumberRead(index: nat, reason: string)
    ensures IndexOn(SkippedLine(index, reason)) == index
  {
    var line, digits, tail := SkippedLine(index, reason), PrintNat(index), " off  # " + Sanitize(reason);
    assert line == PREFIX + (digits + (":" + tail));
    assert line[..|PREFIX|] == PREFIX && line[|PREFIX|..] == digits + (":" + tail);
    assert ':' !in digits;
    ColonFirst(digits, tail);
    assert (digits + (":" + tail))[..|digits|] == digits;
    assert digits[0] in digits && digits[|digits| - 1] in digits;
    NoTrim(digits);
    PrintedValue(index);
  }

  method SiftAll(candidates: seq<Candidate>, local: Local) returns (accepted: seq<string>, skipped: seq<string>)
    ensures (accepted, skipped) == Sift(local, candidates, {})
  {
    accepted, skipped := [], [];
    var seen: set<string>, i := {}, 0;
    ghost var whole := Sift(local, candidates, {});
    assert candidates[0..] == candidates && [] + whole.0 == whole.0 && [] + whole.1 == whole.1;
    while i < |candidates|
      invariant i <= |candidates|
      invariant accepted + Sift(local, candidates[i..], seen).0 == whole.0
      invariant skipped + Sift(local, candidates[i..], seen).1 == whole.1
    {
      SiftStep(local, candidates, i, seen, accepted, skipped);
      var first := Pick(local, candidates[i], seen);
      accepted, skipped := accepted + first.0, skipped + first.1;
      seen := Seen(Trim(candidates[i].command), seen);
      i := i + 1;
    }
    assert accepted + [] == accepted && skipped + [] == skipped;
  }

  lemma SiftStep(local: Local, candidates: seq<Candidate>, i: nat, seen: set<string>, accepted: seq<string>, skipped: seq<string>)
    requires i < |candidates|
    ensures var first := Pick(local, candidates[i], seen);
            var all, more := Sift(local, candidates[i..], seen), Sift(local, candidates[i + 1..], Seen(Trim(candidates[i].command), seen));
            accepted + all.0 == accepted + first.0 + more.0 && skipped + all.1 == skipped + first.1 + more.1
  {
    assert candidates[i..][1..] == candidates[i + 1..];
  }

  /** The configuration file of one repository. */
  class ConfigFile {
    var text: Option<string>

    constructor (t: Option<string>)
      ensures text == t
    {
      text := t;
    }

    /** `discover_and_write`: candidates are sifted one by one, and the file is replaced at most
        once, with a text that is known to be valid. */
    method DiscoverAndWrite(candidates: seq<Candidate>, local: Local, rest: map<string, string> -> bool) returns (r: Discovery)
      modifies this
      ensures r == Discover(match old(text) case Some(t) => t case None => "", candidates, local, rest)
      ensures text == if r.Rewritten? then Some(r.text) else old(text)
      ensures r.Rewritten? ==>
                exists kept, left, sifted :: Divided(local, candidates, |candidates|, kept, left, sifted)
                  && r.accepted == |kept| && r.skipped == |left|
                  && r.text == Updated(match old(text) case Some(t) => t case None => "", sifted.0, sifted.1)
    {
      var existing := match text case Some(t) => t case None => "";
      var fields := ActiveFields(existing);
      if fields.None? || !ValidFields(fields.value, rest) { return InvalidExisting; }
      if !Unconfigured(fields.value) { return AlreadyConfigured; }
      if candidates == [] { return EmptyOutput; }
      var accepted, skipped := SiftAll(candidates, local);
      ghost var kept, left := SiftDivides(local, candidates);
      NeverInvalidComposed(existing, candidates, local, rest);
      var updated := Updated(existing, accepted, skipped);
      text := Some(updated);
      return Rewritten(updated, |accepted|, |skipped|);
    }
  }
}
