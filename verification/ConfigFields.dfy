/** The configuration reader of `engine/src/config.rs`: active `KEY: value` lines, inline comments,
    and the JSON command arrays among the values. */
module ConfigFields {
  import opened Text
  import opened StatusText
  import opened LineFields
  import JsonLine
  import CommandLine

  // ---------------------------------------------------------------------------------------
  // Inline comments
  // ---------------------------------------------------------------------------------------

  datatype Quote = Unquoted | Single | Double(escaped: bool)

  /** Where the comment starts, from index `i` on: the first unquoted hash behind a blank, or the
      end. */
  function CommentAt(s: string, i: nat, quote: Quote, blank: bool): (r: nat)
    requires i <= |s|
    ensures i <= r <= |s|
    decreases |s| - i
  {
    if i == |s| then i
    else if quote == Unquoted && s[i] == '#' && blank then i
    else CommentAt(s, i + 1, NextQuote(quote, s[i]), IsWhitespace(s[i]))
  }

  function NextQuote(quote: Quote, c: char): Quote {
    match quote
    case Unquoted => if c == '"' then Double(false) else if c == '\'' then Single else Unquoted
    case Single => if c == '\'' then Unquoted else Single
    case Double(escaped) =>
      if escaped then Double(false) else if c == '\\' then Double(true) else if c == '"' then Unquoted else quote
  }

  function StripComment(value: string): string { value[..CommentAt(value, 0, Unquoted, true)] }

  /** `strip_inline_comment`. */
  method StripInlineComment(value: string) returns (r: string)
    ensures r == StripComment(value)
  {
    var quote, blank, i := Unquoted, true, 0;
    while i < |value|
      invariant i <= |value| && CommentAt(value, 0, Unquoted, true) == CommentAt(value, i, quote, blank)
    {
      if quote == Unquoted && value[i] == '#' && blank { return value[..i]; }
      quote, blank := NextQuote(quote, value[i]), IsWhitespace(value[i]);
      i := i + 1;
    }
    return value;
  }

  /** In a value without quotes the comment starts at the first hash that is first of all or has a blank
      in front of it. */
  lemma {:induction false} CommentPlain(s: string, i: nat, blank: bool)
    requires i <= |s| && '"' !in s && '\'' !in s && (i > 0 ==> blank == IsWhitespace(s[i - 1])) && (i == 0 ==> blank)
    ensures var k := CommentAt(s, i, Unquoted, blank);
            && (k < |s| ==> s[k] == '#' && (k == 0 || IsWhitespace(s[k - 1])))
            && forall j | i <= j < k :: !(s[j] == '#' && (j == 0 || IsWhitespace(s[j - 1])))
    decreases |s| - i
  {
    if i < |s| && !(s[i] == '#' && blank) {
      assert s[i] in s;
      CommentPlain(s, i + 1, IsWhitespace(s[i]));
    }
  }

  // ---------------------------------------------------------------------------------------
  // Active fields
  // ---------------------------------------------------------------------------------------

  predicate IsName(key: string) { key != "" && forall c | c in key :: 'A' <= c <= 'Z' || c == '_' }

  type Pair = (string, string)

  /** The field of one line, if the line is active. */
  function FieldOf(line: string): Option<Pair> {
    var k := ColonAt(line);
    if line == "" || line[0] == '#' || IsWhitespace(line[0]) || k == |line| || !IsName(line[..k]) then None
    else Some((line[..k], Trim(StripComment(line[k + 1..]))))
  }

  /** A line is an active field exactly if it is a name of capitals and underscores from its very
      beginning, a colon, and then the value, which is read without blanks around it and without its
      comment. */
  lemma FieldIs(key: string, value: string)
    requires ':' !in key
    ensures FieldOf(key + (":" + value)) == if IsName(key) then Some((key, Trim(StripComment(value)))) else None
  {
    var line := key + (":" + value);
    ColonFirst(key, value);
    assert line[..|key|] == key && line[|key| + 1..] == value;
    if IsName(key) { assert key[0] in key && line[0] == key[0]; }
  }

  lemma NoColonNoField(line: string)
    requires ':' !in line
    ensures FieldOf(line) == None
  {}

  predicate NamesDiffer(pairs: seq<Pair>) { forall i, j | 0 <= i < j < |pairs| :: pairs[i].0 != pairs[j].0 }

  predicate HasName(pairs: seq<Pair>, key: string) { exists i :: 0 <= i < |pairs| && pairs[i].0 == key }

  lemma OneMoreName(init: seq<Pair>, last: Pair, key: string)
    ensures NamesDiffer(init + [last]) <==> NamesDiffer(init) && !HasName(init, last.0)
    ensures HasName(init + [last], key) <==> HasName(init, key) || key == last.0
  {
    var all := init + [last];
    assert all[|init|] == last && forall i | 0 <= i < |init| :: all[i] == init[i];
    if HasName(init, key) {
      var i :| 0 <= i < |init| && init[i].0 == key;
      assert all[i].0 == key;
    }
  }

  /** The fields of a text are its active lines by name, and there are none if a name stands twice. */
  lemma {:induction false} CollectIs(pairs: seq<Pair>, key: string)
    ensures Collect(pairs).Some? <==> NamesDiffer(pairs)
    ensures Collect(pairs).Some? ==> (key in Collect(pairs).value <==> HasName(pairs, key))
    ensures Collect(pairs).Some? ==>
              forall i | 0 <= i < |pairs| && pairs[i].0 == key :: key in Collect(pairs).value && Collect(pairs).value[key] == pairs[i].1
    decreases |pairs|
  {
    if pairs != [] {
      var init, last := pairs[..|pairs| - 1], pairs[|pairs| - 1];
      CollectIs(init, key);
      CollectIs(init, last.0);
      OneMoreName(init, last, key);
      assert pairs == init + [last];
    }
  }

  /** The active fields of some lines, in order. */
  function Pairs(lines: seq<string>): seq<Pair> {
    if lines == [] then [] else (match FieldOf(lines[0]) case Some(p) => [p] case None => []) + Pairs(lines[1..])
  }

  /** Fields by name, unless a name stands twice. */
  function Collect(pairs: seq<Pair>): Option<map<string, string>> {
    if pairs == [] then Some(map[])
    else
      var last := pairs[|pairs| - 1];
      match Collect(pairs[..|pairs| - 1])
      case None => None
      case Some(fields) => if last.0 in fields then None else Some(fields[last.0 := last.1])
  }

  function Fields(text: string): Option<map<string, string>> { Collect(Pairs(Lines(text))) }

  /** `active_fields`. */
  method ActiveFields(text: string) returns (r: Option<map<string, string>>)
    ensures r == Fields(text)
  {
    var lines, fields, i := Lines(text), map[], 0;
    while i < |lines|
      invariant i <= |lines| && Collect(Pairs(lines[..i])) == Some(fields)
    {
      var field := ActiveField(lines[i]);
      PairsStep(lines, i);
      if field.Some? {
        CollectStep(Pairs(lines[..i]), field.value);
        if field.value.0 in fields {
          Doubled(lines, i);
          return None;
        }
        fields := fields[field.value.0 := field.value.1];
      }
      i := i + 1;
    }
    assert lines[..i] == lines;
    return Some(fields);
  }

  method ActiveField(line: string) returns (r: Option<Pair>)
    ensures r == FieldOf(line)
  {
    if line == "" || line[0] == '#' || IsWhitespace(line[0]) { return None; }
    var k := ColonAt(line);
    if k == |line| || !IsName(line[..k]) { return None; }
    var value := StripInlineComment(line[k + 1..]);
    return Some((line[..k], Trim(value)));
  }

  lemma CollectStep(pairs: seq<Pair>, last: Pair)
    ensures Collect(pairs + [last]) ==
            match Collect(pairs) case None => None case Some(fields) => if last.0 in fields then None else Some(fields[last.0 := last.1])
  {
    assert (pairs + [last])[..|pairs|] == pairs;
  }

  lemma Doubled(lines: seq<string>, i: nat)
    requires i < |lines| && Collect(Pairs(lines[..i + 1])) == None
    ensures Collect(Pairs(lines)) == None
  {
    CollectFails(Pairs(lines[..i + 1]), Pairs(lines[i + 1..]));
    PairsJoin(lines[..i + 1], lines[i + 1..]);
    assert lines == lines[..i + 1] + lines[i + 1..];
  }

  lemma {:induction false} PairsJoin(a: seq<string>, b: seq<string>)
    ensures Pairs(a + b) == Pairs(a) + Pairs(b)
  {
    if a == [] {
      assert a + b == b;
    } else {
      assert (a + b)[0] == a[0] && (a + b)[1..] == a[1..] + b;
      PairsJoin(a[1..], b);
      ThreePairs(match FieldOf(a[0]) case Some(p) => [p] case None => [], Pairs(a[1..]), Pairs(b));
    }
  }

  lemma ThreePairs(a: seq<Pair>, b: seq<Pair>, c: seq<Pair>)
    ensures a + b + c == a + (b + c)
  {}

  /** One more line adds its field, if it is active. */
  lemma PairsStep(lines: seq<string>, i: nat)
    requires i < |lines|
    ensures var before, field := Pairs(lines[..i]), FieldOf(lines[i]);
            Pairs(lines[..i + 1]) == (if field.Some? then before + [field.value] else before)
  {
    assert lines[..i + 1] == lines[..i] + [lines[i]];
    PairsJoin(lines[..i], [lines[i]]);
    assert [lines[i]][1..] == [];
  }

  lemma {:induction false} CollectFails(a: seq<Pair>, b: seq<Pair>)
    requires Collect(a) == None
    ensures Collect(a + b) == None
    decreases |b|
  {
    if b == [] {
      assert a + b == a;
    } else {
      var last := b[|b| - 1];
      assert (a + b)[..|a + b| - 1] == a + b[..|b| - 1];
      CollectFails(a, b[..|b| - 1]);
    }
  }

  // ---------------------------------------------------------------------------------------
  // Command arrays: `serde_json` for a list of strings
  // ---------------------------------------------------------------------------------------

  predicate IsHex(c: char) { '0' <= c <= '9' || 'a' <= c <= 'f' || 'A' <= c <= 'F' }

  /** What may follow a backslash, besides a code unit. */
  predicate IsShort(c: char) {
    c == '"' || c == '\\' || c == '/' || c == 'b' || c == 'f' || c == 'n' || c == 'r' || c == 't'
  }

  /** A string body as the strict decoder takes it: no bare control characters, no unknown escapes,
      no unpaired surrogates. */
  function ScanStrict(s: string, i: nat): (r: JsonLine.Scanned)
    ensures r.Some? ==> i < r.value.1 <= |s|
    decreases |s| - i
  {
    if i >= |s| || (s[i] as int) < 0x20 then None
    else if s[i] == '"' then Some(("", i + 1))
    else if s[i] == '\\' then
      if i + 1 >= |s| then None
      else if s[i + 1] == 'u' then
        if StrictUnit(s, i) then
          var (c, j) := JsonLine.ReadEscape(s, i).value;
          JsonLine.Prepend([c], ScanStrict(s, j))
        else None
      else if IsShort(s[i + 1]) then JsonLine.Prepend([JsonLine.ShortEscape(s[i + 1])], ScanStrict(s, i + 2))
      else None
    else JsonLine.Prepend([s[i]], ScanStrict(s, i + 1))
  }

  /** Four hex digits, naming no unpaired surrogate. */
  predicate StrictUnit(s: string, i: nat)
    requires i < |s|
  {
    && i + 5 < |s| && IsHex(s[i + 2]) && IsHex(s[i + 3]) && IsHex(s[i + 4]) && IsHex(s[i + 5])
    && JsonLine.ReadEscape(s, i).Some?
    && var u := JsonLine.FromHex(s[i + 2], s[i + 3], s[i + 4], s[i + 5]).value;
       (JsonLine.IsHigh(u) || JsonLine.IsLow(u) ==> JsonLine.ReadEscape(s, i).value.1 == i + 12)
  }

  /** What the strict decoder takes the lenient scanner reads alike, and there is no bare control
      character in it. */
  lemma {:induction false} StrictAgrees(s: string, i: nat)
    requires ScanStrict(s, i).Some?
    ensures ScanStrict(s, i) == JsonLine.ScanString(s, i)
    ensures forall k | i <= k < ScanStrict(s, i).value.1 :: (s[k] as int) >= 0x20
    decreases |s| - i
  {
    if s[i] == '"' {
    } else if s[i] == '\\' {
      if s[i + 1] == 'u' {
        var j := JsonLine.ReadEscape(s, i).value.1;
        StrictAgrees(s, j);
        UnitVisible(s, i);
      } else {
        StrictAgrees(s, i + 2);
      }
    } else {
      StrictAgrees(s, i + 1);
    }
  }

  lemma UnitVisible(s: string, i: nat)
    requires i + 1 < |s| && s[i] == '\\' && s[i + 1] == 'u' && StrictUnit(s, i)
    ensures var j := JsonLine.ReadEscape(s, i).value.1; i < j <= |s| && forall k | i <= k < j :: (s[k] as int) >= 0x20
  {}

  function SkipSpace(s: string, i: nat): (r: nat)
    requires i <= |s|
    ensures i <= r <= |s|
    decreases |s| - i
  {
    if i < |s| && (s[i] == ' ' || s[i] == '\t' || s[i] == '\n' || s[i] == '\r') then SkipSpace(s, i + 1) else i
  }

  /** The strings of an array, from its first element (or from the one behind a comma) on. */
  function ElementsAt(s: string, i: nat): Option<seq<string>>
    requires i <= |s|
    decreases |s| - i
  {
    var at := SkipSpace(s, i);
    if at == |s| || s[at] != '"' then None
    else
      match ScanStrict(s, at + 1)
      case None => None
      case Some((text, j)) =>
        var next := SkipSpace(s, j);
        if next == |s| then None
        else if s[next] == ']' then if SkipSpace(s, next + 1) == |s| then Some([text]) else None
        else if s[next] != ',' then None
        else match ElementsAt(s, next + 1) case None => None case Some(more) => Some([text] + more)
  }

  function DecodeStrings(s: string): Option<seq<string>> {
    var at := SkipSpace(s, 0);
    if at == |s| || s[at] != '[' then None
    else
      var first := SkipSpace(s, at + 1);
      if first < |s| && s[first] == ']' then if SkipSpace(s, first + 1) == |s| then Some([]) else None
      else ElementsAt(s, at + 1)
  }

  /** `parse_verification_commands`. */
  function Commands(value: string): Option<seq<string>> {
    match DecodeStrings(value)
    case None => None
    case Some(commands) =>
      if commands == [] || exists c | c in commands :: Trim(c) == "" || '\0' in c then None else Some(commands)
  }

  // ---------------------------------------------------------------------------------------
  // Which configurations are valid
  // ---------------------------------------------------------------------------------------

  const COMMANDS := "VERIFICATION_COMMANDS"
  const MODE := "VERIFICATION_MODE"
  const SMOKE := "SMOKE_CMD"
  const REVIEW := "REVIEW_CYCLE_VERIFICATION"
  const REVIEW_COMMANDS := "REVIEW_CYCLE_VERIFICATION_COMMANDS"

  function CommandsOf(fields: map<string, string>, key: string): Option<seq<string>> {
    if key in fields then Commands(fields[key]) else Some([])
  }

  function SmokeOf(fields: map<string, string>): Option<string> {
    if SMOKE in fields && Trim(fields[SMOKE]) != "" then Some(Trim(fields[SMOKE])) else None
  }

  predicate AllTyped(commands: seq<string>) { forall c | c in commands :: CommandLine.Parse(c).Ok? }

  /** `validate_typed_verification_profile`. */
  predicate TypedProfile(commands: seq<string>, smoke: Option<string>) {
    AllTyped(commands) && (commands == [] && smoke.Some? ==> CommandLine.Parse(smoke.value).Ok?)
  }

  /** The verification part of `parse_with_environment`; `rest` stands for what it requires of the
      other keys, none of which looks at `VERIFICATION_COMMANDS`. */
  predicate ValidFields(fields: map<string, string>, rest: map<string, string> -> bool) {
    var commands, review, smoke := CommandsOf(fields, COMMANDS), CommandsOf(fields, REVIEW_COMMANDS), SmokeOf(fields);
    var disabled := if MODE in fields then fields[MODE] == "disabled" else commands == Some([]) && smoke == None;
    && rest(fields - {COMMANDS})
    && commands.Some? && review.Some?
    && (MODE in fields ==> fields[MODE] in {"disabled", "auto", "required"})
    && (REVIEW in fields ==> fields[REVIEW] in {"true", "on", "false", "off"})
    && (!disabled ==> TypedProfile(commands.value, smoke))
    && AllTyped(review.value)
    && (REVIEW in fields && fields[REVIEW] in {"true", "on"} ==>
          (review.value != [] || commands.value != [] || smoke.Some?) && TypedProfile(commands.value, smoke))
  }

  /** `parse`, as far as it decides between a configuration and an error. */
  predicate Valid(text: string, rest: map<string, string> -> bool) {
    match Fields(text) case Some(fields) => ValidFields(fields, rest) case None => false
  }
}
