/** Single-value fields of a Markdown descriptor, from `engine/src/state/util.rs` and
    `engine/src/control.rs`: `LineField` reads trimmed lines, `SetLineField` writes to lines that
    are not indented. */
module LineFields {
  import opened Text
  import opened StatusText

  /** `str::lines`: a line ends at LF or CR LF; a last line without LF keeps its CR. */
  function Lines(s: string): (r: seq<string>)
    ensures forall l | l in r :: '\n' !in l
    decreases |s|
  {
    if s == "" then []
    else var (first, rest, ended) := FirstLine(s); [if ended then StripCr(first) else first] + Lines(rest)
  }

  /** The text up to the first LF, what follows it, and whether there was one. */
  function FirstLine(s: string): (r: (string, string, bool))
    ensures '\n' !in r.0
    ensures s == r.0 + (if r.2 then "\n" else "") + r.1 && (!r.2 ==> r.1 == "")
    ensures s != "" ==> |r.1| < |s|
  {
    if s == "" then ("", "", false)
    else if s[0] == '\n' then ("", s[1..], true)
    else
      var (l, rest, ended) := FirstLine(s[1..]);
      assert s == [s[0]] + s[1..];
      ([s[0]] + l, rest, ended)
  }

  function StripCr(line: string): (r: string)
    ensures forall c | c in r :: c in line
  {
    if line != "" && line[|line| - 1] == '\r' then line[..|line| - 1] else line
  }

  /** Lines joined by LF, with one LF at the end. */
  function Unlines(lines: seq<string>): string
    requires lines != []
  {
    if |lines| == 1 then lines[0] + "\n" else lines[0] + "\n" + Unlines(lines[1..])
  }

  /** The value of the first line whose trimmed form starts with the key. */
  function FieldIn(lines: seq<string>, key: string): Option<string> {
    if lines == [] then None
    else if StartsWith(Trim(lines[0]), key) then Some(Trim(Trim(lines[0])[|key|..]))
    else FieldIn(lines[1..], key)
  }

  function Or(a: Option<string>, b: Option<string>): Option<string> { if a.Some? then a else b }

  /** `line_field`. */
  function LineField(text: string, key: string): Option<string> { FieldIn(Lines(text), key) }

  /** The lines once `field` is set: the first line that starts with it is replaced, or a line is
      appended, behind a blank one if need be. */
  function SetIn(lines: seq<string>, field: string, value: string): (r: seq<string>)
    ensures r != []
  {
    if lines == [] then [field + " " + value]
    else if StartsWith(lines[0], field) then [field + " " + value] + lines[1..]
    else if |lines| == 1 then lines + (if lines[0] != "" then [""] else []) + [field + " " + value]
    else [lines[0]] + SetIn(lines[1..], field, value)
  }

  /** `set_line_field`. */
  function SetLineField(text: string, field: string, value: string): string { Unlines(SetIn(Lines(text), field, value)) }

  /** A field name: it neither starts nor ends with a blank. */
  predicate IsKey(key: string) { key != "" && !IsWhitespace(key[0]) && !IsWhitespace(key[|key| - 1]) }

  /** Two field names neither of which starts with the other. */
  predicate Apart(a: string, b: string) { !StartsWith(a, b) && !StartsWith(b, a) }

  // ---------------------------------------------------------------------------------------
  // Writing lines and reading them back
  // ---------------------------------------------------------------------------------------

  lemma {:induction false} FirstLineOf(line: string, rest: string)
    requires '\n' !in line
    ensures FirstLine(line + "\n" + rest) == (line, rest, true)
  {
    var s := line + "\n" + rest;
    if line == "" {
      assert s == ['\n'] + rest && s[1..] == rest;
    } else {
      assert s[0] == line[0] && line[0] in line && s[1..] == line[1..] + "\n" + rest;
      assert line == [line[0]] + line[1..];
      FirstLineOf(line[1..], rest);
    }
  }

  lemma LinesOf(line: string, rest: string)
    requires '\n' !in line
    ensures Lines(line + "\n" + rest) == [StripCr(line)] + Lines(rest)
  {
    FirstLineOf(line, rest);
  }

  lemma {:induction false} FirstLineJoin(x: string, y: string)
    requires x != "" && EndsLine(x)
    ensures FirstLine(x + y) == (FirstLine(x).0, FirstLine(x).1 + y, true) && FirstLine(x).2 && EndsLine(FirstLine(x).1)
  {
    assert (x + y)[0] == x[0] && (x + y)[1..] == x[1..] + y;
    if x[0] != '\n' { FirstLineJoin(x[1..], y); }
  }

  /** Whole lines, and then other text. */
  lemma {:induction false} LinesJoin(x: string, y: string)
    requires EndsLine(x)
    ensures Lines(x + y) == Lines(x) + Lines(y)
    decreases |x|
  {
    if x == "" {
      assert x + y == y;
    } else {
      FirstLineJoin(x, y);
      LinesJoin(FirstLine(x).1, y);
    }
  }

  predicate IsLine(line: string) { '\n' !in line && (line == "" || line[|line| - 1] != '\r') }

  /** Lines without line ends come back from the text they are written to. */
  lemma {:induction false} LinesOfUnlines(lines: seq<string>)
    requires lines != [] && forall l | l in lines :: IsLine(l)
    ensures Lines(Unlines(lines)) == lines
  {
    assert lines[0] in lines;
    if |lines| == 1 {
      assert lines[0] + "\n" == lines[0] + "\n" + "";
      LinesOf(lines[0], "");
    } else {
      forall l | l in lines[1..] ensures IsLine(l) { assert l in lines; }
      LinesOf(lines[0], Unlines(lines[1..]));
      LinesOfUnlines(lines[1..]);
    }
  }

  lemma TrimStripCr(line: string)
    ensures Trim(StripCr(line)) == Trim(line)
  {
    if line != "" && line[|line| - 1] == '\r' {
      assert line == line[..|line| - 1] + ['\r'];
      TrimAppend(line[..|line| - 1], '\r');
    }
  }

  /** A line that starts with a key does so trimmed, and then with no key apart from it. */
  lemma StartsTrimmed(line: string, key: string, other: string)
    requires IsKey(key) && StartsWith(line, key)
    ensures StartsWith(Trim(line), key) && (Apart(key, other) ==> !StartsWith(Trim(line), other))
  {
    var rest := line[|key|..];
    assert line == key + rest;
    TrimEndKeeps(key, rest);
    if StartsWith(Trim(line), other) { Prefixes(Trim(line), key, other); }
  }

  /** Of two prefixes of one text, one starts with the other. */
  lemma Prefixes(s: string, a: string, b: string)
    requires StartsWith(s, a) && StartsWith(s, b)
    ensures StartsWith(a, b) || StartsWith(b, a)
  {
    if |a| <= |b| { assert b[..|a|] == s[..|b|][..|a|] == a; } else { assert a[..|b|] == s[..|a|][..|b|] == b; }
  }

  lemma WrittenLine(field: string, value: string)
    requires IsKey(field)
    ensures StartsWith(field + " " + value, field)
    ensures StartsWith(Trim(field + " " + value), field) && Trim(Trim(field + " " + value)[|field|..]) == Trim(value)
  {
    var line := field + (" " + value);
    assert field + " " + value == line && line[..|field|] == field;
    TrimEndKeeps(field, " " + value);
    assert (field + TrimEnd(" " + value))[|field|..] == TrimEnd(" " + value);
    TrimEndTrims(" " + value);
    assert (" " + value)[1..] == value;
  }

  lemma {:induction false} TrimEndTrims(s: string)
    ensures Trim(TrimEnd(s)) == Trim(s)
    decreases |s|
  {
    if s != "" && IsWhitespace(s[|s| - 1]) {
      assert s == s[..|s| - 1] + [s[|s| - 1]];
      TrimAppend(s[..|s| - 1], s[|s| - 1]);
      TrimEndTrims(s[..|s| - 1]);
    }
  }

  // ---------------------------------------------------------------------------------------
  // Values of several lines
  // ---------------------------------------------------------------------------------------

  /** The lines a reader finds behind the first of a value that was written as one line. */
  function Continuation(value: string): seq<string> {
    var (_, rest, ended) := FirstLine(value);
    if ended then Lines(rest + "\n") else []
  }

  /** What a reader takes for lines, when some of the lines written hold line breaks. */
  function Shown(lines: seq<string>): seq<string> {
    if lines == [] then [] else Lines(lines[0] + "\n") + Shown(lines[1..])
  }

  lemma {:induction false} LinesShown(lines: seq<string>)
    requires lines != []
    ensures Lines(Unlines(lines)) == Shown(lines)
  {
    if |lines| == 1 {
      assert Shown(lines[1..]) == [];
    } else {
      LinesShown(lines[1..]);
      LinesJoin(lines[0] + "\n", Unlines(lines[1..]));
    }
  }

  lemma {:induction false} ShownJoin(a: seq<string>, b: seq<string>)
    ensures Shown(a + b) == Shown(a) + Shown(b)
  {
    if a == [] {
      assert a + b == b;
    } else {
      assert (a + b)[0] == a[0] && (a + b)[1..] == a[1..] + b;
      ShownJoin(a[1..], b);
    }
  }

  lemma {:induction false} FieldInJoin(a: seq<string>, b: seq<string>, key: string)
    ensures FieldIn(a + b, key) == Or(FieldIn(a, key), FieldIn(b, key))
  {
    if a == [] {
      assert a + b == b;
    } else {
      assert (a + b)[0] == a[0] && (a + b)[1..] == a[1..] + b;
      FieldInJoin(a[1..], b, key);
    }
  }

  /** A line without a line break is one line, less a CR at its end. */
  lemma OneShown(line: string)
    requires '\n' !in line
    ensures Shown([line]) == [StripCr(line)]
  {
    assert line + "\n" == line + "\n" + "";
    LinesOf(line, "");
    assert [line][1..] == [];
  }

  /** Reading on behind the first line, or from it. */
  lemma FieldSkips(line: string, rest: seq<string>, key: string)
    requires !StartsWith(Trim(line), key)
    ensures FieldIn([line] + rest, key) == FieldIn(rest, key)
  {
    assert ([line] + rest)[1..] == rest;
  }

  lemma FieldHere(line: string, rest: seq<string>, key: string)
    requires StartsWith(Trim(line), key)
    ensures FieldIn([line] + rest, key) == Some(Trim(Trim(line)[|key|..]))
  {}

  predicate Plain(lines: seq<string>) { forall l | l in lines :: '\n' !in l }

  lemma {:induction false} FieldShown(lines: seq<string>, key: string)
    requires Plain(lines)
    ensures FieldIn(Shown(lines), key) == FieldIn(lines, key)
  {
    if lines != [] {
      assert lines[0] in lines;
      assert lines == [lines[0]] + lines[1..];
      ShownJoin([lines[0]], lines[1..]);
      OneShown(lines[0]);
      TrimStripCr(lines[0]);
      forall l | l in lines[1..] ensures '\n' !in l { assert l in lines; }
      FieldShown(lines[1..], key);
    }
  }

  /** A field that was written shows its first line and then its continuation. */
  lemma WrittenShown(field: string, value: string)
    requires '\n' !in field
    ensures Shown([field + " " + value]) == [StripCr(field + " " + FirstLine(value).0)] + Continuation(value)
  {
    assert [field + " " + value][1..] == [];
    LinesBehind(field + " ", value);
  }

  lemma LinesBehind(front: string, value: string)
    requires '\n' !in front
    ensures Lines(front + value + "\n") == [StripCr(front + FirstLine(value).0)] + Continuation(value)
  {
    var (first, rest, ended) := FirstLine(value);
    if ended {
      Reassociated(front, first, rest);
      LinesOf(front + first, rest + "\n");
    } else {
      assert value == first && front + value + "\n" == front + first + "\n" + "";
      LinesOf(front + first, "");
    }
  }

  lemma Reassociated(a: string, first: string, rest: string)
    ensures a + (first + "\n" + rest) + "\n" == a + first + "\n" + (rest + "\n")
  {}

  // ---------------------------------------------------------------------------------------
  // What setting a field changes
  // ---------------------------------------------------------------------------------------

  /** The lines in front of the first that starts with a field, and those behind it. */
  function Ahead(lines: seq<string>, field: string): seq<string> {
    if lines == [] || StartsWith(lines[0], field) then [] else [lines[0]] + Ahead(lines[1..], field)
  }

  function Behind(lines: seq<string>, field: string): seq<string> {
    if lines == [] then [] else if StartsWith(lines[0], field) then lines[1..] else Behind(lines[1..], field)
  }

  /** The blank line in front of a line that is appended. */
  function Gap(lines: seq<string>, field: string): (r: seq<string>)
    ensures r == [] || r == [""]
  {
    if lines == [] || StartsWith(lines[0], field) then []
    else if |lines| == 1 then (if lines[0] != "" then [""] else [])
    else Gap(lines[1..], field)
  }

  lemma {:induction false} SetInSplits(lines: seq<string>, field: string, value: string)
    ensures SetIn(lines, field, value) == Ahead(lines, field) + (Gap(lines, field) + ([field + " " + value] + Behind(lines, field)))
  {
    if lines != [] && !StartsWith(lines[0], field) {
      if |lines| == 1 {
        assert lines[1..] == [] && [lines[0]] == lines;
      } else {
        SetInSplits(lines[1..], field, value);
      }
    }
  }

  lemma {:induction false} AheadPlain(lines: seq<string>, field: string)
    requires Plain(lines)
    ensures Plain(Ahead(lines, field)) && Plain(Behind(lines, field))
  {
    if lines != [] {
      assert lines[0] in lines;
      forall l | l in lines[1..] ensures '\n' !in l { assert l in lines; }
      AheadPlain(lines[1..], field);
    }
  }

  /** The line that is replaced is not one that another field is read from. */
  lemma {:induction false} AheadOrBehind(lines: seq<string>, field: string, other: string)
    requires IsKey(field) && Apart(field, other)
    ensures FieldIn(lines, other) == Or(FieldIn(Ahead(lines, field), other), FieldIn(Behind(lines, field), other))
  {
    if lines != [] {
      if StartsWith(lines[0], field) {
        StartsTrimmed(lines[0], field, other);
      } else {
        AheadOrBehind(lines[1..], field, other);
        FieldInJoin([lines[0]], Ahead(lines[1..], field), other);
        assert [lines[0]][1..] == [];
      }
    }
  }

  /** The lines shown once a field is set. */
  lemma SetShown(lines: seq<string>, field: string, value: string, key: string)
    requires IsKey(field) && IsKey(key) && '\n' !in field && Plain(lines)
    ensures FieldIn(Shown(SetIn(lines, field, value)), key) ==
            Or(FieldIn(Ahead(lines, field), key), Or(FieldIn(Shown([field + " " + value]), key), FieldIn(Behind(lines, field), key)))
  {
    var ahead, gap, behind, written := Ahead(lines, field), Gap(lines, field), Behind(lines, field), [field + " " + value];
    SetInSplits(lines, field, value);
    AheadPlain(lines, field);
    ShownJoin(ahead, gap + (written + behind));
    ShownJoin(gap, written + behind);
    ShownJoin(written, behind);
    FieldInJoin(Shown(ahead), Shown(gap) + (Shown(written) + Shown(behind)), key);
    FieldInJoin(Shown(gap), Shown(written) + Shown(behind), key);
    FieldInJoin(Shown(written), Shown(behind), key);
    FieldShown(ahead, key);
    FieldShown(behind, key);
    FieldShown(gap, key);
    GapReads(lines, field, key);
  }

  lemma GapReads(lines: seq<string>, field: string, key: string)
    requires key != ""
    ensures FieldIn(Gap(lines, field), key) == None
  {}

  /** The value of another field that comes along with a value of several lines: it is read from
      the first continuation line that has it, if no line of it stands ahead. */
  function Brings(lines: seq<string>, field: string, value: string, other: string): Option<string> {
    if FieldIn(Ahead(lines, field), other).Some? then None else FieldIn(Continuation(value), other)
  }

  /** Setting one field leaves every other field as it was, unless the value brings one along. */
  lemma OtherFieldReads(lines: seq<string>, field: string, value: string, other: string)
    requires IsKey(field) && IsKey(other) && Apart(field, other) && '\n' !in field && Plain(lines)
    ensures FieldIn(Shown(SetIn(lines, field, value)), other) == Or(Brings(lines, field, value, other), FieldIn(lines, other))
  {
    var line := field + " " + FirstLine(value).0;
    SetShown(lines, field, value, other);
    WrittenShown(field, value);
    AheadOrBehind(lines, field, other);
    FieldInJoin([StripCr(line)], Continuation(value), other);
    assert [StripCr(line)][1..] == [];
    TrimStripCr(line);
    WrittenLine(field, FirstLine(value).0);
    StartsTrimmed(line, field, other);
  }

  /** An indented line with the field stands before the line that would be written. */
  predicate Shadowed(lines: seq<string>, field: string) { FieldIn(Ahead(lines, field), field).Some? }

  /** The value read is the first line of the value written, unless an indented line with the same
      field comes first: then that line is still the one that is read. */
  lemma SetFieldReads(lines: seq<string>, field: string, value: string)
    requires IsKey(field) && '\n' !in field && Plain(lines)
    ensures FieldIn(Shown(SetIn(lines, field, value)), field) ==
            if Shadowed(lines, field) then FieldIn(lines, field) else Some(Trim(FirstLine(value).0))
  {
    var line := field + " " + FirstLine(value).0;
    SetShown(lines, field, value, field);
    WrittenShown(field, value);
    FieldInJoin([StripCr(line)], Continuation(value), field);
    TrimStripCr(line);
    WrittenLine(field, FirstLine(value).0);
    AheadFirst(lines, field);
  }

  lemma {:induction false} AheadFirst(lines: seq<string>, field: string)
    ensures FieldIn(Ahead(lines, field), field).Some? ==> FieldIn(lines, field) == FieldIn(Ahead(lines, field), field)
  {
    if lines != [] && !StartsWith(lines[0], field) {
      AheadFirst(lines[1..], field);
      assert ([lines[0]] + Ahead(lines[1..], field))[1..] == Ahead(lines[1..], field);
    }
  }

  /** Setting a field, as a reader of the text sees it. */
  lemma SetReads(text: string, field: string, value: string, other: string)
    requires IsKey(field) && IsKey(other) && '\n' !in field
    ensures Apart(field, other) ==>
              LineField(SetLineField(text, field, value), other) == Or(Brings(Lines(text), field, value, other), LineField(text, other))
    ensures LineField(SetLineField(text, field, value), field) ==
            if Shadowed(Lines(text), field) then LineField(text, field) else Some(Trim(FirstLine(value).0))
  {
    LinesShown(SetIn(Lines(text), field, value));
    SetFieldReads(Lines(text), field, value);
    if Apart(field, other) { OtherFieldReads(Lines(text), field, value, other); }
  }

  /** A value of one line brings nothing along. */
  lemma {:induction false} OneLineBrings(value: string)
    requires '\n' !in value
    ensures Continuation(value) == [] && FirstLine(value).0 == value
  {
    if value != "" {
      assert value[0] in value;
      OneLineBrings(value[1..]);
      assert value == [value[0]] + value[1..];
    }
  }

  /** Text without a line break in front of a value does not change its continuation. */
  lemma {:induction false} ContinuationBehind(x: string, value: string)
    requires '\n' !in x
    ensures Continuation(x + value) == Continuation(value)
  {
    if x == "" {
      assert x + value == value;
    } else {
      assert x[0] in x && (x + value)[0] == x[0] && (x + value)[1..] == x[1..] + value;
      ContinuationBehind(x[1..], value);
    }
  }

  lemma ContinuationOf(first: string, rest: string)
    requires '\n' !in first
    ensures Continuation(first + "\n" + rest) == Lines(rest + "\n")
  {
    FirstLineOf(first, rest);
  }

  // ---------------------------------------------------------------------------------------
  // What stands ahead of a field
  // ---------------------------------------------------------------------------------------

  lemma {:induction false} SetInPlain(lines: seq<string>, field: string, value: string)
    requires '\n' !in field && '\n' !in value && Plain(lines)
    ensures Plain(SetIn(lines, field, value))
  {
    var written := field + " " + value;
    if |lines| > 1 && !StartsWith(lines[0], field) {
      forall l | l in lines[1..] ensures '\n' !in l { assert l in lines; }
      SetInPlain(lines[1..], field, value);
    }
  }

  lemma StripCrStarts(line: string, field: string)
    requires '\r' !in field
    ensures StartsWith(StripCr(line), field) <==> StartsWith(line, field)
  {
    if StartsWith(line, field) && |field| == |line| { assert line == field; }
  }

  lemma {:induction false} AheadShown(lines: seq<string>, field: string, key: string)
    requires Plain(lines) && '\r' !in field
    ensures FieldIn(Ahead(Shown(lines), field), key) == FieldIn(Ahead(lines, field), key)
  {
    if lines != [] {
      assert lines[0] in lines;
      assert lines == [lines[0]] + lines[1..];
      ShownJoin([lines[0]], lines[1..]);
      OneShown(lines[0]);
      TrimStripCr(lines[0]);
      StripCrStarts(lines[0], field);
      forall l | l in lines[1..] ensures '\n' !in l { assert l in lines; }
      AheadShown(lines[1..], field, key);
    }
  }

  /** A field of one line, set, does not change what stands ahead of another field. */
  lemma {:induction false} AheadSet(lines: seq<string>, field: string, value: string, other: string, key: string)
    requires IsKey(field) && Apart(field, other) && Apart(field, key) && key != "" && other != ""
    ensures FieldIn(Ahead(SetIn(lines, field, value), other), key) == FieldIn(Ahead(lines, other), key)
  {
    var written := field + " " + value;
    WrittenLine(field, value);
    StartsTrimmed(written, field, key);
    if StartsWith(written, other) { Prefixes(written, field, other); }
    if lines == [] {
      assert [written][1..] == [];
    } else if StartsWith(lines[0], field) {
      if StartsWith(lines[0], other) { Prefixes(lines[0], field, other); }
      StartsTrimmed(lines[0], field, key);
      assert SetIn(lines, field, value)[1..] == lines[1..];
    } else if |lines| == 1 {
      AppendedAhead(lines[0], written, other, key);
    } else {
      AheadSet(lines[1..], field, value, other, key);
      assert SetIn(lines, field, value)[1..] == SetIn(lines[1..], field, value);
    }
  }

  lemma AppendedAhead(line: string, written: string, other: string, key: string)
    requires other != "" && key != "" && !StartsWith(written, other) && !StartsWith(Trim(written), key)
    ensures FieldIn(Ahead([line] + (if line != "" then [""] else []) + [written], other), key) == FieldIn(Ahead([line], other), key)
  {
    var all := [line] + (if line != "" then [""] else []) + [written];
    assert [line][1..] == [] && [written][1..] == [];
    assert FieldIn([written], key) == None && Ahead([written], other) == [written];
    if line != "" {
      assert all[1..] == ["", written] && ["", written][1..] == [written];
      assert Ahead(["", written], other) == ["", written] && FieldIn(["", written], key) == None;
    } else {
      assert all[1..] == [written];
    }
  }

  /** The same of a whole text. */
  lemma AheadStays(text: string, field: string, value: string, other: string, key: string)
    requires IsKey(field) && IsKey(other) && IsKey(key) && Apart(field, other) && Apart(field, key)
    requires '\n' !in field && '\n' !in value && '\r' !in other
    ensures FieldIn(Ahead(Lines(SetLineField(text, field, value)), other), key) == FieldIn(Ahead(Lines(text), other), key)
  {
    var lines := SetIn(Lines(text), field, value);
    LinesShown(lines);
    SetInPlain(Lines(text), field, value);
    AheadShown(lines, other, key);
    AheadSet(Lines(text), field, value, other, key);
  }

  /** Whether a field is shadowed is settled by the first line that has it. */
  lemma {:induction false} ShadowJoin(a: seq<string>, b: seq<string>, field: string)
    requires IsKey(field)
    ensures FieldIn(Ahead(a + b, field), field) ==
            if FieldIn(a, field).Some? then FieldIn(Ahead(a, field), field) else FieldIn(Ahead(b, field), field)
  {
    if a == [] {
      assert a + b == b;
    } else {
      var rest := a[1..] + b;
      assert a + b == [a[0]] + rest && (a + b)[1..] == rest;
      ShadowJoin(a[1..], b, field);
      if StartsWith(a[0], field) {
        StartsTrimmed(a[0], field, field);
      } else if StartsWith(Trim(a[0]), field) {
        FieldHere(a[0], Ahead(rest, field), field);
        FieldHere(a[0], Ahead(a[1..], field), field);
      } else {
        FieldSkips(a[0], Ahead(rest, field), field);
        FieldSkips(a[0], Ahead(a[1..], field), field);
        FieldSkips(a[0], a[1..], field);
        assert a == [a[0]] + a[1..];
      }
    }
  }

  /** The line that is replaced does not shadow another field, nor is it shadowed by it. */
  lemma {:induction false} ShadowSplits(lines: seq<string>, field: string, other: string)
    requires IsKey(field) && IsKey(other) && Apart(field, other)
    ensures FieldIn(Ahead(lines, other), other) ==
            if FieldIn(Ahead(lines, field), other).Some? then FieldIn(Ahead(Ahead(lines, field), other), other)
            else FieldIn(Ahead(Behind(lines, field), other), other)
  {
    if lines == [] {
    } else if StartsWith(lines[0], field) {
      StartsTrimmed(lines[0], field, other);
      if StartsWith(lines[0], other) { Prefixes(lines[0], field, other); }
      ShadowJoin([lines[0]], lines[1..], other);
      FieldSkips(lines[0], [], other);
      assert lines == [lines[0]] + lines[1..] && [lines[0]] + [] == [lines[0]];
    } else {
      var ahead := Ahead(lines[1..], field);
      ShadowSplits(lines[1..], field, other);
      assert lines == [lines[0]] + lines[1..];
      ShadowJoin([lines[0]], lines[1..], other);
      ShadowJoin([lines[0]], ahead, other);
      FieldInJoin([lines[0]], ahead, other);
      assert Ahead(lines, field) == [lines[0]] + ahead && Behind(lines, field) == Behind(lines[1..], field);
    }
  }

  /** Setting one field does not bring another into a shadow or out of it, unless the value has a
      line of that field. */
  lemma ShadowStays(text: string, field: string, value: string, other: string)
    requires IsKey(field) && IsKey(other) && Apart(field, other) && '\n' !in field && '\r' !in other
    requires FieldIn(Continuation(value), other) == None
    ensures Shadowed(Lines(SetLineField(text, field, value)), other) <==> Shadowed(Lines(text), other)
  {
    var lines := Lines(text);
    var ahead, gap, behind, written := Ahead(lines, field), Gap(lines, field), Behind(lines, field), [field + " " + value];
    LinesShown(SetIn(lines, field, value));
    SetInSplits(lines, field, value);
    AheadPlain(lines, field);
    ShownJoin(ahead, gap + (written + behind));
    ShownJoin(gap, written + behind);
    ShownJoin(written, behind);
    ShadowJoin(Shown(ahead), Shown(gap) + (Shown(written) + Shown(behind)), other);
    ShadowJoin(Shown(gap), Shown(written) + Shown(behind), other);
    ShadowJoin(Shown(written), Shown(behind), other);
    FieldShown(ahead, other);
    FieldShown(gap, other);
    GapReads(lines, field, other);
    WrittenSilent(field, value, other);
    AheadShown(ahead, other, other);
    AheadShown(behind, other, other);
    ShadowSplits(lines, field, other);
  }

  lemma WrittenSilent(field: string, value: string, other: string)
    requires IsKey(field) && IsKey(other) && Apart(field, other) && '\n' !in field && FieldIn(Continuation(value), other) == None
    ensures FieldIn(Shown([field + " " + value]), other) == None
  {
    var line := field + " " + FirstLine(value).0;
    WrittenShown(field, value);
    FieldInJoin([StripCr(line)], Continuation(value), other);
    assert [StripCr(line)][1..] == [];
    TrimStripCr(line);
    WrittenLine(field, FirstLine(value).0);
    StartsTrimmed(line, field, other);
  }

  // ---------------------------------------------------------------------------------------
  // The loop that sets a field
  // ---------------------------------------------------------------------------------------

  lemma {:induction false} SetInFirst(lines: seq<string>, field: string, value: string, i: nat)
    requires i <= |lines| && forall j | 0 <= j < i :: !StartsWith(lines[j], field)
    ensures SetIn(lines, field, value) ==
            if i < |lines| && StartsWith(lines[i], field) then lines[i := field + " " + value]
            else if i == |lines| then lines + (if lines != [] && lines[|lines| - 1] != "" then [""] else []) + [field + " " + value]
            else SetIn(lines, field, value)
    decreases i
  {
    if i > 0 && |lines| > 1 {
      SetInFirst(lines[1..], field, value, i - 1);
      assert lines == [lines[0]] + lines[1..];
    }
  }

  /** `set_line_field`, one line at a time. */
  method WriteField(text: string, field: string, value: string) returns (r: string)
    ensures r == SetLineField(text, field, value)
  {
    var lines := Lines(text);
    ghost var start := lines;
    var i := 0;
    while i < |lines| && !StartsWith(lines[i], field)
      invariant i <= |lines| && forall j | 0 <= j < i :: !StartsWith(lines[j], field)
    {
      i := i + 1;
    }
    SetInFirst(start, field, value, i);
    if i < |lines| {
      lines := lines[i := field + " " + value];
    } else {
      if lines != [] && lines[|lines| - 1] != "" { lines := lines + [""]; }
      lines := lines + [field + " " + value];
    }
    assert lines == SetIn(start, field, value);
    r := Unlines(lines);
  }
}
