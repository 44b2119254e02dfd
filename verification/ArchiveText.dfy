/** The archive `Tasks_Done.md` as `engine/src/control.rs` reads it: a preamble and sections, each
    from one archive header line (`engine/src/state/util.rs`) to the next. */
module ArchiveText {
  import opened Text
  import opened StatusText
  import opened LineFields
  import opened QueueText

  // ---------------------------------------------------------------------------------------
  // Archive headers
  // ---------------------------------------------------------------------------------------

  function Hashes(s: string): (n: nat)
    ensures n <= |s|
  {
    if s != "" && s[0] == '#' then 1 + Hashes(s[1..]) else 0
  }

  /** Lower case, for the letters that can spell the two keywords. */
  function Lower(c: char): char {
    var n := c as int;
    if 'A' <= c <= 'Z' then (n + 0x20) as char
    else if 0x410 <= n <= 0x42F then (n + 0x20) as char
    else if n == 0x212A then 'k'
    else c
  }

  predicate SameIgnoringCase(s: string, keyword: string) {
    |s| == |keyword| && forall i | 0 <= i < |s| :: Lower(s[i]) == Lower(keyword[i])
  }

  function DigitRun(s: string): (n: nat)
    ensures n <= |s| && forall i | 0 <= i < n :: IsDigit(s[i])
  {
    if s != "" && IsDigit(s[0]) then 1 + DigitRun(s[1..]) else 0
  }

  /** A character that would continue the word after the digits: letters and digits beyond ASCII are
      taken to be the characters from U+00C0 on that are neither blank nor in the general
      punctuation block. */
  predicate WordChar(c: char) {
    var n := c as int;
    || IsDigit(c) || 'a' <= c <= 'z' || 'A' <= c <= 'Z' || c == '_'
    || (n >= 0xC0 && !IsWhitespace(c) && !(0x2000 <= n <= 0x206F))
  }

  /** `legacy_id_token`. */
  function LegacyId(token: string): Option<string> {
    if !StartsWith(token, "T-") then None
    else
      var n := DigitRun(token[2..]);
      if n == 0 || (2 + n < |token| && WordChar(token[2 + n])) then None else Some(token[..2 + n])
  }

  function Token(s: string): (string, string) { FirstWord(TrimStart(s)) }

  /** The legacy heading behind its single hash. */
  function LegacyHeader(rest: string): Option<string> {
    if rest == "" || !IsWhitespace(rest[0]) then None
    else
      var (first, more) := Token(rest);
      var (second, more2) := Token(more);
      var third := Token(more2).0;
      if (SameIgnoringCase(first, "Active") && SameIgnoringCase(second, "task"))
         || (SameIgnoringCase(first, "Активная") && SameIgnoringCase(second, "задача"))
      then LegacyId(third) else None
  }

  function BracketedId(rest: string): Option<string> {
    var r := TrimStart(rest);
    if r == "" || r[0] != '[' then None
    else
      match IndexOf(r[1..], "]", 0)
      case None => None
      case Some(close) => var id := Trim(r[1..][..close]); if IsTaskId(id) then Some(id) else None
  }

  /** `archive_header_task_id`. */
  function ArchiveHeader(line: string): Option<string> {
    var t := TrimStart(line);
    var n := Hashes(t);
    if n == 2 || n == 3 then BracketedId(t[n..]) else if n == 1 then LegacyHeader(t[1..]) else None
  }

  // What headers look like

  lemma {:induction false} HashRun(n: nat, rest: string)
    requires rest == "" || rest[0] != '#'
    ensures Hashes(Repeat('#', n) + rest) == n
  {
    if n == 0 {
      assert Repeat('#', 0) + rest == rest;
    } else {
      HashRun(n - 1, rest);
      assert (Repeat('#', n) + rest)[1..] == Repeat('#', n - 1) + rest && (Repeat('#', n) + rest)[0] == '#';
    }
  }

  function Repeat(c: char, n: nat): string { if n == 0 then "" else [c] + Repeat(c, n - 1) }

  lemma {:induction false} RepeatLength(c: char, n: nat)
    ensures |Repeat(c, n)| == n
  {
    if n > 0 { RepeatLength(c, n - 1); }
  }

  lemma NoBracketInId(id: string)
    requires IsTaskId(id)
    ensures ']' !in id
  {
    forall c | c in id ensures c != ']' {
      var k :| 0 <= k < |id| && id[k] == c;
      assert id[..2][0] == 'T' && id[..2][1] == '-';
      if k >= 2 { assert id[2..][k - 2] in id[2..]; }
    }
  }

  lemma IdThenBracket(id: string, rest: string)
    requires ']' !in id
    ensures IndexOf(id + ("]" + rest), "]", 0) == Some(|id|)
  {
    var inner := id + ("]" + rest);
    forall k: nat | k < |id| ensures !At(inner, k, "]") {
      OneChar(inner, k, ']');
      assert inner[k] == id[k] && id[k] in id;
    }
    OneChar(inner, |id|, ']');
    FirstIs(inner, "]", 0, |id|);
  }

  lemma HashesFirst(lead: string, n: nat, rest: string)
    requires Blank(lead) && n > 0 && (rest == "" || rest[0] != '#')
    ensures var t := TrimStart(lead + (Repeat('#', n) + rest)); t == Repeat('#', n) + rest && Hashes(t) == n && t[n..] == rest
  {
    HashRun(n, rest);
    RepeatLength('#', n);
    assert (Repeat('#', n) + rest)[0] == '#';
    TrimStartBlank(lead, Repeat('#', n) + rest);
  }

  /** Two or three hashes and then a task id in brackets, with blanks anywhere around, head the section of
      that task; more hashes head none. */
  lemma BracketForm(lead: string, n: nat, blanks: string, left: string, id: string, right: string, behind: string)
    requires Blank(lead) && Blank(blanks) && Blank(left) && Blank(right) && IsTaskId(id) && n > 0
    ensures ArchiveHeader(lead + (Repeat('#', n) + (blanks + ("[" + (left + id + right + ("]" + behind)))))) ==
            if n == 2 || n == 3 then Some(id) else None
  {
    var inner := left + id + right;
    var text := "[" + (inner + ("]" + behind));
    FirstIsNoHash(blanks, text);
    HashesFirst(lead, n, blanks + text);
    TrimStartBlank(blanks, text);
    NoBracketInId(id);
    IdTrims(left, id, right);
    assert ']' !in inner;
    IdThenBracket(inner, behind);
    assert text[1..] == inner + ("]" + behind) && (inner + ("]" + behind))[..|inner|] == inner;
    if n == 1 { BracketIsNoWord(blanks, text); }
  }

  lemma FirstIsNoHash(blanks: string, text: string)
    requires Blank(blanks) && text != "" && !IsWhitespace(text[0]) && text[0] != '#'
    ensures blanks + text != "" && (blanks + text)[0] != '#'
  {
    if blanks != "" { assert blanks[0] in blanks && (blanks + text)[0] == blanks[0]; } else { assert blanks + text == text; }
  }

  lemma IdTrims(left: string, id: string, right: string)
    requires Blank(left) && Blank(right) && IsTaskId(id)
    ensures Trim(left + id + right) == id && ']' !in left + right
  {
    assert id[..2][0] == 'T' && id[2..][|id| - 3] in id[2..];
    assert left + id + right == left + (id + right);
    TrimStartBlank(left, id + right);
    TrimEndBlank(id, right);
  }

  lemma BracketIsNoWord(blanks: string, text: string)
    requires Blank(blanks) && text != "" && text[0] == '['
    ensures LegacyHeader(blanks + text) == None
  {
    TrimStartBlank(blanks, text);
    var first := Token(blanks + text).0;
    assert first == FirstWord(text).0 && first != "" && first[0] == '[';
    assert Lower('[') == '[' && Lower("Active"[0]) == 'a';
    assert "Активная"[0] == 'А' && Lower('А') == 'а';
  }

  /** The older heading: one hash, the two words in letters of any case, and an id that no letter or digit
      follows. */
  lemma LegacyForm(lead: string, b1: string, w1: string, b2: string, w2: string, b3: string, digits: string, behind: string)
    requires Blank(lead) && Blank(b1) && Blank(b2) && Blank(b3) && b1 != "" && b2 != "" && b3 != ""
    requires (SameIgnoringCase(w1, "Active") && SameIgnoringCase(w2, "task"))
             || (SameIgnoringCase(w1, "Активная") && SameIgnoringCase(w2, "задача"))
    requires (forall c | c in w1 :: !IsWhitespace(c)) && (forall c | c in w2 :: !IsWhitespace(c)) && w1[0] != '#'
    requires digits != "" && (forall c | c in digits :: IsDigit(c)) && (behind == "" || IsWhitespace(behind[0]))
    ensures ArchiveHeader(lead + ("#" + (b1 + (w1 + (b2 + (w2 + (b3 + ("T-" + digits + behind)))))))) == Some("T-" + digits)
  {
    assert |"Active"| == 6 && |"task"| == 4 && |"Активная"| == 8 && |"задача"| == 6;
    assert w1 != "" && w2 != "";
    var id := "T-" + digits;
    var third := b3 + (id + behind);
    var second := b2 + (w2 + third);
    var rest := b1 + (w1 + second);
    assert Repeat('#', 1) == "#" by { assert Repeat('#', 0) == ""; }
    assert b1[0] in b1 && b2[0] in b2 && b3[0] in b3 && w1[0] in w1;
    FirstIsNoHash(b1, w1 + second);
    HashesFirst(lead, 1, rest);
    TokenIs(b1, w1, second);
    TokenIs(b2, w2, third);
    IdWord(digits);
    TokenIs(b3, id, behind);
    LegacyIdIs(digits);
    assert lead + ("#" + rest) == lead + (Repeat('#', 1) + rest);
  }

  lemma TokenIs(blanks: string, word: string, rest: string)
    requires Blank(blanks) && word != "" && (forall c | c in word :: !IsWhitespace(c)) && (rest == "" || IsWhitespace(rest[0]))
    ensures Token(blanks + (word + rest)) == (word, rest)
  {
    assert word[0] in word && (word + rest)[0] == word[0];
    TrimStartBlank(blanks, word + rest);
    WordEnds(word, rest);
  }

  lemma IdWord(digits: string)
    requires forall c | c in digits :: IsDigit(c)
    ensures forall c | c in "T-" + digits :: !IsWhitespace(c)
  {}

  lemma {:induction false} DigitsRun(digits: string)
    requires forall c | c in digits :: IsDigit(c)
    ensures DigitRun(digits) == |digits|
  {
    if digits != "" {
      assert digits[0] in digits;
      DigitsRun(digits[1..]);
    }
  }

  lemma LegacyIdIs(digits: string)
    requires digits != "" && forall c | c in digits :: IsDigit(c)
    ensures LegacyId("T-" + digits) == Some("T-" + digits)
  {
    var token := "T-" + digits;
    assert token[..2] == "T-" && token[2..] == digits && token[..|token|] == token;
    DigitsRun(digits);
  }

  // ---------------------------------------------------------------------------------------
  // A header does not depend on blanks behind it
  // ---------------------------------------------------------------------------------------

  lemma {:induction false} HashesAppend(s: string, c: char)
    requires c != '#'
    ensures Hashes(s + [c]) == Hashes(s)
  {
    if s == "" {
      assert s + [c] == [c];
    } else {
      assert (s + [c])[0] == s[0] && (s + [c])[1..] == s[1..] + [c];
      HashesAppend(s[1..], c);
    }
  }

  lemma {:induction false} FirstWordAppend(s: string, c: char)
    requires IsWhitespace(c)
    ensures FirstWord(s + [c]) == (FirstWord(s).0, FirstWord(s).1 + [c])
  {
    if s == "" {
      assert s + [c] == [c];
    } else {
      assert (s + [c])[0] == s[0] && (s + [c])[1..] == s[1..] + [c];
      if !IsWhitespace(s[0]) { FirstWordAppend(s[1..], c); }
    }
  }

  lemma TokenAppend(s: string, c: char)
    requires IsWhitespace(c)
    ensures Token(s + [c]).0 == Token(s).0
    ensures Token(s + [c]).1 == Token(s).1 + [c] || (Token(s + [c]).1 == "" && Token(s).1 == "")
  {
    TrimStartAppend(s, c);
    if TrimStart(s) != "" { FirstWordAppend(TrimStart(s), c); }
  }

  lemma {:induction false} LegacyAppend(rest: string, c: char)
    requires IsWhitespace(c)
    ensures LegacyHeader(rest + [c]) == LegacyHeader(rest)
  {
    if rest == "" {
      assert rest + [c] == [c];
      TokenOfBlank(c);
    } else {
      assert (rest + [c])[0] == rest[0];
      TokenAppend(rest, c);
      var more := Token(rest).1;
      TokenAppend(more, c);
      TokenAppend(Token(more).1, c);
    }
  }

  lemma TokenOfBlank(c: char)
    requires IsWhitespace(c)
    ensures LegacyHeader([c]) == None
  {
    assert [c][1..] == "" && TrimStart([c]) == "";
    assert Token([c]).0 == "" && |"Active"| == 6 && |"Активная"| == 8;
  }

  lemma {:induction false} IndexOfAppend(s: string, c: char, i: nat)
    requires c != ']' && i <= |s|
    ensures IndexOf(s + [c], "]", i) == IndexOf(s, "]", i)
    decreases |s| - i
  {
    OneChar(s, i, ']');
    OneChar(s + [c], i, ']');
    if i < |s| {
      IndexOfAppend(s, c, i + 1);
    } else {
      OneChar(s + [c], i, ']');
    }
  }

  lemma BracketedAppend(rest: string, c: char)
    requires IsWhitespace(c)
    ensures BracketedId(rest + [c]) == BracketedId(rest)
  {
    TrimStartAppend(rest, c);
    var r := TrimStart(rest);
    if r != "" && r[0] == '[' {
      assert (r + [c])[1..] == r[1..] + [c];
      IndexOfAppend(r[1..], c, 0);
      match IndexOf(r[1..], "]", 0)
      case Some(close) => assert (r[1..] + [c])[..close] == r[1..][..close];
      case None =>
    }
  }

  lemma HeaderAppend(line: string, c: char)
    requires IsWhitespace(c)
    ensures ArchiveHeader(line + [c]) == ArchiveHeader(line)
  {
    TrimStartAppend(line, c);
    var t := TrimStart(line);
    if t != "" {
      HashesAppend(t, c);
      var n := Hashes(t);
      assert (t + [c])[n..] == t[n..] + [c];
      BracketedAppend(t[n..], c);
      if n == 1 { LegacyAppend(t[1..], c); }
    }
  }

  lemma {:induction false} HeaderTrimEnd(line: string)
    ensures ArchiveHeader(TrimEnd(line)) == ArchiveHeader(line)
    decreases |line|
  {
    if line != "" && IsWhitespace(line[|line| - 1]) {
      assert line == line[..|line| - 1] + [line[|line| - 1]];
      HeaderAppend(line[..|line| - 1], line[|line| - 1]);
      HeaderTrimEnd(line[..|line| - 1]);
    }
  }

  // ---------------------------------------------------------------------------------------
  // Sections
  // ---------------------------------------------------------------------------------------

  datatype Section = Section(id: string, text: string)

  /** The first line with its line end, and the rest. */
  function TakeLine(s: string): (r: (string, string))
    requires s != ""
    ensures s == r.0 + r.1 && r.0 != "" && (r.1 != "" ==> r.0[|r.0| - 1] == '\n')
  {
    if s[0] == '\n' || |s| == 1 then (assert s == s[..1] + s[1..]; (s[..1], s[1..]))
    else
      var (l, rest) := TakeLine(s[1..]);
      assert s == s[..1] + s[1..];
      assert (s[..1] + l)[|s[..1] + l| - 1] == l[|l| - 1];
      (s[..1] + l, rest)
  }

  /** `trim_end_matches` of CR and LF. */
  function Chomp(line: string): string {
    if line != "" && (line[|line| - 1] == '\n' || line[|line| - 1] == '\r') then Chomp(line[..|line| - 1]) else line
  }

  /** `archive_sections`, with the text before the first. */
  function Sections(s: string): (r: (string, seq<Section>))
    decreases |s|
  {
    if s == "" then ("", [])
    else
      var (line, rest) := TakeLine(s);
      var (preamble, sections) := Sections(rest);
      match ArchiveHeader(Chomp(line))
      case Some(id) => ("", [Section(id, line + preamble)] + sections)
      case None => (line + preamble, sections)
  }

  function Texts(sections: seq<Section>): string {
    if sections == [] then "" else sections[0].text + Texts(sections[1..])
  }

  /** The sections with `more` added to the last. */
  function Extend(sections: seq<Section>, more: string): seq<Section>
    requires sections != []
  {
    var n := |sections| - 1;
    sections[..n] + [Section(sections[n].id, sections[n].text + more)]
  }

  /** Two texts one after the other: what precedes the first section of the second goes to the last
      section of the first. */
  function Joined(a: (string, seq<Section>), b: (string, seq<Section>)): (string, seq<Section>) {
    if a.1 == [] then (a.0 + b.0, b.1) else (a.0, Extend(a.1, b.0) + b.1)
  }

  lemma {:induction false} SectionsWhole(s: string)
    ensures Sections(s).0 + Texts(Sections(s).1) == s
    decreases |s|
  {
    if s != "" {
      var (line, rest) := TakeLine(s);
      var (preamble, sections) := Sections(rest);
      SectionsWhole(rest);
      Assoc(line, preamble, Texts(sections));
      match ArchiveHeader(Chomp(line))
      case Some(id) => assert ([Section(id, line + preamble)] + sections)[1..] == sections;
      case None =>
    }
  }

  lemma {:induction false} TakeLineJoin(x: string, y: string)
    requires x != "" && EndsLine(x)
    ensures TakeLine(x + y) == (TakeLine(x).0, TakeLine(x).1 + y) && EndsLine(TakeLine(x).1)
  {
    if x[0] != '\n' && |x| > 1 {
      assert (x + y)[0] == x[0] && (x + y)[1..] == x[1..] + y && (x + y)[..1] == x[..1];
      TakeLineJoin(x[1..], y);
    } else {
      assert (x + y)[..1] == x[..1] && (x + y)[1..] == x[1..] + y;
    }
  }

  lemma {:induction false} SectionsJoin(x: string, y: string)
    requires EndsLine(x)
    ensures Sections(x + y) == Joined(Sections(x), Sections(y))
    decreases |x|
  {
    if x == "" {
      assert x + y == y && "" + Sections(y).0 == Sections(y).0;
    } else {
      var (line, rest) := TakeLine(x);
      TakeLineJoin(x, y);
      SectionsJoin(rest, y);
      JoinedStep(line, Sections(rest), Sections(y));
      SectionsStep(x);
      SectionsStep(x + y);
    }
  }

  lemma SectionsStep(s: string)
    requires s != ""
    ensures Sections(s) == WithLine(TakeLine(s).0, Sections(TakeLine(s).1))
  {}

  /** One more line in front. */
  function WithLine(line: string, s: (string, seq<Section>)): (string, seq<Section>) {
    match ArchiveHeader(Chomp(line))
    case Some(id) => ("", [Section(id, line + s.0)] + s.1)
    case None => (line + s.0, s.1)
  }

  lemma JoinedStep(line: string, a: (string, seq<Section>), b: (string, seq<Section>))
    ensures WithLine(line, Joined(a, b)) == Joined(WithLine(line, a), b)
  {
    Assoc(line, a.0, b.0);
    match ArchiveHeader(Chomp(line))
    case None =>
    case Some(id) =>
      var first := Section(id, line + a.0);
      if a.1 != [] {
        var n := |a.1| - 1;
        assert ([first] + a.1)[..n + 1] == [first] + a.1[..n];
        assert Extend([first] + a.1, b.0) == [first] + Extend(a.1, b.0);
        assert [first] + Extend(a.1, b.0) + b.1 == [first] + (Extend(a.1, b.0) + b.1);
      } else {
        assert Extend([first], b.0) == [Section(id, line + a.0 + b.0)];
      }
  }

  /** The first `k` sections are those of the text in front of section `k`, which ends in a whole
      line; the others are those of the text from there on. */
  lemma {:induction false} SplitSections(s: string, k: nat)
    requires k < |Sections(s).1|
    ensures EndsLine(HeadOf(Sections(s), k))
    ensures Sections(HeadOf(Sections(s), k)) == (Sections(s).0, Sections(s).1[..k])
    decreases |s|
  {
    var (line, rest) := TakeLine(s);
    var inner := Sections(rest);
    SectionsStep(s);
    if ArchiveHeader(Chomp(line)).None? {
      SplitSections(rest, k);
      LineInFront(line, rest, HeadOf(inner, k));
      HeadPlain(line, inner, k);
    } else if k == 0 {
      assert Sections(s).1[..0] == [] && HeadOf(Sections(s), 0) == "";
    } else {
      SplitSections(rest, k - 1);
      LineInFront(line, rest, HeadOf(inner, k - 1));
      HeadHeader(line, inner, k);
    }
  }

  /** The text in front of section `k`. */
  function HeadOf(s: (string, seq<Section>), k: nat): string
    requires k <= |s.1|
  {
    s.0 + Texts(s.1[..k])
  }

  lemma HeadPlain(line: string, s: (string, seq<Section>), k: nat)
    requires k <= |s.1| && ArchiveHeader(Chomp(line)).None?
    ensures HeadOf(WithLine(line, s), k) == line + HeadOf(s, k)
    ensures WithLine(line, (s.0, s.1[..k])) == (WithLine(line, s).0, WithLine(line, s).1[..k])
  {
    Assoc(line, s.0, Texts(s.1[..k]));
  }

  lemma HeadHeader(line: string, s: (string, seq<Section>), k: nat)
    requires 0 < k <= |s.1| + 1 && ArchiveHeader(Chomp(line)).Some?
    ensures HeadOf(WithLine(line, s), k) == line + HeadOf(s, k - 1)
    ensures WithLine(line, (s.0, s.1[..k - 1])) == (WithLine(line, s).0, WithLine(line, s).1[..k])
  {
    var all := WithLine(line, s).1;
    assert all[..k] == [all[0]] + s.1[..k - 1];
    assert all[..k][1..] == s.1[..k - 1];
    Assoc(line, s.0, Texts(s.1[..k - 1]));
  }

  /** A whole line in front of a text that ends in a whole line. */
  lemma LineInFront(line: string, rest: string, x: string)
    requires rest != "" && line != "" && TakeLine(line + rest) == (line, rest) && EndsLine(x)
    ensures EndsLine(line + x) && Sections(line + x) == WithLine(line, Sections(x))
  {
    assert line[|line| - 1] == '\n';
    OnlyBreak(line, rest);
    OneLineJoin(line, x);
  }

  lemma {:induction false} OnlyBreak(line: string, rest: string)
    requires line != "" && rest != "" && TakeLine(line + rest) == (line, rest)
    ensures '\n' !in line[..|line| - 1] && line[|line| - 1] == '\n'
  {
    var s := line + rest;
    if s[0] != '\n' {
      assert s[1..] == line[1..] + rest;
      assert line == [line[0]] + line[1..];
      OnlyBreak(line[1..], rest);
    }
  }

  lemma {:induction false} OneLineJoin(line: string, x: string)
    requires line != "" && '\n' !in line[..|line| - 1] && line[|line| - 1] == '\n'
    ensures TakeLine(line + x) == (line, x)
  {
    var s := line + x;
    if |line| > 1 {
      assert line[..|line| - 1][0] == line[0] && s[0] == line[0];
      assert s[1..] == line[1..] + x && s[..1] == line[..1];
      assert line[1..][..|line| - 2] == line[..|line| - 1][1..];
      OneLineJoin(line[1..], x);
      assert line == line[..1] + line[1..];
    } else {
      assert s[..1] == line && s[1..] == x;
    }
  }

  lemma {:induction false} RestSections(s: string, k: nat)
    requires k <= |Sections(s).1|
    ensures Sections(Texts(Sections(s).1[k..])) == ("", Sections(s).1[k..])
    decreases |s|
  {
    if s != "" {
      var (line, rest) := TakeLine(s);
      var (preamble, sections) := Sections(rest);
      var all := Sections(s).1;
      match ArchiveHeader(Chomp(line))
      case None => RestSections(rest, k);
      case Some(id) =>
        if k > 0 {
          RestSections(rest, k - 1);
          assert all[k..] == sections[k - 1..];
        } else {
          SectionsWhole(s);
          assert all[0..] == all && "" + Texts(all) == Texts(all);
        }
    } else {
      assert Sections(s).1[k..] == [];
    }
  }
}
