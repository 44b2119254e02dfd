/** The archive section of a finished task, from `engine/src/control.rs`: descriptor and metrics go
    into one section of `Tasks_Done.md`, which is appended, repaired or left as it is. */
module Archive {
  import opened Text
  import opened StatusText
  import opened LineFields
  import opened QueueText
  import opened ControlPlane
  import opened ArchiveText

  // ---------------------------------------------------------------------------------------
  // Counting a marker
  // ---------------------------------------------------------------------------------------

  /** `str::matches(..).count()`: occurrences from the left that do not overlap. */
  function Count(s: string, m: string): nat
    requires m != ""
    decreases |s|
  {
    if |s| < |m| then 0 else if StartsWith(s, m) then 1 + Count(s[|m|..], m) else Count(s[1..], m)
  }

  lemma {:induction false} CountSplit(a: string, b: string, m: string)
    requires m != "" && '\n' !in m
    ensures Count(a + "\n" + b, m) == Count(a, m) + Count(b, m)
    decreases |a|
  {
    var s := a + "\n" + b;
    assert s[|a|] == '\n';
    if StartsWith(s, m) {
      assert forall i | 0 <= i < |m| :: s[i] == m[i];
      assert a[..|m|] == s[..|m|];
      assert s[|m|..] == a[|m|..] + "\n" + b;
      CountSplit(a[|m|..], b, m);
    } else if a == "" {
      assert s[1..] == b;
    } else {
      assert s[1..] == a[1..] + "\n" + b;
      if |m| <= |a| { assert a[..|m|] == s[..|m|]; }
      CountSplit(a[1..], b, m);
      ShortCount(a, m);
    }
  }

  lemma ShortCount(s: string, m: string)
    requires m != "" && s != "" && !StartsWith(s, m)
    ensures Count(s, m) == Count(s[1..], m)
  {}

  lemma {:induction false} CountBlank(s: string, c: char, m: string)
    requires m != "" && IsWhitespace(c) && !IsWhitespace(m[|m| - 1])
    ensures Count(s + [c], m) == Count(s, m)
    decreases |s|
  {
    var t := s + [c];
    if StartsWith(t, m) {
      assert t[..|m|][|m| - 1] == m[|m| - 1];
      assert s[..|m|] == t[..|m|] && t[|m|..] == s[|m|..] + [c];
      CountBlank(s[|m|..], c, m);
    } else if s != "" {
      if |m| <= |s| { assert s[..|m|] == t[..|m|]; }
      assert t[1..] == s[1..] + [c];
      CountBlank(s[1..], c, m);
      ShortCount(s, m);
    }
  }

  lemma {:induction false} CountTrimEnd(s: string, m: string)
    requires m != "" && !IsWhitespace(m[|m| - 1])
    ensures Count(TrimEnd(s), m) == Count(s, m)
    decreases |s|
  {
    if s != "" && IsWhitespace(s[|s| - 1]) {
      assert s == s[..|s| - 1] + [s[|s| - 1]];
      CountBlank(s[..|s| - 1], s[|s| - 1], m);
      CountTrimEnd(s[..|s| - 1], m);
    }
  }

  lemma {:induction false} CountAbsent(s: string, m: string)
    requires m != "" && m[0] !in s
    ensures Count(s, m) == 0
    decreases |s|
  {
    if |s| >= |m| {
      StartsAlike(s, m);
      CountAbsent(s[1..], m);
    }
  }

  // ---------------------------------------------------------------------------------------
  // Ids of sections
  // ---------------------------------------------------------------------------------------

  function Ids(sections: seq<Section>): seq<string> {
    if sections == [] then [] else [sections[0].id] + Ids(sections[1..])
  }

  lemma {:induction false} IdsJoin(a: seq<Section>, b: seq<Section>)
    ensures Ids(a + b) == Ids(a) + Ids(b)
  {
    if a == [] {
      assert a + b == b;
    } else {
      assert (a + b)[1..] == a[1..] + b;
      IdsJoin(a[1..], b);
    }
  }

  lemma IdsExtend(a: seq<Section>, more: string)
    requires a != []
    ensures Ids(Extend(a, more)) == Ids(a)
  {
    var n := |a| - 1;
    assert a == a[..n] + [a[n]];
    IdsJoin(a[..n], [a[n]]);
    IdsJoin(a[..n], [Section(a[n].id, a[n].text + more)]);
  }

  lemma IdsJoined(a: (string, seq<Section>), b: (string, seq<Section>))
    ensures Ids(Joined(a, b).1) == Ids(a.1) + Ids(b.1)
  {
    if a.1 != [] {
      IdsExtend(a.1, b.0);
      IdsJoin(Extend(a.1, b.0), b.1);
    }
  }

  lemma {:induction false} HeaderChomp(line: string)
    ensures ArchiveHeader(Chomp(line)) == ArchiveHeader(line)
    decreases |line|
  {
    if line != "" && (line[|line| - 1] == '\n' || line[|line| - 1] == '\r') {
      assert line == line[..|line| - 1] + [line[|line| - 1]];
      HeaderAppend(line[..|line| - 1], line[|line| - 1]);
      HeaderChomp(line[..|line| - 1]);
    }
  }

  lemma BlankIsNoHeader(c: char)
    requires IsWhitespace(c)
    ensures ArchiveHeader(Chomp([c])) == None && ArchiveHeader([c]) == None
  {
    HeaderChomp([c]);
    HeaderAppend("", c);
    assert "" + [c] == [c];
  }

  /** A blank at the end of a text neither makes nor breaks a section. */
  lemma {:induction false} BlankKeepsIds(s: string, c: char)
    requires IsWhitespace(c)
    ensures Ids(Sections(s + [c]).1) == Ids(Sections(s).1)
    decreases |s|
  {
    if s == "" {
      assert s + [c] == [c] && [c][..1] == [c] && [c][1..] == "";
      BlankIsNoHeader(c);
      SectionsStep([c]);
    } else {
      var (line, rest) := TakeLine(s);
      SectionsStep(s);
      SectionsStep(s + [c]);
      if EndsLine(line) {
        OneBreak(s);
        OneLineJoin(line, rest + [c]);
        assert s + [c] == line + (rest + [c]);
        BlankKeepsIds(rest, c);
      } else {
        LastLine(s, c);
        HeaderChomp(line);
        HeaderChomp(line + [c]);
        HeaderAppend(line, c);
      }
    }
  }

  lemma {:induction false} OneBreak(s: string)
    requires s != "" && EndsLine(TakeLine(s).0)
    ensures var line := TakeLine(s).0; '\n' !in line[..|line| - 1] && line[|line| - 1] == '\n'
  {
    if s[0] != '\n' && |s| > 1 {
      OneBreak(s[1..]);
      var inner := TakeLine(s[1..]).0;
      assert (s[..1] + inner)[..|inner|] == s[..1] + inner[..|inner| - 1];
    }
  }

  lemma {:induction false} LastLine(s: string, c: char)
    requires s != "" && !EndsLine(TakeLine(s).0)
    ensures TakeLine(s) == (s, "") && TakeLine(s + [c]) == (s + [c], "")
  {
    assert (s + [c])[0] == s[0] && (s + [c])[1..] == s[1..] + [c] && (s + [c])[..1] == s[..1];
    if |s| > 1 {
      LastLine(s[1..], c);
      assert s[..1] + s[1..] == s && s[..1] + (s[1..] + [c]) == s + [c];
    } else {
      assert s[1..] == "" && s[..1] == s && s[1..] + [c] == [c] && [c][..1] == [c] && [c][1..] == "";
    }
  }

  lemma {:induction false} TrimEndKeepsIds(s: string)
    ensures Ids(Sections(TrimEnd(s)).1) == Ids(Sections(s).1)
    decreases |s|
  {
    if s != "" && IsWhitespace(s[|s| - 1]) {
      assert s == s[..|s| - 1] + [s[|s| - 1]];
      BlankKeepsIds(s[..|s| - 1], s[|s| - 1]);
      TrimEndKeepsIds(s[..|s| - 1]);
    }
  }

  /** A text none of whose lines is an archive header has no section. */
  lemma {:induction false} NoHeaderLines(s: string)
    requires forall l | l in Lines(s) :: ArchiveHeader(l) == None
    ensures Sections(s).1 == []
    decreases |s|
  {
    if s != "" {
      var (first, more, ended) := FirstLine(s);
      FirstIsTaken(s);
      LinesStep(s);
      ShownHeader(first, ended);
      forall l | l in Lines(more) ensures ArchiveHeader(l) == None { assert l in Lines(s); }
      NoHeaderLines(more);
      SectionsStep(s);
    }
  }

  function Shown(first: string, ended: bool): string { if ended then StripCr(first) else first }

  lemma LinesStep(s: string)
    requires s != ""
    ensures var (first, more, ended) := FirstLine(s); Lines(s) == [Shown(first, ended)] + Lines(more) && Shown(first, ended) in Lines(s)
  {}

  /** A line is a header with its line end as without. */
  lemma ShownHeader(first: string, ended: bool)
    ensures ArchiveHeader(Chomp(if ended then first + "\n" else first)) == ArchiveHeader(Shown(first, ended))
  {
    HeaderChomp(if ended then first + "\n" else first);
    if ended {
      HeaderAppend(first, '\n');
      if StripCr(first) != first {
        assert first == StripCr(first) + ['\r'];
        HeaderAppend(StripCr(first), '\r');
      }
    }
  }

  lemma {:induction false} FirstIsTaken(s: string)
    requires s != ""
    ensures var (first, more, ended) := FirstLine(s);
            TakeLine(s) == (if ended then first + "\n" else first, more)
  {
    if s[0] != '\n' {
      assert s[..1] == [s[0]];
      if |s| > 1 {
        FirstIsTaken(s[1..]);
        Assoc([s[0]], FirstLine(s[1..]).0, "\n");
      } else {
        assert s[1..] == "" && [s[0]] + "" == [s[0]];
      }
    } else {
      assert s[..1] == "" + "\n";
    }
  }

  // ---------------------------------------------------------------------------------------
  // The section an archive projection writes
  // ---------------------------------------------------------------------------------------

  const METRICS_HEADING := "#### Метрики выполнения\n"

  /** `task_metrics_marker`. */
  function Marker(id: string, batch: string): string { MARK + (id + (" batch_id=" + (batch + " status="))) }

  const MARK := "<!-- " + ("orchestra/task-" + ("execution-" + "metrics@1 task_id="))

  /** `validate_task_metrics_block`. */
  predicate OkMetrics(metrics: string, id: string, batch: string) {
    && StartsWith(metrics, METRICS_HEADING)
    && Count(metrics, Marker(id, batch)) == 1
    && forall l | l in Lines(metrics) :: ArchiveHeader(l) == None
  }

  function FirstVisibleLine(lines: seq<string>): Option<string> {
    if lines == [] then None else if Trim(lines[0]) != "" then Some(lines[0]) else FirstVisibleLine(lines[1..])
  }

  predicate HasOwnHeader(descriptor: string, id: string) {
    match FirstVisibleLine(Lines(descriptor)) case Some(l) => ArchiveHeader(l) == Some(id) case None => false
  }

  function Heading(id: string): string { "### [" + id + "] выполнена\n" }

  /** `format_archive_section`. */
  function SectionText(id: string, descriptor: string, metrics: string): string {
    (if HasOwnHeader(descriptor, id) then "" else Heading(id) + "\n") + Body(descriptor, metrics)
  }

  /** Descriptor and metrics, as they stand in a section. */
  function Body(descriptor: string, metrics: string): string { TrimEnd(descriptor) + "\n" + "\n" + (TrimEnd(metrics) + "\n") }

  /** The descriptor brings no archive header but its own, and no metrics marker. */
  predicate OwnTextOnly(descriptor: string, id: string, batch: string) {
    && Ids(Sections(descriptor).1) == (if HasOwnHeader(descriptor, id) then [id] else [])
    && Count(descriptor, Marker(id, batch)) == 0
  }

  lemma MarkerShape(id: string, batch: string)
    requires IsTaskId(id) && OkBatch(batch)
    ensures var m := Marker(id, batch); m != "" && m[0] == '<' && m[|m| - 1] == '=' && '\n' !in m && '<' !in id
  {
    assert '\n' !in id && '<' !in id by {
      forall c | c in id ensures c != '\n' && c != '<' {
        var k :| 0 <= k < |id| && id[k] == c;
        assert id[..2][0] == 'T' && id[..2][1] == '-';
        if k >= 2 { assert id[2..][k - 2] in id[2..]; }
      }
    }
    var tail := " batch_id=" + (batch + " status=");
    assert '\n' !in "<!-- " && '\n' !in "orchestra/task-" && '\n' !in "execution-" && '\n' !in "metrics@1 task_id=";
    assert '\n' !in " batch_id=" && '\n' !in " status=";
    assert "<!-- "[0] == '<' && MARK[0] == '<';
    assert tail[|tail| - 1] == '=';
    EndOf(MARK + id, tail);
    Assoc(MARK, id, tail);
  }

  lemma EndOf(a: string, b: string)
    requires b != ""
    ensures (a + b)[|a + b| - 1] == b[|b| - 1]
  {}

  lemma HeadingIsHeader(id: string)
    requires IsTaskId(id)
    ensures ArchiveHeader("### [" + id + "] выполнена") == Some(id)
  {
    var line := "### [" + id + "] выполнена";
    var inner := id + "] выполнена";
    assert line == "###" + (" [" + inner);
    assert line[0] == '#' && line[1] == '#' && line[2] == '#' && line[3] == ' ';
    ThreeHashes(line);
    var rest := line[3..];
    assert rest == " [" + inner && rest[1..] == "[" + inner && ("[" + inner)[1..] == inner;
    IdCloses(id, inner);
    NoTrim(id) by { IdEnds(id); }
    assert inner[..|id|] == id;
    assert TrimStart(rest) == "[" + inner;
    assert BracketedId(rest) == Some(id);
  }

  lemma ThreeHashes(line: string)
    requires |line| > 3 && line[0] == '#' && line[1] == '#' && line[2] == '#' && line[3] == ' '
    ensures Hashes(line) == 3 && TrimStart(line) == line
  {
    assert line[1..][1..] == line[2..] && line[2..][1..] == line[3..];
    assert Hashes(line[3..]) == 0;
    assert Hashes(line[2..]) == 1;
    assert Hashes(line[1..]) == 2;
  }

  lemma IdEnds(id: string)
    requires IsTaskId(id)
    ensures id != "" && !IsWhitespace(id[0]) && !IsWhitespace(id[|id| - 1])
  {
    assert id[..2][0] == 'T';
    assert id[2..][|id| - 3] in id[2..];
  }

  lemma IdCloses(id: string, inner: string)
    requires IsTaskId(id) && inner == id + "] выполнена"
    ensures IndexOf(inner, "]", 0) == Some(|id|)
  {
    forall k: nat | k < |id| ensures !At(inner, k, "]") {
      OneChar(inner, k, ']');
      assert inner[k] == id[k];
      assert id[..2][0] == 'T' && id[..2][1] == '-';
      if k >= 2 { assert id[2..][k - 2] in id[2..]; }
    }
    OneChar(inner, |id|, ']');
    FirstIs(inner, "]", 0, |id|);
  }

  /** Text without sections, in whole lines, in front of other text. */
  lemma NoSectionsBefore(x: string, y: string)
    requires EndsLine(x)
    ensures Ids(Sections(x + y).1) == Ids(Sections(x).1) + Ids(Sections(y).1)
  {
    SectionsJoin(x, y);
    IdsJoined(Sections(x), Sections(y));
  }

  lemma BodyIds(descriptor: string, metrics: string, id: string, batch: string)
    requires OkMetrics(metrics, id, batch)
    ensures Ids(Sections(Body(descriptor, metrics)).1) == Ids(Sections(descriptor).1)
  {
    var d, m := TrimEnd(descriptor) + "\n", TrimEnd(metrics) + "\n";
    NoHeaderLines(metrics);
    TrimEndKeepsIds(metrics);
    TrimEndKeepsIds(descriptor);
    BlankKeepsIds(TrimEnd(metrics), '\n');
    BlankKeepsIds(TrimEnd(descriptor), '\n');
    BlankKeepsIds(d, '\n');
    NoSectionsBefore(d + "\n", m);
  }

  lemma BodyCount(descriptor: string, metrics: string, id: string, batch: string)
    requires OkMetrics(metrics, id, batch) && IsTaskId(id) && OkBatch(batch) && Count(descriptor, Marker(id, batch)) == 0
    ensures Count(Body(descriptor, metrics), Marker(id, batch)) == 1
  {
    var m := Marker(id, batch);
    MarkerShape(id, batch);
    CountTrimEnd(descriptor, m);
    CountTrimEnd(metrics, m);
    CountBlank(TrimEnd(metrics), '\n', m);
    CountBlank(TrimEnd(descriptor), '\n', m);
    CountSplit(TrimEnd(descriptor) + "\n", TrimEnd(metrics) + "\n", m);
  }

  lemma HeadingSection(id: string)
    requires IsTaskId(id)
    ensures var h := Heading(id) + "\n";
            && EndsLine(h) && Ids(Sections(h).1) == [id] && Sections(h).0 == ""
  {
    var line := "### [" + id + "] выполнена";
    HeadingIsHeader(id);
    assert Heading(id) == line + "\n" by { Assoc("### [" + id, "] выполнена", "\n"); }
    assert '\n' !in line by { HeadingOneLine(id); }
    assert Heading(id)[..|Heading(id)| - 1] == line;
    OneLineJoin(Heading(id), "\n");
    SectionsStep(Heading(id) + "\n");
    HeaderChomp(Heading(id));
    HeaderAppend(line, '\n');
    BlankLine();
  }

  lemma BlankLine()
    ensures Sections("\n") == ("\n", [])
  {
    BlankIsNoHeader('\n');
    assert "\n"[..1] == "\n" && "\n"[1..] == "";
    SectionsStep("\n");
  }

  lemma HeadingOneLine(id: string)
    requires IsTaskId(id)
    ensures '\n' !in "### [" + id + "] выполнена"
  {
    assert '\n' !in id by {
      forall c | c in id ensures c != '\n' {
        var k :| 0 <= k < |id| && id[k] == c;
        assert id[..2][0] == 'T' && id[..2][1] == '-';
        if k >= 2 { assert id[2..][k - 2] in id[2..]; }
      }
    }
  }

  /** The text written is one section of the task, with one metrics marker, behind blank lines at
      most. */
  lemma WrittenSection(id: string, batch: string, descriptor: string, metrics: string)
    requires IsTaskId(id) && OkBatch(batch) && OwnTextOnly(descriptor, id, batch) && OkMetrics(metrics, id, batch)
    ensures var text := SectionText(id, descriptor, metrics);
            && EndsLine(text) && |Sections(text).1| == 1 && Sections(text).1[0].id == id
            && Count(Sections(text).1[0].text, Marker(id, batch)) == 1
  {
    var m, body, text := Marker(id, batch), Body(descriptor, metrics), SectionText(id, descriptor, metrics);
    MarkerShape(id, batch);
    BodyIds(descriptor, metrics, id, batch);
    BodyCount(descriptor, metrics, id, batch);
    EndsBody(descriptor, metrics);
    if HasOwnHeader(descriptor, id) {
      assert text == body;
      OneId(Sections(text).1, id);
      LeadCount(descriptor, metrics, id, batch);
    } else {
      var h := Heading(id) + "\n";
      HeadingSection(id);
      NoSectionsBefore(h, body);
      assert Ids(Sections(text).1) == [id] + [];
      OneId(Sections(text).1, id);
      SectionsJoin(h, body);
      OneId(Sections(h).1, id);
      assert Sections(text).0 == "";
      HeadedCount(id, batch, body);
    }
    TextCount(text, m);
  }

  lemma EndsBody(descriptor: string, metrics: string)
    ensures EndsLine(Body(descriptor, metrics))
  {}

  lemma {:induction false} OneId(sections: seq<Section>, id: string)
    requires Ids(sections) == [id]
    ensures |sections| == 1 && sections[0].id == id
  {
    assert sections != [] && Ids(sections)[0] == sections[0].id && Ids(sections)[1..] == Ids(sections[1..]);
    assert Ids(sections[1..]) == [];
    assert sections[1..] == [];
  }

  lemma HeadedCount(id: string, batch: string, body: string)
    requires IsTaskId(id) && OkBatch(batch)
    ensures Count(Heading(id) + "\n" + body, Marker(id, batch)) == Count(body, Marker(id, batch))
  {
    var m, line := Marker(id, batch), "### [" + id + "] выполнена";
    MarkerShape(id, batch);
    assert Heading(id) + "\n" + body == line + "\n" + ("\n" + body);
    assert "\n" + body == "" + "\n" + body;
    CountSplit(line, "\n" + body, m);
    CountSplit("", body, m);
    assert '<' !in "### [" && '<' !in "] выполнена";
    CountAbsent(line, m);
  }

  /** What precedes the descriptor's own header has no marker. */
  lemma LeadCount(descriptor: string, metrics: string, id: string, batch: string)
    requires IsTaskId(id) && OkBatch(batch) && OwnTextOnly(descriptor, id, batch) && HasOwnHeader(descriptor, id)
    ensures Count(Sections(Body(descriptor, metrics)).0, Marker(id, batch)) == 0
  {
    var m, d := Marker(id, batch), TrimEnd(descriptor) + "\n" + "\n";
    MarkerShape(id, batch);
    SectionsJoin(d, TrimEnd(metrics) + "\n");
    TrimEndKeepsIds(descriptor);
    BlankKeepsIds(TrimEnd(descriptor), '\n');
    BlankKeepsIds(TrimEnd(descriptor) + "\n", '\n');
    OneId(Sections(d).1, id);
    PaddedCount(descriptor, m);
    TextCount(d, m);
  }

  lemma PaddedCount(s: string, m: string)
    requires m != "" && !IsWhitespace(m[|m| - 1])
    ensures Count(TrimEnd(s) + "\n" + "\n", m) == Count(s, m)
  {
    CountTrimEnd(s, m);
    CountBlank(TrimEnd(s), '\n', m);
    CountBlank(TrimEnd(s) + "\n", '\n', m);
  }

  /** The markers of a text with one section are those before the section and those in it. */
  lemma TextCount(text: string, m: string)
    requires m != "" && '\n' !in m && |Sections(text).1| == 1
    ensures Count(text, m) == Count(Sections(text).0, m) + Count(Sections(text).1[0].text, m)
  {
    LeadAndSection(text);
    CountLines(Sections(text).0, Sections(text).1[0].text, m);
  }

  lemma LeadAndSection(text: string)
    requires |Sections(text).1| == 1
    ensures var (lead, sections) := Sections(text); text == lead + sections[0].text && EndsLine(lead)
  {
    var (lead, sections) := Sections(text);
    SectionsWhole(text);
    assert sections[1..] == [] && sections[0].text + "" == sections[0].text;
    SplitSections(text, 0);
    assert sections[..0] == [] && lead + "" == lead;
  }

  /** No marker straddles the end of a line. */
  lemma CountLines(x: string, y: string, m: string)
    requires m != "" && '\n' !in m && EndsLine(x)
    ensures Count(x + y, m) == Count(x, m) + Count(y, m)
  {
    if x == "" {
      assert x + y == y;
    } else {
      var l := x[..|x| - 1];
      assert x == l + "\n" && l + "\n" + "" == x;
      CountSplit(l, y, m);
      CountSplit(l, "", m);
    }
  }

  // ---------------------------------------------------------------------------------------
  // Projecting the section into the archive
  // ---------------------------------------------------------------------------------------

  /** The sections of one task. */
  function Found(sections: seq<Section>, id: string): seq<string> {
    if sections == [] then [] else (if sections[0].id == id then [sections[0].text] else []) + Found(sections[1..], id)
  }

  function Where(sections: seq<Section>, id: string): (k: nat)
    ensures k <= |sections|
  {
    if sections == [] || sections[0].id == id then 0 else 1 + Where(sections[1..], id)
  }

  /** One section of the task, with one marker. */
  predicate Complete(done: string, id: string, batch: string) {
    var found := Found(Sections(done).1, id);
    |found| == 1 && Count(found[0], Marker(id, batch)) == 1
  }

  function Newlines(done: string): string {
    var t := if done != "" && done[|done| - 1] == '\n' then done else done + "\n";
    if |t| >= 2 && t[|t| - 2] == '\n' then t else t + "\n"
  }

  /** The archive once the section is in; `None` when the archive is refused. */
  function Projected(done: string, id: string, batch: string, section: string): Option<string> {
    var (preamble, sections) := Sections(done);
    var found := Found(sections, id);
    if |found| > 1 then None
    else if found == [] then Some(Newlines(done) + section)
    else if Count(found[0], Marker(id, batch)) > 1 then None
    else if Count(found[0], Marker(id, batch)) == 1 then Some(done)
    else
      var k := Where(sections, id);
      Some(preamble + Texts(sections[..k]) + section + Texts(sections[if k < |sections| then k + 1 else k..]))
  }

  lemma {:induction false} FoundJoin(a: seq<Section>, b: seq<Section>, id: string)
    ensures Found(a + b, id) == Found(a, id) + Found(b, id)
  {
    if a == [] {
      assert a + b == b;
    } else {
      assert (a + b)[1..] == a[1..] + b;
      FoundJoin(a[1..], b, id);
    }
  }

  lemma FoundExtend(a: seq<Section>, more: string, id: string)
    requires a != [] && Found(a, id) == []
    ensures Found(Extend(a, more), id) == []
  {
    var n := |a| - 1;
    assert a == a[..n] + [a[n]];
    FoundJoin(a[..n], [a[n]], id);
    FoundJoin(a[..n], [Section(a[n].id, a[n].text + more)], id);
  }

  lemma FoundJoined(a: (string, seq<Section>), b: (string, seq<Section>), id: string)
    requires Found(a.1, id) == []
    ensures Found(Joined(a, b).1, id) == Found(b.1, id)
  {
    if a.1 != [] {
      FoundExtend(a.1, b.0, id);
      FoundJoin(Extend(a.1, b.0), b.1, id);
    }
  }

  lemma {:induction false} FoundByIds(sections: seq<Section>, id: string)
    ensures Found(sections, id) == [] <==> id !in Ids(sections)
  {
    if sections != [] {
      FoundByIds(sections[1..], id);
      assert Ids(sections) == [sections[0].id] + Ids(sections[1..]);
    }
  }

  lemma {:induction false} WhereFound(sections: seq<Section>, id: string)
    requires |Found(sections, id)| == 1
    ensures var k := Where(sections, id);
            && k < |sections| && Found(sections, id) == [sections[k].text]
            && Found(sections[..k], id) == [] && Found(sections[k + 1..], id) == []
  {
    if sections[0].id == id {
      assert sections[..0] == [];
    } else {
      WhereFound(sections[1..], id);
      var k := Where(sections[1..], id);
      assert sections[..k + 1] == [sections[0]] + sections[1..][..k];
      assert sections[1..][k + 1..] == sections[k + 2..];
    }
  }

  /** Whatever blank lines are added, the task still has no section. */
  lemma NewlinesFind(done: string, id: string)
    requires Found(Sections(done).1, id) == []
    ensures Found(Sections(Newlines(done)).1, id) == [] && EndsLine(Newlines(done))
  {
    FoundByIds(Sections(done).1, id);
    FoundByIds(Sections(Newlines(done)).1, id);
    BlankKeepsIds(done, '\n');
    BlankKeepsIds(done + "\n", '\n');
  }

  /** Where the archive can be projected at all, the result is complete, and projecting again
      leaves it as it is. */
  lemma ProjectionCompletes(done: string, id: string, batch: string, section: string)
    requires EndsLine(section) && |Sections(section).1| == 1 && Sections(section).1[0].id == id
    requires Count(Sections(section).1[0].text, Marker(id, batch)) == 1 && Projected(done, id, batch, section).Some?
    ensures var t := Projected(done, id, batch, section).value;
            Complete(t, id, batch) && Projected(t, id, batch, section) == Some(t)
  {
    var found := Found(Sections(done).1, id);
    if found == [] {
      AppendedCompletes(done, id, section);
    } else if Count(found[0], Marker(id, batch)) == 0 {
      ReplacedCompletes(done, id, batch, section);
    }
    CompleteStays(Projected(done, id, batch, section).value, id, batch, section);
  }

  lemma CompleteStays(done: string, id: string, batch: string, section: string)
    ensures Complete(done, id, batch) ==> Projected(done, id, batch, section) == Some(done)
  {}

  lemma AppendedCompletes(done: string, id: string, section: string)
    requires |Sections(section).1| == 1 && Sections(section).1[0].id == id && Found(Sections(done).1, id) == []
    ensures Found(Sections(Newlines(done) + section).1, id) == [Sections(section).1[0].text]
  {
    NewlinesFind(done, id);
    SectionsJoin(Newlines(done), section);
    FoundJoined(Sections(Newlines(done)), Sections(section), id);
    assert Sections(section).1[1..] == [];
  }

  lemma ReplacedCompletes(done: string, id: string, batch: string, section: string)
    requires EndsLine(section) && |Sections(section).1| == 1 && Sections(section).1[0].id == id
    requires |Found(Sections(done).1, id)| == 1
    ensures var (preamble, sections) := Sections(done);
            var k := Where(sections, id);
            && k < |sections|
            && Found(Sections(preamble + Texts(sections[..k]) + section + Texts(sections[k + 1..])).1, id) == [Sections(section).1[0].text]
  {
    var (preamble, sections) := Sections(done);
    var k := Where(sections, id);
    Surroundings(done, id);
    Between(preamble + Texts(sections[..k]), section, Texts(sections[k + 1..]), sections[k + 1..], id);
  }

  /** Around the only section of a task there is none of its own. */
  lemma Surroundings(done: string, id: string)
    requires |Found(Sections(done).1, id)| == 1
    ensures var (preamble, sections) := Sections(done);
            var k := Where(sections, id);
            && k < |sections|
            && var before, after := preamble + Texts(sections[..k]), Texts(sections[k + 1..]);
            EndsLine(before) && Found(Sections(before).1, id) == [] && Sections(after) == ("", sections[k + 1..]) && Found(sections[k + 1..], id) == []
  {
    var (preamble, sections) := Sections(done);
    WhereFound(sections, id);
    SplitSections(done, Where(sections, id));
    RestSections(done, Where(sections, id) + 1);
  }

  /** One section of the task between texts without any. */
  lemma Between(before: string, section: string, after: string, more: seq<Section>, id: string)
    requires EndsLine(before) && EndsLine(section) && |Sections(section).1| == 1 && Sections(section).1[0].id == id
    requires Sections(after) == ("", more) && Found(Sections(before).1, id) == [] && Found(more, id) == []
    ensures Found(Sections(before + section + after).1, id) == [Sections(section).1[0].text]
  {
    SectionsJoin(before, section);
    FoundJoined(Sections(before), Sections(section), id);
    assert Sections(section).1[1..] == [];
    EndsLineJoin(before, section);
    SectionsJoin(before + section, after);
    FoundBehind(Sections(before + section), more, id);
  }

  lemma FoundBehind(a: (string, seq<Section>), b: seq<Section>, id: string)
    requires Found(b, id) == [] && |Found(a.1, id)| == 1
    ensures Found(Joined(a, ("", b)).1, id) == Found(a.1, id)
  {
    var n := |a.1| - 1;
    assert a.1[n].text + "" == a.1[n].text;
    assert Extend(a.1, "") == a.1;
    FoundJoin(a.1, b, id);
  }
}
