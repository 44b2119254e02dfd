/** What projecting one task into the archive (`engine/src/control.rs`) leaves of the rest of it,
    told from the archive before and the archive after. */
module ArchiveKeeps {
  import opened Text
  import opened StatusText
  import opened LineFields
  import opened QueueText
  import opened ControlPlane
  import opened ArchiveText
  import opened Archive

  // ---------------------------------------------------------------------------------------
  // Where the section lands
  // ---------------------------------------------------------------------------------------

  predicate EndsWith(s: string, t: string) { |t| <= |s| && s[|s| - |t|..] == t }

  /** What has to follow a text for an empty line to be behind it. */
  predicate MakesEmptyLine(s: string, gap: string) {
    gap == if EndsWith(s, "\n\n") then "" else if EndsWith(s, "\n") then "\n" else "\n\n"
  }

  /** The archive begins with what it was, and ends with the section, behind an empty line. */
  ghost predicate AppendedTo(done: string, t: string, section: string) {
    exists gap :: MakesEmptyLine(done, gap) && t == done + gap + section
  }

  /** Section `k` of the archive is replaced, and the text ahead of it and behind it is kept. */
  ghost predicate ReplacedIn(done: string, t: string, k: nat, section: string) {
    var (preamble, sections) := Sections(done);
    && k < |sections|
    && var before, after := preamble + Texts(sections[..k]), Texts(sections[k + 1..]);
       done == before + sections[k].text + after && t == before + section + after
  }

  /** How many sections of the task, or how many markers in the only one, decide what is done. */
  ghost predicate Lands(done: string, t: string, id: string, batch: string, section: string) {
    var found := Found(Sections(done).1, id);
    && |found| <= 1
    && (found == [] ==> AppendedTo(done, t, section))
    && (found != [] ==>
          && Count(found[0], Marker(id, batch)) <= 1
          && (Count(found[0], Marker(id, batch)) == 1 ==> t == done)
          && (Count(found[0], Marker(id, batch)) == 0 ==> exists k :: 0 <= k < |Sections(done).1| && Sections(done).1[k].id == id && ReplacedIn(done, t, k, section)))
  }

  /** The archive is refused exactly when the task has two sections or its section two markers. */
  lemma ProjectionLands(done: string, id: string, batch: string, section: string)
    ensures Projected(done, id, batch, section).None? <==>
              var found := Found(Sections(done).1, id);
              |found| > 1 || (|found| == 1 && Count(found[0], Marker(id, batch)) > 1)
    ensures Projected(done, id, batch, section).Some? ==> Lands(done, Projected(done, id, batch, section).value, id, batch, section)
  {
    var (preamble, sections) := Sections(done);
    var found := Found(sections, id);
    if found == [] {
      AppendLands(done, section);
    } else if |found| == 1 && Count(found[0], Marker(id, batch)) == 0 {
      var k := Where(sections, id);
      WhereFound(sections, id);
      WhereIs(sections, id);
      PartsOf(done, k);
      assert ReplacedIn(done, Projected(done, id, batch, section).value, k, section);
    }
  }

  lemma AppendLands(done: string, section: string)
    ensures AppendedTo(done, Newlines(done) + section, section)
  {
    var gap := if EndsWith(done, "\n\n") then "" else if EndsWith(done, "\n") then "\n" else "\n\n";
    var n := |done|;
    assert EndsWith(done, "\n") <==> n >= 1 && done[n - 1] == '\n' by {
      if n >= 1 { assert done[n - 1..] == [done[n - 1]]; }
    }
    assert EndsWith(done, "\n\n") <==> n >= 2 && done[n - 1] == '\n' && done[n - 2] == '\n' by {
      if n >= 2 { assert done[n - 2..] == [done[n - 2], done[n - 1]]; }
    }
    assert Newlines(done) == done + gap;
  }

  lemma {:induction false} WhereIs(sections: seq<Section>, id: string)
    requires Where(sections, id) < |sections|
    ensures sections[Where(sections, id)].id == id
  {
    if sections[0].id != id { WhereIs(sections[1..], id); }
  }

  lemma PartsOf(done: string, k: nat)
    requires k < |Sections(done).1|
    ensures var (preamble, sections) := Sections(done);
            done == preamble + Texts(sections[..k]) + sections[k].text + Texts(sections[k + 1..])
  {
    var (preamble, sections) := Sections(done);
    SectionsWhole(done);
    TextsAt(sections, k);
    Regroup(preamble, Texts(sections[..k]), sections[k].text, Texts(sections[k + 1..]));
  }

  lemma TextsAt(sections: seq<Section>, k: nat)
    requires k < |sections|
    ensures Texts(sections) == Texts(sections[..k]) + (sections[k].text + Texts(sections[k + 1..]))
  {
    assert sections == sections[..k] + sections[k..] && sections[k..][1..] == sections[k + 1..];
    TextsJoin(sections[..k], sections[k..]);
  }

  lemma Regroup(a: string, b: string, c: string, d: string)
    ensures a + (b + (c + d)) == a + b + c + d
  {}

  lemma {:induction false} TextsJoin(a: seq<Section>, b: seq<Section>)
    ensures Texts(a + b) == Texts(a) + Texts(b)
  {
    if a == [] {
      assert a + b == b;
    } else {
      assert (a + b)[0] == a[0] && (a + b)[1..] == a[1..] + b;
      TextsJoin(a[1..], b);
      Assoc(a[0].text, Texts(a[1..]), Texts(b));
    }
  }

  // ---------------------------------------------------------------------------------------
  // The other sections
  // ---------------------------------------------------------------------------------------

  /** `b` is `a` with nothing but blanks behind it. */
  predicate Padded(a: string, b: string) { a <= b && Blank(b[|a|..]) }

  predicate AllPadded(a: seq<string>, b: seq<string>) { |a| == |b| && forall i | 0 <= i < |a| :: Padded(a[i], b[i]) }

  /** The preamble and the sections of every other task are what they were, in their order, but for
      blanks at the end. */
  ghost predicate KeepsOthers(done: string, t: string, id: string) {
    && Padded(Sections(done).0, Sections(t).0)
    && forall other | other != id :: AllPadded(Found(Sections(done).1, other), Found(Sections(t).1, other))
  }

  type Sectioned = (string, seq<Section>)

  predicate Pads(a: Sectioned, b: Sectioned) {
    && Padded(a.0, b.0) && |a.1| == |b.1|
    && forall i | 0 <= i < |a.1| :: a.1[i].id == b.1[i].id && Padded(a.1[i].text, b.1[i].text)
  }

  lemma PaddedTwice(a: string, b: string, c: string)
    requires Padded(a, b) && Padded(b, c)
    ensures Padded(a, c)
  {
    assert c[|a|..] == b[|a|..] + c[|b|..];
  }

  lemma PadsTwice(a: Sectioned, b: Sectioned, c: Sectioned)
    requires Pads(a, b) && Pads(b, c)
    ensures Pads(a, c)
  {
    PaddedTwice(a.0, b.0, c.0);
    forall i | 0 <= i < |a.1| ensures Padded(a.1[i].text, c.1[i].text) { PaddedTwice(a.1[i].text, b.1[i].text, c.1[i].text); }
  }

  lemma BlankPads(a: Sectioned, blank: string)
    requires Blank(blank)
    ensures Pads(a, Joined(a, (blank, [])))
  {
    if a.1 != [] {
      var n := |a.1| - 1;
      assert Padded(a.1[n].text, a.1[n].text + blank) by { assert (a.1[n].text + blank)[|a.1[n].text|..] == blank; }
      assert forall i | 0 <= i < n :: Extend(a.1, blank)[i] == a.1[i];
      assert a.0[|a.0|..] == "" && forall i | 0 <= i < n :: a.1[i].text[|a.1[i].text|..] == "";
    } else {
      assert (a.0 + blank)[|a.0|..] == blank;
    }
  }

  /** A blank behind a text goes to its last section. */
  lemma {:induction false} BlankBehindText(s: string, c: char)
    requires IsWhitespace(c)
    ensures Sections(s + [c]) == Joined(Sections(s), ([c], []))
    decreases |s|
  {
    if s == "" {
      assert s + [c] == [c];
      OneBlank(c);
    } else {
      var (line, rest) := TakeLine(s);
      SectionsStep(s);
      SectionsStep(s + [c]);
      JoinedStep(line, Sections(rest), ([c], []));
      if EndsLine(line) {
        BlankBehindLine(s, c);
        BlankBehindText(rest, c);
      } else {
        LastLine(s, c);
        LongerLine(s, c);
      }
    }
  }

  lemma OneBlank(c: char)
    requires IsWhitespace(c)
    ensures Sections([c]) == Joined(("", []), ([c], []))
  {
    assert [c][..1] == [c] && [c][1..] == "";
    BlankIsNoHeader(c);
    SectionsStep([c]);
    assert "" + [c] == [c] && [c] + "" == [c];
  }

  lemma BlankBehindLine(s: string, c: char)
    requires s != "" && EndsLine(TakeLine(s).0)
    ensures TakeLine(s + [c]) == (TakeLine(s).0, TakeLine(s).1 + [c])
  {
    var (line, rest) := TakeLine(s);
    OneBreak(s);
    OneLineJoin(line, rest + [c]);
    assert s + [c] == line + (rest + [c]);
  }

  lemma LongerLine(line: string, c: char)
    requires IsWhitespace(c)
    ensures WithLine(line + [c], ("", [])) == WithLine(line, Joined(("", []), ([c], [])))
  {
    HeaderChomp(line);
    HeaderChomp(line + [c]);
    HeaderAppend(line, c);
    assert "" + [c] == [c] && line + [c] + "" == line + [c];
  }

  lemma NewlinesPad(done: string)
    ensures Pads(Sections(done), Sections(Newlines(done)))
  {
    assert Blank("\n") && Blank("");
    BlankBehindText(done, '\n');
    BlankBehindText(done + "\n", '\n');
    BlankPads(Sections(done), "\n");
    BlankPads(Sections(done + "\n"), "\n");
    PadsTwice(Sections(done), Sections(done + "\n"), Sections(done + "\n" + "\n"));
    BlankPads(Sections(done), "");
    PadsSelf(Sections(done));
  }

  lemma PadsSelf(a: Sectioned)
    ensures Pads(a, a)
  {
    assert a.0[|a.0|..] == "" && forall i | 0 <= i < |a.1| :: a.1[i].text[|a.1[i].text|..] == "";
  }

  /** What stands ahead of the first section of one text goes to the end of the other. */
  lemma JoinedInTwo(a: Sectioned, lead: string, more: seq<Section>)
    ensures Joined(a, (lead, more)) == (Joined(a, (lead, [])).0, Joined(a, (lead, [])).1 + more)
  {
    if a.1 != [] { assert Extend(a.1, lead) + [] == Extend(a.1, lead); } else { assert [] + more == more; }
  }

  predicate SamePads(a: seq<Section>, b: seq<Section>) { Pads(("", a), ("", b)) }

  lemma {:induction false} FoundPads(a: seq<Section>, b: seq<Section>, id: string)
    requires SamePads(a, b)
    ensures AllPadded(Found(a, id), Found(b, id)) && Ids(a) == Ids(b)
  {
    if a != [] {
      assert a == [a[0]] + a[1..] && b == [b[0]] + b[1..];
      assert SamePads(a[1..], b[1..]) by {
        forall i | 0 <= i < |a[1..]| ensures a[1..][i].id == b[1..][i].id && Padded(a[1..][i].text, b[1..][i].text) {
          assert a[1..][i] == a[i + 1] && b[1..][i] == b[i + 1];
        }
      }
      FoundPads(a[1..], b[1..], id);
    }
  }

  lemma PaddedSelf(a: seq<string>)
    ensures AllPadded(a, a)
  {
    assert forall i | 0 <= i < |a| :: a[i][|a[i]|..] == "";
  }

  lemma PaddedJoin(a: seq<string>, b: seq<string>, c: seq<string>)
    requires AllPadded(a, b)
    ensures AllPadded(a + c, b + c)
  {
    PaddedSelf(c);
  }

  /** Appending a section keeps the rest of the archive, and puts the section behind it. */
  lemma AppendKeeps(done: string, id: string, section: string)
    requires |Sections(section).1| == 1 && Sections(section).1[0].id == id && Blank(Sections(section).0)
    requires Found(Sections(done).1, id) == []
    ensures KeepsOthers(done, Newlines(done) + section, id)
    ensures Ids(Sections(Newlines(done) + section).1) == Ids(Sections(done).1) + [id]
  {
    var (lead, own) := Sections(section);
    var before := Sections(Newlines(done));
    var x := Joined(before, (lead, []));
    assert own == [own[0]];
    NewlinesFind(done, id);
    SectionsJoin(Newlines(done), section);
    JoinedInTwo(before, lead, own);
    NewlinesPad(done);
    BlankPads(before, lead);
    PadsTwice(Sections(done), before, x);
    forall other | other != id
      ensures AllPadded(Found(Sections(done).1, other), Found(x.1 + own, other))
    {
      FoundPads(Sections(done).1, x.1, other);
      FoundJoin(x.1, own, other);
      FoundOwn(own[0], other);
    }
    FoundPads(Sections(done).1, x.1, id);
    IdsJoin(x.1, own);
    OwnId(own[0]);
  }

  lemma FoundOwn(section: Section, other: string)
    ensures Found([section], other) == if section.id == other then [section.text] else []
  {
    assert [section][1..] == [];
  }

  lemma OwnId(section: Section)
    ensures Ids([section]) == [section.id]
  {
    assert [section][1..] == [];
  }

  /** The sections once section `k` is replaced: those ahead of it, perhaps with more blanks, the new
      one and those behind. */
  lemma ReplacedSections(done: string, section: string, k: nat) returns (x: Sectioned)
    requires EndsLine(section) && |Sections(section).1| == 1 && Blank(Sections(section).0) && k < |Sections(done).1|
    ensures var (preamble, sections) := Sections(done);
            && Pads((preamble, sections[..k]), x)
            && Sections(preamble + Texts(sections[..k]) + section + Texts(sections[k + 1..])) ==
                 (x.0, x.1 + Sections(section).1 + sections[k + 1..])
  {
    var (preamble, sections) := Sections(done);
    var head := preamble + Texts(sections[..k]);
    x := Joined((preamble, sections[..k]), (Sections(section).0, []));
    SplitSections(done, k);
    RestSections(done, k + 1);
    SplicedFirst(head, section, (preamble, sections[..k]));
    EndsLineJoin(head, section);
    SplicedSecond(head + section, Texts(sections[k + 1..]), (x.0, x.1 + Sections(section).1), sections[k + 1..]);
    BlankPads((preamble, sections[..k]), Sections(section).0);
  }

  lemma KeptAround(done: string, t: string, a: seq<Section>, former: Section, b: seq<Section>, latter: Section, more: seq<Section>)
    requires Sections(done).1 == a + [former] + more && Sections(t).1 == b + [latter] + more && former.id == latter.id
    requires Pads((Sections(done).0, a), (Sections(t).0, b))
    ensures KeepsOthers(done, t, former.id) && Ids(Sections(t).1) == Ids(Sections(done).1)
  {
    assert SamePads(a, b);
    forall other | other != former.id
      ensures AllPadded(Found(Sections(done).1, other), Found(Sections(t).1, other))
    {
      FoundReplaced(a, former, b, latter, more, other);
    }
    FoundReplaced(a, former, b, latter, more, OtherId(former.id));
  }

  lemma SplitAround(sections: seq<Section>, k: nat)
    requires k < |sections|
    ensures sections == sections[..k] + [sections[k]] + sections[k + 1..]
  {}

  /** Replacing the only section of a task keeps the rest of the archive in its order. */
  lemma ReplaceKeeps(done: string, id: string, section: string, k: nat)
    requires EndsLine(section) && |Sections(section).1| == 1 && Sections(section).1[0].id == id && Blank(Sections(section).0)
    requires k < |Sections(done).1| && Sections(done).1[k].id == id
    ensures var (preamble, sections) := Sections(done);
            var t := preamble + Texts(sections[..k]) + section + Texts(sections[k + 1..]);
            KeepsOthers(done, t, id) && Ids(Sections(t).1) == Ids(sections)
  {
    var sections, own := Sections(done).1, Sections(section).1;
    var t := Sections(done).0 + Texts(sections[..k]) + section + Texts(sections[k + 1..]);
    var x := ReplacedSections(done, section, k);
    assert own == [own[0]];
    SplitAround(sections, k);
    KeptAround(done, t, sections[..k], sections[k], x.1, own[0], sections[k + 1..]);
  }

  /** One section for another of the same task. */
  lemma FoundReplaced(a: seq<Section>, former: Section, b: seq<Section>, latter: Section, more: seq<Section>, other: string)
    requires SamePads(a, b) && former.id == latter.id && other != former.id
    ensures AllPadded(Found(a + [former] + more, other), Found(b + [latter] + more, other))
    ensures Ids(a + [former] + more) == Ids(b + [latter] + more)
  {
    FoundPads(a, b, other);
    FoundAround(a, former, more, other);
    FoundAround(b, latter, more, other);
    PaddedJoin(Found(a, other), Found(b, other), Found(more, other));
  }

  lemma FoundAround(a: seq<Section>, section: Section, b: seq<Section>, other: string)
    requires section.id != other
    ensures Found(a + [section] + b, other) == Found(a, other) + Found(b, other)
    ensures Ids(a + [section] + b) == Ids(a) + [section.id] + Ids(b)
  {
    FoundJoin(a + [section], b, other);
    FoundJoin(a, [section], other);
    FoundOwn(section, other);
    IdsJoin(a + [section], b);
    IdsJoin(a, [section]);
    OwnId(section);
  }

  /** The sections of a text with one section behind it. */
  lemma SplicedFirst(x: string, section: string, before: Sectioned)
    requires EndsLine(x) && |Sections(section).1| == 1 && Sections(x) == before
    ensures var padded := Joined(before, (Sections(section).0, []));
            Sections(x + section) == (padded.0, padded.1 + Sections(section).1)
  {
    SectionsJoin(x, section);
    JoinedInTwo(before, Sections(section).0, Sections(section).1);
  }

  /** The sections of a text that has some, with more behind it. */
  lemma SplicedSecond(x: string, y: string, before: Sectioned, more: seq<Section>)
    requires EndsLine(x) && Sections(x) == before && before.1 != [] && Sections(y) == ("", more)
    ensures Sections(x + y) == (before.0, before.1 + more)
  {
    SectionsJoin(x, y);
    NothingAdded(before.1);
  }

  lemma NothingAdded(sections: seq<Section>)
    requires sections != []
    ensures Extend(sections, "") == sections
  {
    var n := |sections| - 1;
    assert sections[n].text + "" == sections[n].text;
  }

  /** A projection keeps the preamble and the sections of every other task, in their order; the
      section of the task keeps its place, or is the last. */
  lemma ProjectionKeeps(done: string, id: string, batch: string, section: string)
    requires EndsLine(section) && |Sections(section).1| == 1 && Sections(section).1[0].id == id && Blank(Sections(section).0)
    requires Projected(done, id, batch, section).Some?
    ensures var t := Projected(done, id, batch, section).value;
            && KeepsOthers(done, t, id)
            && Ids(Sections(t).1) == Ids(Sections(done).1) + if Found(Sections(done).1, id) == [] then [id] else []
  {
    var found := Found(Sections(done).1, id);
    if found == [] {
      AppendKeeps(done, id, section);
    } else if Count(found[0], Marker(id, batch)) == 0 {
      WhereFound(Sections(done).1, id);
      WhereIs(Sections(done).1, id);
      ReplaceKeeps(done, id, section, Where(Sections(done).1, id));
    } else {
      PadsSelf(Sections(done));
      forall other | other != id ensures AllPadded(Found(Sections(done).1, other), Found(Sections(done).1, other)) {
        PaddedSelf(Found(Sections(done).1, other));
      }
    }
  }

  // ---------------------------------------------------------------------------------------
  // What the section holds
  // ---------------------------------------------------------------------------------------

  /** The text holds a heading, unless the descriptor has its own, then the descriptor, an empty line
      and the metrics; nothing of them is left out but blanks at the end. */
  predicate HoldsTask(text: string, id: string, descriptor: string, metrics: string) {
    text == (if HasOwnHeader(descriptor, id) then "" else "### [" + id + "] выполнена\n\n")
            + (TrimEnd(descriptor) + "\n\n" + TrimEnd(metrics) + "\n")
  }

  /** The section itself, which begins with its header. */
  ghost predicate SectionHolds(text: string, id: string, descriptor: string, metrics: string) {
    exists lead :: Blank(lead) && HoldsTask(lead + text, id, descriptor, metrics)
  }

  lemma TextHolds(id: string, descriptor: string, metrics: string)
    ensures HoldsTask(SectionText(id, descriptor, metrics), id, descriptor, metrics)
  {
    assert TrimEnd(descriptor) + "\n" + "\n" + (TrimEnd(metrics) + "\n") == TrimEnd(descriptor) + "\n\n" + TrimEnd(metrics) + "\n";
    assert Heading(id) + "\n" == "### [" + id + "] выполнена\n\n";
  }

  lemma {:induction false} BlankTrims(s: string)
    requires Trim(s) == ""
    ensures Blank(s)
  {
    if s != "" {
      if IsWhitespace(s[0]) {
        BlankTrims(s[1..]);
        assert s == [s[0]] + s[1..];
      } else {
        TrimEndVisible(s);
      }
    }
  }

  lemma {:induction false} BlankStarts(s: string)
    requires Blank(s)
    ensures TrimStart(s) == ""
  {
    if s != "" {
      assert s[0] in s;
      BlankStarts(s[1..]);
    }
  }

  /** Ahead of the header of a descriptor that has its own there are only blanks. */
  lemma {:induction false} OwnHeaderLead(s: string)
    requires FirstVisibleLine(Lines(s)).Some? && ArchiveHeader(FirstVisibleLine(Lines(s)).value).Some?
    ensures Blank(Sections(s).0) && Sections(s).1 != []
    decreases |s|
  {
    var (first, more, ended) := FirstLine(s);
    FirstIsTaken(s);
    LinesStep(s);
    var line, shown := TakeLine(s).0, Archive.Shown(first, ended);
    ShownHeader(first, ended);
    SectionsStep(s);
    if Trim(shown) == "" {
      BlankTrims(shown);
      BlankStarts(shown);
      assert Lines(s)[1..] == Lines(more);
      OwnHeaderLead(more);
      LineBlank(first, ended);
    }
  }

  lemma LineBlank(first: string, ended: bool)
    requires Blank(Archive.Shown(first, ended))
    ensures Blank(if ended then first + "\n" else first)
  {
    if ended && StripCr(first) != first { assert first == StripCr(first) + ['\r']; }
  }

  lemma {:induction false} LeadStays(s: string)
    requires Sections(s).1 != []
    ensures Sections(TrimEnd(s)).0 == Sections(s).0
    decreases |s|
  {
    if s != "" && IsWhitespace(s[|s| - 1]) {
      var init := s[..|s| - 1];
      assert s == init + [s[|s| - 1]];
      BlankBehindText(init, s[|s| - 1]);
      LeadStays(init);
    }
  }

  lemma BodyLead(d: string, rest: string)
    requires Sections(d).1 != []
    ensures Sections(d + "\n" + "\n" + rest).0 == Sections(d).0
  {
    BlankBehindText(d, '\n');
    BlankBehindText(d + "\n", '\n');
    SectionsJoin(d + "\n" + "\n", rest);
  }

  /** The section that is written begins with its header but for blank lines. */
  lemma WrittenLead(id: string, batch: string, descriptor: string, metrics: string)
    requires IsTaskId(id) && OkBatch(batch) && OwnTextOnly(descriptor, id, batch) && OkMetrics(metrics, id, batch)
    ensures Blank(Sections(SectionText(id, descriptor, metrics)).0)
  {
    var body := Body(descriptor, metrics);
    if HasOwnHeader(descriptor, id) {
      OwnHeaderLead(descriptor);
      LeadStays(descriptor);
      TrimEndKeepsIds(descriptor);
      BodyLead(TrimEnd(descriptor), TrimEnd(metrics) + "\n");
      assert SectionText(id, descriptor, metrics) == body;
    } else {
      HeadingSection(id);
      SectionsJoin(Heading(id) + "\n", body);
      OneId(Sections(Heading(id) + "\n").1, id);
    }
  }

  /** The section that is read back of what was written holds the task. */
  lemma WrittenHolds(id: string, batch: string, descriptor: string, metrics: string)
    requires IsTaskId(id) && OkBatch(batch) && OwnTextOnly(descriptor, id, batch) && OkMetrics(metrics, id, batch)
    ensures var section := SectionText(id, descriptor, metrics);
            |Sections(section).1| == 1 && SectionHolds(Sections(section).1[0].text, id, descriptor, metrics)
  {
    var section := SectionText(id, descriptor, metrics);
    WrittenSection(id, batch, descriptor, metrics);
    WrittenLead(id, batch, descriptor, metrics);
    LeadAndSection(section);
    TextHolds(id, descriptor, metrics);
    assert HoldsTask(Sections(section).0 + Sections(section).1[0].text, id, descriptor, metrics);
  }

  // ---------------------------------------------------------------------------------------
  // All of it together
  // ---------------------------------------------------------------------------------------

  /** The archive after a task was put into it: it holds the task, and all that it held. */
  ghost predicate ArchivedInto(done: string, t: string, id: string, batch: string, descriptor: string, metrics: string) {
    && KeepsOthers(done, t, id)
    && Ids(Sections(t).1) == Ids(Sections(done).1) + (if Found(Sections(done).1, id) == [] then [id] else [])
    && Complete(t, id, batch)
    && if Complete(done, id, batch) then t == done else SectionHolds(Found(Sections(t).1, id)[0], id, descriptor, metrics)
  }

  lemma ProjectionArchives(done: string, id: string, batch: string, descriptor: string, metrics: string)
    requires IsTaskId(id) && OkBatch(batch) && OwnTextOnly(descriptor, id, batch) && OkMetrics(metrics, id, batch)
    requires Projected(done, id, batch, SectionText(id, descriptor, metrics)).Some?
    ensures ArchivedInto(done, Projected(done, id, batch, SectionText(id, descriptor, metrics)).value, id, batch, descriptor, metrics)
  {
    var section := SectionText(id, descriptor, metrics);
    WrittenSection(id, batch, descriptor, metrics);
    WrittenLead(id, batch, descriptor, metrics);
    WrittenHolds(id, batch, descriptor, metrics);
    ProjectionKeeps(done, id, batch, section);
    ProjectionCompletes(done, id, batch, section);
    ProjectionOwn(done, id, batch, section);
  }

  /** The section of the task is the one written, unless the old one was complete. */
  lemma ProjectionOwn(done: string, id: string, batch: string, section: string)
    requires EndsLine(section) && |Sections(section).1| == 1 && Sections(section).1[0].id == id
    requires Projected(done, id, batch, section).Some?
    ensures var t := Projected(done, id, batch, section).value;
            if Complete(done, id, batch) then t == done else Found(Sections(t).1, id) == [Sections(section).1[0].text]
  {
    var found := Found(Sections(done).1, id);
    if found == [] {
      AppendedCompletes(done, id, section);
    } else if Count(found[0], Marker(id, batch)) == 0 {
      ReplacedCompletes(done, id, batch, section);
    }
  }
}
