/** What a patch of a descriptor (`engine/src/control.rs`) does to every field of it, read from the
    text before and the text after: a field that is given reads back as its value, and any other
    reads as it did. A value of several lines may bring along a line of another field, and an
    indented line may shadow the one that is written; both are named as conditions on the patch and
    the old text. */
module PatchFields {
  import opened Text
  import opened StatusText
  import opened LineFields
  import opened QueueText
  import opened ControlPlane

  const NAMES := [STATUS, BATCH, BRANCH, WORKTREE, WAVE, AUTHORS, RISK, REVIEW_SHA, REVIEW_CYCLES, REASON]

  /** The value a patch gives a field of a descriptor. */
  function Given(text: string, patch: Patch, field: string): Option<string> {
    if field == STATUS then Some(Literal(patch.state))
    else if field == BATCH then patch.batch
    else if field == BRANCH then patch.branch
    else if field == WORKTREE then patch.worktree
    else if field == WAVE then (match patch.wave case Some(n) => Some(PrintNat(n)) case None => None)
    else if field == AUTHORS then (match patch.author case Some(a) => Some(WithAuthor(text, a)) case None => None)
    else if field == RISK then
      if patch.risk.Some? && patch.risk != DescriptorRisk(text) then Some(ElevatedRisk(patch.risk.value, DescriptorRisk(text))) else None
    else if field == REVIEW_SHA then patch.reviewSha
    else if field == REVIEW_CYCLES then (match patch.reviewCycles case Some(n) => Some(PrintNat(n)) case None => None)
    else if field == REASON then (match patch.reason case Some(r) => Some(SanitizeReason(r)) case None => None)
    else None
  }

  /** The field reads as the first line of the value it was given, unless an indented line of it
      comes first; one that was given none reads as it did. */
  predicate ReadsAs(text: string, after: string, field: string, given: Option<string>) {
    LineField(after, field) ==
      if given.None? || Shadowed(Lines(text), field) then LineField(text, field) else Some(Trim(FirstLine(given.value).0))
  }

  /** A field of a descriptor, or one of the fields the patch knows nothing of. */
  predicate IsField(field: string) {
    IsKey(field) && '\r' !in field && (field in NAMES || forall name | name in NAMES :: Apart(name, field))
  }

  lemma Heads(a: string)
    requires a in NAMES
    ensures |a| > 2 && IsKey(a) && '\n' !in a && '\r' !in a
  {}

  /** No field name starts with another. */
  lemma NamesDiffer(a: string, b: string)
    requires a in NAMES && b in NAMES && a != b
    ensures Apart(a, b)
  {
    Heads(a);
    Heads(b);
    if a[0] != b[0] { Differ(a, b, 0); } else if a[1] != b[1] { Differ(a, b, 1); } else { Differ(a, b, 2); }
  }

  lemma NamesDistinct()
    ensures forall i, j | 0 <= i < j < |NAMES| :: NAMES[i] != NAMES[j]
  {}

  lemma FieldApart(name: string, field: string)
    requires name in NAMES && IsField(field) && name != field
    ensures Apart(name, field) && IsKey(name) && '\n' !in name
  {
    Heads(name);
    if field in NAMES { NamesDiffer(name, field); }
  }

  // ---------------------------------------------------------------------------------------
  // One field at a time
  // ---------------------------------------------------------------------------------------

  /** What the first `n` fields of a patch give to a field. */
  function GivenBy(text: string, patch: Patch, field: string, n: nat): Option<string>
    requires n <= |NAMES|
  {
    if field in NAMES[..n] then Given(text, patch, field) else None
  }

  /** After the first `n` fields of a patch: the field reads as given so far, and is shadowed as it was. */
  predicate SoFar(text: string, t: string, patch: Patch, field: string, n: nat)
    requires n <= |NAMES|
  {
    && ReadsAs(text, t, field, GivenBy(text, patch, field, n))
    && (GivenBy(text, patch, field, n) == None ==> (Shadowed(Lines(t), field) <==> Shadowed(Lines(text), field)))
  }

  lemma MoreGiven(text: string, patch: Patch, field: string, n: nat)
    requires n < |NAMES|
    ensures GivenBy(text, patch, field, n + 1) == if field == NAMES[n] then Given(text, patch, field) else GivenBy(text, patch, field, n)
    ensures field == NAMES[n] ==> GivenBy(text, patch, field, n) == None
  {
    NamesDistinct();
    assert NAMES[..n + 1] == NAMES[..n] + [NAMES[n]];
  }

  /** The next field, if it is given. */
  lemma Step(text: string, t: string, patch: Patch, field: string, n: nat, name: string)
    requires n < |NAMES| && name == NAMES[n] && IsField(field) && SoFar(text, t, patch, field, n)
    requires Silent(Given(text, patch, name), field)
    ensures SoFar(text, SetOptional(t, name, Given(text, patch, name)), patch, field, n + 1)
  {
    MoreGiven(text, patch, field, n);
    Heads(name);
    if Given(text, patch, name).Some? {
      var value := Given(text, patch, name).value;
      SetReads(t, name, value, field);
      if name != field {
        FieldApart(name, field);
        ShadowStays(t, name, value, field);
      }
    }
  }

  /** What is given to each field, and that none of the values written by the engine itself has a
      line of another field. */
  lemma GivenNames(text: string, patch: Patch, field: string)
    requires SilentNames(patch, field)
    ensures Given(text, patch, STATUS) == Some(Literal(patch.state)) && Given(text, patch, BATCH) == patch.batch
    ensures Given(text, patch, BRANCH) == patch.branch && Given(text, patch, WORKTREE) == patch.worktree
    ensures Silent(Given(text, patch, STATUS), field)
  {
    LiteralChars(patch.state);
    OneLineBrings(Literal(patch.state));
  }

  lemma GivenMiddle(text: string, patch: Patch, field: string)
    requires SilentNames(patch, field)
    ensures Given(text, patch, WAVE) == Printed(patch.wave) && Silent(Given(text, patch, WAVE), field)
    ensures Given(text, patch, AUTHORS) == AuthorsGiven(text, patch)
    ensures Silent(Given(text, patch, AUTHORS), field)
  {
    PrintedOneLine(patch.wave);
    OneLineSilent(Printed(patch.wave), field);
    if patch.author.Some? { AuthorContinues(text, patch.author.value); }
  }

  function RiskGiven(text: string, patch: Patch): Option<string> {
    if patch.risk.Some? && patch.risk != DescriptorRisk(text) then Some(ElevatedRisk(patch.risk.value, DescriptorRisk(text))) else None
  }

  lemma GivenRisk(text: string, patch: Patch, field: string)
    ensures Given(text, patch, RISK) == RiskGiven(text, patch) && Silent(RiskGiven(text, patch), field)
  {
    if RiskGiven(text, patch).Some? {
      ElevatedReads(patch.risk.value, DescriptorRisk(text));
      OneLineSilent(RiskGiven(text, patch), field);
    }
  }

  lemma GivenTail(text: string, patch: Patch, field: string)
    requires patch.reviewSha.Some? ==> OkRef(patch.reviewSha.value)
    ensures Given(text, patch, REVIEW_SHA) == patch.reviewSha && Silent(patch.reviewSha, field)
    ensures Given(text, patch, REVIEW_CYCLES) == Printed(patch.reviewCycles) && Silent(Printed(patch.reviewCycles), field)
    ensures var reason := match patch.reason case Some(r) => Some(SanitizeReason(r)) case None => None;
            Given(text, patch, REASON) == reason && Silent(reason, field)
  {
    OneLineSilent(patch.reviewSha, field);
    PrintedOneLine(patch.reviewCycles);
    OneLineSilent(Printed(patch.reviewCycles), field);
    if patch.reason.Some? {
      CompactChars(patch.reason.value);
      OneLineSilent(Some(SanitizeReason(patch.reason.value)), field);
    }
  }

  /** The text with the first `n` fields of the patch set. */
  function Written(text: string, patch: Patch, n: nat): string
    requires n <= |NAMES|
  {
    if n == 0 then text else SetOptional(Written(text, patch, n - 1), NAMES[n - 1], Given(text, patch, NAMES[n - 1]))
  }

  lemma {:induction false} WrittenReads(text: string, patch: Patch, field: string, n: nat)
    requires n <= |NAMES| && IsField(field) && forall name | name in NAMES :: Silent(Given(text, patch, name), field)
    ensures SoFar(text, Written(text, patch, n), patch, field, n)
  {
    if n > 0 {
      WrittenReads(text, patch, field, n - 1);
      Step(text, Written(text, patch, n - 1), patch, field, n - 1, NAMES[n - 1]);
    }
  }

  lemma GivenSilent(text: string, patch: Patch, field: string)
    requires SilentNames(patch, field) && (patch.reviewSha.Some? ==> OkRef(patch.reviewSha.value))
    ensures forall name | name in NAMES :: Silent(Given(text, patch, name), field)
  {
    GivenNames(text, patch, field);
    GivenMiddle(text, patch, field);
    GivenRisk(text, patch, field);
    GivenTail(text, patch, field);
  }

  function AuthorsGiven(text: string, patch: Patch): Option<string> {
    match patch.author case Some(a) => Some(WithAuthor(text, a)) case None => None
  }

  lemma NamesWritten(text: string, patch: Patch)
    ensures Written(text, patch, 4) == Names(SetLineField(text, STATUS, Literal(patch.state)), patch)
  {
    assert Written(text, patch, 0) == text;
    assert Written(text, patch, 1) == SetOptional(text, STATUS, Given(text, patch, STATUS));
    assert Written(text, patch, 2) == SetOptional(Written(text, patch, 1), BATCH, Given(text, patch, BATCH));
    assert Written(text, patch, 3) == SetOptional(Written(text, patch, 2), BRANCH, Given(text, patch, BRANCH));
    assert Written(text, patch, 4) == SetOptional(Written(text, patch, 3), WORKTREE, Given(text, patch, WORKTREE));
  }

  lemma RiskWritten(text: string, patch: Patch)
    ensures Written(text, patch, 7) ==
            SetOptional(Middle(text, SetLineField(text, STATUS, Literal(patch.state)), patch), RISK, RiskGiven(text, patch))
  {
    NamesWritten(text, patch);
    assert Written(text, patch, 5) == SetOptional(Written(text, patch, 4), WAVE, Given(text, patch, WAVE));
    assert Written(text, patch, 6) == SetOptional(Written(text, patch, 5), AUTHORS, Given(text, patch, AUTHORS));
    assert Written(text, patch, 7) == SetOptional(Written(text, patch, 6), RISK, Given(text, patch, RISK));
  }

  lemma TailWritten(text: string, patch: Patch)
    ensures Written(text, patch, 10) == Tail(Written(text, patch, 7), patch)
  {
    assert Written(text, patch, 8) == SetOptional(Written(text, patch, 7), REVIEW_SHA, Given(text, patch, REVIEW_SHA));
    assert Written(text, patch, 9) == SetOptional(Written(text, patch, 8), REVIEW_CYCLES, Given(text, patch, REVIEW_CYCLES));
    assert Written(text, patch, 10) == SetOptional(Written(text, patch, 9), REASON, Given(text, patch, REASON));
  }

  lemma GivenAll(text: string, patch: Patch, field: string)
    ensures GivenBy(text, patch, field, 10) == Given(text, patch, field)
  {
    assert NAMES[..10] == NAMES;
  }

  /** After an accepted patch every field that it gives reads back as its value, unless an indented
      line shadows it, and every other field, known or not, reads as it did: for a field that no
      name in the patch has a further line of, as is the case for all fields if the names are of
      one line. */
  lemma PatchGives(text: string, patch: Patch, field: string)
    requires Patched(text, patch).Some? && IsField(field) && SilentNames(patch, field)
    ensures ReadsAs(text, Patched(text, patch).value, field, Given(text, patch, field))
  {
    RiskWritten(text, patch);
    TailWritten(text, patch);
    GivenSilent(text, patch, field);
    WrittenReads(text, patch, field, 10);
    GivenAll(text, patch, field);
  }

  /** The fields of a descriptor after a patch, as `PatchGives` has them. */
  ghost predicate Carries(text: string, after: string, patch: Patch) {
    forall field | IsField(field) && SilentNames(patch, field) :: ReadsAs(text, after, field, Given(text, patch, field))
  }

  lemma PatchCarries(text: string, patch: Patch)
    requires Patched(text, patch).Some?
    ensures Carries(text, Patched(text, patch).value, patch)
  {
    forall field | IsField(field) && SilentNames(patch, field)
      ensures ReadsAs(text, Patched(text, patch).value, field, Given(text, patch, field))
    {
      PatchGives(text, patch, field);
    }
  }

  // ---------------------------------------------------------------------------------------
  // Which patches are accepted
  // ---------------------------------------------------------------------------------------

  /** How far a task has come on its way; the two states beside the way have no place on it. */
  function Place(state: TaskState): Option<nat> {
    match state
    case NotStarted => Some(0)
    case Working => Some(1)
    case InReview => Some(2)
    case Ready => Some(3)
    case Merged => Some(4)
    case Published => Some(5)
    case Done => Some(6)
    case Escalated | Conflict => None
  }

  predicate Captured(state: TaskState) { Place(state).Some? && 1 <= Place(state).value <= 4 }

  /** A task goes one step on its way, or from review back to work; it may leave the way while it is
      captured, for a conflict not out of review; from a conflict it starts again. */
  lemma Lifecycle(from: TaskState, to: TaskState)
    ensures ValidTransition(from, to) <==>
              || (Place(from).Some? && Place(to).Some? && Place(to).value == Place(from).value + 1)
              || (from == InReview && to == Working)
              || (Captured(from) && (to == Escalated || (to == Conflict && from != InReview)))
              || (from == Conflict && to == NotStarted)
  {}

  /** A patch is accepted exactly when the state that is read stays or may change so, the risk that
      is read does not fall, and the commit it names is a reference. */
  lemma PatchAccepted(text: string, patch: Patch)
    ensures Patched(text, patch).Some? <==>
              && (forall s | DescriptorState(text) == Some(s) :: s == patch.state || ValidTransition(s, patch.state))
              && (forall r, q | DescriptorRisk(text) == Some(r) && patch.risk == Some(q) :: Rank(r) <= Rank(q))
              && (forall sha | patch.reviewSha == Some(sha) :: OkRef(sha))
  {}

  // ---------------------------------------------------------------------------------------
  // The authors
  // ---------------------------------------------------------------------------------------

  /** The authors a descriptor names. */
  function AuthorsOf(text: string): seq<string> { AuthorsIn(LineField(text, AUTHORS)) }

  function AuthorsIn(field: Option<string>): seq<string> {
    match field case Some(v) => Authors(Split(v, ',')) case None => []
  }

  lemma {:induction false} AuthorsJoin(a: seq<string>, b: seq<string>)
    ensures Authors(a + b) == Authors(a) + Authors(b)
  {
    if a == [] {
      assert a + b == b;
    } else {
      assert (a + b)[0] == a[0] && (a + b)[1..] == a[1..] + b;
      AuthorsJoin(a[1..], b);
    }
  }

  lemma OneAuthor(name: string)
    ensures Authors([name]) == if Trim(name) == "" then [] else [Trim(name)]
  {
    assert [name][1..] == [];
  }

  /** A name as it is listed: trimmed, with a letter, and without a comma. */
  predicate IsAuthor(name: string) { name != "" && Trim(name) == name && ',' !in name }

  lemma {:induction false} SplitCommas(s: string)
    ensures forall p | p in Split(s, ',') :: ',' !in p
  {
    if s != "" { SplitCommas(s[1..]); }
  }

  lemma {:induction false} AuthorsAre(parts: seq<string>)
    requires forall p | p in parts :: ',' !in p
    ensures forall name | name in Authors(parts) :: IsAuthor(name)
  {
    if parts != [] {
      assert parts[0] in parts;
      TrimChars(parts[0]);
      TrimTwice(parts[0]);
      AuthorsAre(parts[1..]);
    }
  }

  lemma {:induction false} TrimStartTwice(s: string)
    ensures TrimStart(TrimStart(s)) == TrimStart(s)
  {
    if s != "" && IsWhitespace(s[0]) { TrimStartTwice(s[1..]); }
  }

  lemma {:induction false} TrimEndTwice(s: string)
    ensures TrimEnd(TrimEnd(s)) == TrimEnd(s)
    ensures s != "" && !IsWhitespace(s[0]) ==> TrimEnd(s) != "" && TrimEnd(s)[0] == s[0]
    decreases |s|
  {
    if s != "" && IsWhitespace(s[|s| - 1]) { TrimEndTwice(s[..|s| - 1]); }
  }

  lemma TrimTwice(s: string)
    ensures Trim(Trim(s)) == Trim(s)
  {
    var t := TrimStart(s);
    TrimStartVisible(s);
    TrimEndTwice(t);
    if Trim(s) != "" { assert TrimStart(Trim(s)) == Trim(s); }
  }

  /** A blank at either end of a list of names does not matter. */
  lemma BlankInFront(c: char, s: string)
    requires IsWhitespace(c)
    ensures Authors(Split([c] + s, ',')) == Authors(Split(s, ','))
  {
    SplitBehind([c], s, ',');
    var parts := Split(s, ',');
    assert parts == [parts[0]] + parts[1..];
    AuthorsJoin([[c] + parts[0]], parts[1..]);
    AuthorsJoin([parts[0]], parts[1..]);
    OneAuthor([c] + parts[0]);
    OneAuthor(parts[0]);
    assert TrimStart([c] + parts[0]) == TrimStart(parts[0]) by { assert ([c] + parts[0])[1..] == parts[0]; }
  }

  lemma {:induction false} SplitThenBlank(s: string, c: char)
    requires IsWhitespace(c)
    ensures var parts := Split(s, ',');
            Split(s + [c], ',') == parts[..|parts| - 1] + [parts[|parts| - 1] + [c]]
  {
    if s == "" {
      SplitNowhere([c], ',');
      assert s + [c] == [c] && "" + [c] == [c];
    } else {
      assert (s + [c])[0] == s[0] && (s + [c])[1..] == s[1..] + [c];
      SplitThenBlank(s[1..], c);
      var rest := Split(s[1..], ',');
      if s[0] != ',' && |rest| == 1 {
        assert [s[0]] + (rest[0] + [c]) == [s[0]] + rest[0] + [c];
        assert rest[..0] == [] && [] + [rest[0] + [c]] == [rest[0] + [c]];
      } else {
        assert Split(s, ',')[|Split(s, ',')| - 1] == rest[|rest| - 1];
      }
    }
  }

  lemma TrimBlankBehind(s: string, c: char)
    requires IsWhitespace(c)
    ensures Trim(s + [c]) == Trim(s)
  {
    assert TrimEnd(s + [c]) == TrimEnd(s) by { assert (s + [c])[..|s|] == s; }
    TrimEndTrims(s + [c]);
    TrimEndTrims(s);
  }

  lemma BlankBehindNames(s: string, c: char)
    requires IsWhitespace(c)
    ensures Authors(Split(s + [c], ',')) == Authors(Split(s, ','))
  {
    SplitThenBlank(s, c);
    var parts := Split(s, ',');
    var front, last := parts[..|parts| - 1], parts[|parts| - 1];
    assert parts == front + [last];
    AuthorsJoin(front, [last]);
    AuthorsJoin(front, [last + [c]]);
    OneAuthor(last);
    OneAuthor(last + [c]);
    TrimBlankBehind(last, c);
  }

  lemma {:induction false} NamesTrimmedStart(s: string)
    ensures Authors(Split(TrimStart(s), ',')) == Authors(Split(s, ','))
  {
    if s != "" && IsWhitespace(s[0]) {
      NamesTrimmedStart(s[1..]);
      BlankInFront(s[0], s[1..]);
      assert [s[0]] + s[1..] == s;
    }
  }

  lemma {:induction false} NamesTrimmedEnd(s: string)
    ensures Authors(Split(TrimEnd(s), ',')) == Authors(Split(s, ','))
    decreases |s|
  {
    if s != "" && IsWhitespace(s[|s| - 1]) {
      NamesTrimmedEnd(s[..|s| - 1]);
      BlankBehindNames(s[..|s| - 1], s[|s| - 1]);
      assert s[..|s| - 1] + [s[|s| - 1]] == s;
    }
  }

  lemma NamesTrimmed(s: string)
    ensures Authors(Split(Trim(s), ',')) == Authors(Split(s, ','))
  {
    NamesTrimmedStart(s);
    NamesTrimmedEnd(TrimStart(s));
  }

  lemma JoinFirst(known: seq<string>, author: string)
    requires known != []
    ensures JoinComma(known + [author]) == known[0] + ", " + JoinComma(known[1..] + [author])
  {
    assert (known + [author])[1..] == known[1..] + [author];
  }

  predicate AllAuthors(names: seq<string>) { forall name | name in names :: IsAuthor(name) }

  /** A list that was joined splits into its names again. */
  lemma {:induction false} JoinedNames(known: seq<string>, author: string)
    requires AllAuthors(known)
    ensures Authors(Split(JoinComma(known + [author]), ',')) == known + Authors(Split(author, ','))
  {
    if known == [] {
      assert [] + [author] == [author];
      assert known + Authors(Split(author, ',')) == Authors(Split(author, ','));
    } else {
      JoinedNames(known[1..], author);
      JoinFirst(known, author);
      NamesStep(known, JoinComma(known[1..] + [author]), Authors(Split(author, ',')));
    }
  }

  lemma NamesStep(known: seq<string>, more: string, names: seq<string>)
    requires known != [] && AllAuthors(known) && Authors(Split(more, ',')) == known[1..] + names
    ensures Authors(Split(known[0] + ", " + more, ',')) == known + names
  {
    assert known[0] in known;
    FirstName(known[0], more);
    assert known + names == [known[0]] + (known[1..] + names);
  }

  lemma FirstName(first: string, more: string)
    requires IsAuthor(first)
    ensures Authors(Split(first + ", " + more, ',')) == [first] + Authors(Split(more, ','))
  {
    assert first + ", " + more == first + ([','] + ([' '] + more));
    SplitAt(first, [' '] + more, ',');
    AuthorsJoin([first], Split([' '] + more, ','));
    OneAuthor(first);
    BlankInFront(' ', more);
  }

  lemma KnownNames(known: seq<string>)
    requires known != [] && AllAuthors(known)
    ensures Authors(Split(JoinComma(known), ',')) == known
  {
    var last := known[|known| - 1];
    assert known == known[..|known| - 1] + [last] && last in known;
    JoinedNames(known[..|known| - 1], last);
    SplitNowhere(last, ',');
    OneAuthor(last);
  }

  lemma {:induction false} JoinFirstLine(known: seq<string>, author: string)
    requires forall p | p in known :: '\n' !in p
    ensures FirstLine(JoinComma(known + [author])).0 == JoinComma(known + [FirstLine(author).0])
  {
    if known == [] {
      assert [] + [author] == [author] && [] + [FirstLine(author).0] == [FirstLine(author).0];
    } else {
      assert known[0] in known && (known + [author])[1..] == known[1..] + [author];
      assert (known + [FirstLine(author).0])[1..] == known[1..] + [FirstLine(author).0];
      JoinFirstLine(known[1..], author);
      FirstLineBehind(known[0] + ", ", JoinComma(known[1..] + [author]));
    }
  }

  lemma {:induction false} FirstLineBehind(x: string, value: string)
    requires '\n' !in x
    ensures FirstLine(x + value).0 == x + FirstLine(value).0
  {
    if x == "" {
      assert x + value == value && x + FirstLine(value).0 == FirstLine(value).0;
    } else {
      assert x[0] in x && (x + value)[0] == x[0] && (x + value)[1..] == x[1..] + value;
      FirstLineBehind(x[1..], value);
      assert [x[0]] + (x[1..] + FirstLine(value).0) == x + FirstLine(value).0;
    }
  }

  lemma AuthorsPlain(text: string)
    ensures forall name | name in AuthorsOf(text) :: IsAuthor(name) && '\n' !in name
  {
    FieldChars(Lines(text), AUTHORS);
    if LineField(text, AUTHORS).Some? {
      var parts := Split(LineField(text, AUTHORS).value, ',');
      SplitChars(LineField(text, AUTHORS).value);
      AuthorChars(parts);
      SplitCommas(LineField(text, AUTHORS).value);
      AuthorsAre(parts);
    }
  }

  /** The author list that a patch writes names the authors there were, and the new one behind them
      unless that is the last already. */
  lemma AuthorsWritten(text: string, author: string)
    ensures var known := AuthorsOf(text);
            Authors(Split(FirstLine(WithAuthor(text, author)).0, ',')) ==
              if known != [] && known[|known| - 1] == author then known else known + Authors(Split(FirstLine(author).0, ','))
  {
    var known := AuthorsOf(text);
    AuthorsPlain(text);
    if known != [] && known[|known| - 1] == author {
      JoinChars(known);
      OneLineBrings(JoinComma(known));
      KnownNames(known);
    } else {
      JoinFirstLine(known, author);
      JoinedNames(known, FirstLine(author).0);
    }
  }

  /** After a patch with an author the descriptor names the authors it named, and that one behind
      them unless it was the last already. */
  lemma AuthorsGrow(text: string, patch: Patch)
    requires Patched(text, patch).Some? && patch.author.Some? && SilentNames(patch, AUTHORS)
    requires !Shadowed(Lines(text), AUTHORS)
    ensures var known, author := AuthorsOf(text), patch.author.value;
            AuthorsOf(Patched(text, patch).value) ==
              if known != [] && known[|known| - 1] == author then known else known + Authors(Split(FirstLine(author).0, ','))
  {
    var author := patch.author.value;
    AuthorIsField();
    PatchGives(text, patch, AUTHORS);
    AuthorsWritten(text, author);
    NamesTrimmed(FirstLine(WithAuthor(text, author)).0);
  }

  lemma AuthorIsField()
    ensures IsField(AUTHORS)
    ensures forall text, patch :: Given(text, patch, AUTHORS) == AuthorsGiven(text, patch)
  {
    assert NAMES[5] == AUTHORS;
    Heads(AUTHORS);
  }

  // ---------------------------------------------------------------------------------------
  // The reason
  // ---------------------------------------------------------------------------------------

  /** A text of blanks compacts to nothing, and otherwise to its first word and, if more follows, one
      blank and the rest compacted. */
  lemma CompactWords(lead: string, word: string, rest: string)
    requires Blank(lead) && word != "" && (forall c | c in word :: !IsWhitespace(c)) && (rest == "" || IsWhitespace(rest[0]))
    ensures Compact(lead) == ""
    ensures Compact(lead + (word + rest)) == if Compact(rest) == "" then word else word + " " + Compact(rest)
    ensures Compact(rest) == "" <==> Blank(rest)
  {
    assert word[0] in word;
    TrimStartBlank(lead, word + rest);
    assert lead + "" == lead;
    BlankCompacts(lead);
    BlankCompacts(rest);
    WordEnds(word, rest);
  }

  lemma {:induction false} BlankCompacts(s: string)
    ensures Compact(s) == "" <==> Blank(s)
    ensures TrimStart(s) == "" <==> Blank(s)
  {
    if s != "" {
      assert s[0] in s && s == [s[0]] + s[1..];
      if IsWhitespace(s[0]) {
        BlankCompacts(s[1..]);
        assert TrimStart(s) == TrimStart(s[1..]);
      }
    }
  }

  /** The reason is the compacted text, or as much of it as fits. */
  lemma ReasonFits(s: string)
    ensures SanitizeReason(s) <= Compact(s)
    ensures |SanitizeReason(s)| == if |Compact(s)| <= 240 then |Compact(s)| else 240
  {}
}
