/** The queue and descriptor operations of `engine/src/control.rs`. Each operation replaces whole
    files one after the other; a process may die between two replacements, so an operation is
    the list of states it leaves behind, and a step of a run may end after any of them. */
module ControlPlane {
  import opened Text
  import opened StatusText
  import opened LineFields
  import opened QueueText

  // ---------------------------------------------------------------------------------------
  // Descriptors
  // ---------------------------------------------------------------------------------------

  const STATUS := "Статус:"
  const BATCH := "Батч:"
  const BRANCH := "Ветка:"
  const WORKTREE := "Worktree:"
  const WAVE := "Волна:"
  const AUTHORS := "Реализовано:"
  const RISK := "Риск:"
  const REVIEW_SHA := "Ревью-SHA:"
  const REVIEW_CYCLES := "Циклов-ревью:"
  const REASON := "Причина:"

  datatype Risk = Low | Medium | High

  function Rank(r: Risk): nat { match r case Low => 0 case Medium => 1 case High => 2 }

  function RiskToken(r: Risk): string { match r case Low => "low" case Medium => "medium" case High => "high" }

  /** `Risk::from_field`: the first word decides. */
  function RiskOf(value: string): Option<Risk> {
    var word := FirstWord(TrimStart(value)).0;
    if word == "low" then Some(Low) else if word == "medium" then Some(Medium) else if word == "high" then Some(High) else None
  }

  function DescriptorState(text: string): Option<TaskState> {
    match LineField(text, STATUS) case Some(v) => StateOf(v) case None => None
  }

  function DescriptorRisk(text: string): Option<Risk> {
    match LineField(text, RISK) case Some(v) => RiskOf(v) case None => None
  }

  /** `valid_task_transition`. */
  predicate ValidTransition(from: TaskState, to: TaskState) {
    match from
    case NotStarted => to == Working
    case Working => to == InReview || to == Escalated || to == Conflict
    case InReview => to == Working || to == Ready || to == Escalated
    case Ready => to == Merged || to == Conflict || to == Escalated
    case Merged => to == Published || to == Conflict || to == Escalated
    case Published => to == Done
    case Done | Escalated => false
    case Conflict => to == NotStarted
  }

  datatype Patch = Patch(
    state: TaskState, batch: Option<string>, branch: Option<string>, worktree: Option<string>, wave: Option<nat>,
    author: Option<string>, risk: Option<Risk>, reviewSha: Option<string>, reviewCycles: Option<nat>, reason: Option<string>)

  /** `validate_ref`. */
  predicate OkRef(s: string) { Trim(s) != "" && !StartsWith(s, "-") && '\0' !in s && '\r' !in s && '\n' !in s }

  /** `validate_batch_id`. */
  predicate OkBatch(s: string) { s != "" && !StartsWith(s, "-") && '\0' !in s && '\r' !in s && '\n' !in s }

  function SetOptional(text: string, field: string, value: Option<string>): string {
    match value case Some(v) => SetLineField(text, field, v) case None => text
  }

  function Printed(n: Option<nat>): Option<string> { match n case Some(k) => Some(PrintNat(k)) case None => None }

  function Authors(parts: seq<string>): seq<string> {
    if parts == [] then [] else (if Trim(parts[0]) != "" then [Trim(parts[0])] else []) + Authors(parts[1..])
  }

  function JoinComma(parts: seq<string>): string {
    if parts == [] then "" else if |parts| == 1 then parts[0] else parts[0] + ", " + JoinComma(parts[1..])
  }

  /** The author history with one more author, unless it is the last one already. */
  function WithAuthor(text: string, author: string): string {
    var known := match LineField(text, AUTHORS) case Some(v) => Authors(Split(v, ',')) case None => [];
    JoinComma(if known != [] && known[|known| - 1] == author then known else known + [author])
  }

  function ElevatedRisk(risk: Risk, previous: Option<Risk>): string { RiskToken(risk) + Elevation(previous) }

  const ELEVATED := "— elevated by deterministic engine"

  function Elevation(previous: Option<Risk>): string { " " + (ELEVATED + Previously(previous)) }

  function Previously(previous: Option<Risk>): string {
    match previous case Some(p) => " (previous: " + RiskToken(p) + ")" case None => ""
  }

  /** `patch_descriptor`, on the descriptor's text. */
  function Patched(text: string, patch: Patch): Option<string> {
    var state, risk := DescriptorState(text), DescriptorRisk(text);
    if state.Some? && state.value != patch.state && !ValidTransition(state.value, patch.state) then None
    else if patch.risk.Some? && risk.Some? && Rank(patch.risk.value) < Rank(risk.value) then None
    else if patch.reviewSha.Some? && !OkRef(patch.reviewSha.value) then None
    else
      var t1 := SetLineField(text, STATUS, Literal(patch.state));
      var t4 := Middle(text, t1, patch);
      var t5 := if patch.risk.Some? && patch.risk != risk then SetLineField(t4, RISK, ElevatedRisk(patch.risk.value, risk)) else t4;
      Some(Tail(t5, patch))
  }

  /** The fields set between status and risk. */
  function Middle(text: string, t1: string, patch: Patch): string {
    var t3 := SetOptional(Names(t1, patch), WAVE, Printed(patch.wave));
    if patch.author.Some? then SetLineField(t3, AUTHORS, WithAuthor(text, patch.author.value)) else t3
  }

  function Names(t1: string, patch: Patch): string {
    SetOptional(SetOptional(SetOptional(t1, BATCH, patch.batch), BRANCH, patch.branch), WORKTREE, patch.worktree)
  }

  /** The fields set after the risk. */
  function Tail(t5: string, patch: Patch): string {
    var t6 := SetOptional(SetOptional(t5, REVIEW_SHA, patch.reviewSha), REVIEW_CYCLES, Printed(patch.reviewCycles));
    SetOptional(t6, REASON, match patch.reason case Some(r) => Some(SanitizeReason(r)) case None => None)
  }

  // ---------------------------------------------------------------------------------------
  // What a patch does to state and risk
  // ---------------------------------------------------------------------------------------

  predicate OneLine(value: Option<string>) { value.Some? ==> '\n' !in value.value }

  /** What an optional value, once it is set, brings along for another field. */
  function BroughtBy(text: string, field: string, value: Option<string>, other: string): Option<string> {
    match value case Some(v) => Brings(Lines(text), field, v, other) case None => None
  }

  lemma OptionalReads(text: string, field: string, value: Option<string>, other: string)
    requires IsKey(field) && IsKey(other) && Apart(field, other) && '\n' !in field
    ensures LineField(SetOptional(text, field, value), other) == Or(BroughtBy(text, field, value, other), LineField(text, other))
  {
    if value.Some? { SetReads(text, field, value.value, other); }
  }

  lemma OptionalStays(text: string, field: string, value: Option<string>, other: string)
    requires IsKey(field) && IsKey(other) && Apart(field, other) && '\n' !in field && OneLine(value)
    ensures LineField(SetOptional(text, field, value), other) == LineField(text, other)
  {
    if value.Some? {
      OneLineBrings(value.value);
      SetReads(text, field, value.value, other);
    }
  }

  /** The value of another field that comes along with the names in a patch: batch, branch,
      worktree and author are written as they are given, and the last that brings one along wins. */
  function Brought(text: string, patch: Patch, other: string): Option<string> {
    var t1 := SetLineField(text, STATUS, Literal(patch.state));
    var t3 := SetOptional(Names(t1, patch), WAVE, Printed(patch.wave));
    Or(BroughtBy(t3, AUTHORS, patch.author, other), BroughtByNames(t1, patch, other))
  }

  function BroughtByNames(t1: string, patch: Patch, other: string): Option<string> {
    var a := SetOptional(t1, BATCH, patch.batch);
    var b := SetOptional(a, BRANCH, patch.branch);
    Or(BroughtBy(b, WORKTREE, patch.worktree, other), Or(BroughtBy(a, BRANCH, patch.branch, other), BroughtBy(t1, BATCH, patch.batch, other)))
  }

  /** The patch raises the risk, and the line it writes for that is the one that is read. */
  predicate Elevates(text: string, patch: Patch) {
    && patch.risk.Some? && patch.risk != DescriptorRisk(text)
    && !Shadowed(Lines(Middle(text, SetLineField(text, STATUS, Literal(patch.state)), patch)), RISK)
  }

  predicate FieldNames() {
    && IsKey(STATUS) && IsKey(BATCH) && IsKey(BRANCH) && IsKey(WORKTREE) && IsKey(WAVE) && IsKey(AUTHORS) && IsKey(RISK)
    && IsKey(REVIEW_SHA) && IsKey(REVIEW_CYCLES) && IsKey(REASON)
  }

  lemma NamesAreKeys()
    ensures FieldNames()
  {}

  lemma Differ(a: string, b: string, i: nat)
    requires i < |a| && i < |b| && a[i] != b[i]
    ensures Apart(a, b) && Apart(b, a)
  {
    assert |a| <= |b| ==> b[..|a|][i] == b[i];
    assert |b| <= |a| ==> a[..|b|][i] == a[i];
  }

  /** No field name starts with the name of the status or the risk, nor they with it. */
  lemma NamesApart(other: string)
    requires other == STATUS || other == RISK
    ensures Apart(BATCH, other) && Apart(BRANCH, other) && Apart(WORKTREE, other) && Apart(WAVE, other) && Apart(AUTHORS, other)
    ensures Apart(REVIEW_SHA, other) && Apart(REVIEW_CYCLES, other) && Apart(REASON, other) && Apart(STATUS, RISK) && Apart(RISK, STATUS)
  {
    Differ(BATCH, other, 0);
    Differ(BRANCH, other, 0);
    Differ(WORKTREE, other, 0);
    Differ(WAVE, other, 0);
    Differ(AUTHORS, other, if other == STATUS then 0 else 1);
    Differ(REVIEW_SHA, other, if other == STATUS then 0 else 1);
    Differ(REVIEW_CYCLES, other, 0);
    Differ(REASON, other, 0);
    Differ(STATUS, RISK, 0);
  }

  // Values are single lines

  lemma {:induction false} TrimStartChars(s: string)
    ensures forall c | c in TrimStart(s) :: c in s
  {
    if s != "" && IsWhitespace(s[0]) { TrimStartChars(s[1..]); }
  }

  lemma {:induction false} TrimEndChars(s: string)
    ensures forall c | c in TrimEnd(s) :: c in s
    decreases |s|
  {
    if s != "" && IsWhitespace(s[|s| - 1]) { TrimEndChars(s[..|s| - 1]); }
  }

  lemma TrimChars(s: string)
    ensures forall c | c in Trim(s) :: c in s
  {
    TrimStartChars(s);
    TrimEndChars(TrimStart(s));
  }

  lemma {:induction false} FieldChars(lines: seq<string>, key: string)
    requires forall l | l in lines :: '\n' !in l
    ensures FieldIn(lines, key).Some? ==> '\n' !in FieldIn(lines, key).value
  {
    if lines != [] {
      assert lines[0] in lines;
      if StartsWith(Trim(lines[0]), key) {
        TrimChars(lines[0]);
        TrimChars(Trim(lines[0])[|key|..]);
      } else {
        FieldChars(lines[1..], key);
      }
    }
  }

  lemma {:induction false} SplitChars(s: string)
    requires '\n' !in s
    ensures forall p | p in Split(s, ',') :: '\n' !in p
  {
    if s != "" { SplitChars(s[1..]); }
  }

  lemma {:induction false} AuthorChars(parts: seq<string>)
    requires forall p | p in parts :: '\n' !in p
    ensures forall p | p in Authors(parts) :: '\n' !in p
  {
    if parts != [] {
      assert parts[0] in parts;
      TrimChars(parts[0]);
      AuthorChars(parts[1..]);
    }
  }

  lemma {:induction false} JoinChars(parts: seq<string>)
    requires forall p | p in parts :: '\n' !in p
    ensures '\n' !in JoinComma(parts)
  {
    if parts != [] {
      assert parts[0] in parts;
      if |parts| > 1 { JoinChars(parts[1..]); }
    }
  }

  /** Of a new author list, only the new author can span several lines. */
  lemma AuthorContinues(text: string, author: string)
    ensures Continuation(WithAuthor(text, author)) == Continuation(author)
  {
    FieldChars(Lines(text), AUTHORS);
    var known := match LineField(text, AUTHORS) case Some(v) => Authors(Split(v, ',')) case None => [];
    if LineField(text, AUTHORS).Some? {
      SplitChars(LineField(text, AUTHORS).value);
      AuthorChars(Split(LineField(text, AUTHORS).value, ','));
    }
    if known != [] && known[|known| - 1] == author {
      JoinChars(known);
      OneLineBrings(JoinComma(known));
      OneLineBrings(author);
    } else {
      JoinLast(known, author);
    }
  }

  lemma {:induction false} JoinLast(known: seq<string>, author: string)
    requires forall p | p in known :: '\n' !in p
    ensures Continuation(JoinComma(known + [author])) == Continuation(author)
  {
    if known == [] {
      assert [] + [author] == [author];
    } else {
      assert known[0] in known && (known + [author])[1..] == known[1..] + [author];
      JoinLast(known[1..], author);
      ContinuationBehind(known[0] + ", ", JoinComma(known[1..] + [author]));
    }
  }

  lemma {:induction false} FirstWordChars(s: string)
    ensures (forall c | c in FirstWord(s).0 :: c in s && !IsWhitespace(c)) && forall c | c in FirstWord(s).1 :: c in s
  {
    if s != "" && !IsWhitespace(s[0]) { FirstWordChars(s[1..]); }
  }

  lemma {:induction false} CompactChars(s: string)
    ensures '\n' !in Compact(s)
    decreases |s|
  {
    TrimStartNotLonger(s);
    var t := TrimStart(s);
    if t != "" {
      TrimStartVisible(s);
      FirstWordChars(t);
      CompactChars(FirstWord(t).1);
    }
  }

  // The patch, field by field

  lemma ElevatedReads(risk: Risk, previous: Option<Risk>)
    ensures RiskOf(Trim(ElevatedRisk(risk, previous))) == Some(risk) && '\n' !in ElevatedRisk(risk, previous)
  {
    var token, rest := RiskToken(risk), Elevation(previous);
    TokenIsWord(risk);
    ElevationBlank(previous);
    TrimEndBlankFirst(rest);
    TrimmedWord(token, rest);
  }

  lemma TrimmedWord(token: string, rest: string)
    requires token != "" && (forall c | c in token :: !IsWhitespace(c)) && (TrimEnd(rest) == "" || IsWhitespace(TrimEnd(rest)[0]))
    ensures FirstWord(TrimStart(Trim(token + rest))).0 == token
  {
    assert token[0] in token && token[|token| - 1] in token;
    TrimEndKeeps(token, rest);
    WordEnds(token, TrimEnd(rest));
  }

  lemma TokenIsWord(risk: Risk)
    ensures RiskToken(risk) != "" && (forall c | c in RiskToken(risk) :: !IsWhitespace(c)) && '\n' !in RiskToken(risk)
  {}

  lemma ElevationBlank(previous: Option<Risk>)
    ensures var rest := Elevation(previous); rest != "" && IsWhitespace(rest[0]) && '\n' !in rest
  {
    assert Elevation(previous)[0] == ' ';
    PreviouslyOneLine(previous);
    ElevatedOneLine();
    NoBreaks(ELEVATED, Previously(previous));
    NoBreaks(" ", ELEVATED + Previously(previous));
  }

  lemma ElevatedOneLine()
    ensures '\n' !in ELEVATED
  {}

  lemma PreviouslyOneLine(previous: Option<Risk>)
    ensures '\n' !in Previously(previous)
  {
    if previous.Some? {
      TokenIsWord(previous.value);
      NoBreaks(" (previous: ", RiskToken(previous.value));
      NoBreaks(" (previous: " + RiskToken(previous.value), ")");
    }
  }

  lemma NoBreaks(a: string, b: string)
    requires '\n' !in a && '\n' !in b
    ensures '\n' !in a + b
  {}

  lemma {:induction false} TrimEndBlankFirst(s: string)
    requires s != "" && IsWhitespace(s[0])
    ensures TrimEnd(s) == "" || IsWhitespace(TrimEnd(s)[0])
    decreases |s|
  {
    if IsWhitespace(s[|s| - 1]) && |s| > 1 { TrimEndBlankFirst(s[..|s| - 1]); }
  }

  /** The state read after a patch is its own, unless an indented status line shadows the one it
      writes, or a value of several lines brings another one along. The risk read is the one it
      raises, or one that a value brings along, or the old one. */
  lemma PatchReads(text: string, patch: Patch)
    requires Patched(text, patch).Some?
    ensures DescriptorState(Patched(text, patch).value) ==
            match Brought(text, patch, STATUS)
            case Some(v) => StateOf(v)
            case None => if Shadowed(Lines(text), STATUS) then DescriptorState(text) else Some(patch.state)
    ensures DescriptorRisk(Patched(text, patch).value) ==
            if Elevates(text, patch) then patch.risk
            else match Brought(text, patch, RISK) case Some(v) => RiskOf(v) case None => DescriptorRisk(text)
  {
    var t1 := SetLineField(text, STATUS, Literal(patch.state));
    var t4 := Middle(text, t1, patch);
    var risk := DescriptorRisk(text);
    var t5 := if patch.risk.Some? && patch.risk != risk then SetLineField(t4, RISK, ElevatedRisk(patch.risk.value, risk)) else t4;
    StatusSet(text, patch.state);
    MiddleReads(text, t1, patch, STATUS);
    MiddleReads(text, t1, patch, RISK);
    RiskSet(t4, t5, patch, risk);
    TailStays(t5, patch, STATUS);
    TailStays(t5, patch, RISK);
    SameReading(Tail(t5, patch), t5);
  }

  lemma SameReading(a: string, b: string)
    ensures LineField(a, STATUS) == LineField(b, STATUS) ==> DescriptorState(a) == DescriptorState(b)
    ensures LineField(a, RISK) == LineField(b, RISK) ==> DescriptorRisk(a) == DescriptorRisk(b)
  {}

  lemma StatusSet(text: string, state: TaskState)
    ensures var t1 := SetLineField(text, STATUS, Literal(state));
            && DescriptorState(t1) == (if Shadowed(Lines(text), STATUS) then DescriptorState(text) else Some(state))
            && LineField(t1, RISK) == LineField(text, RISK)
  {
    NamesAreKeys();
    NamesApart(RISK);
    LiteralPlain(state);
    LiteralChars(state);
    OneLineBrings(Literal(state));
    SetReads(text, STATUS, Literal(state), RISK);
  }

  lemma LiteralChars(state: TaskState)
    ensures '\n' !in Literal(state) && '\n' !in STATUS && '\n' !in RISK
  {}

  lemma LiteralNoKeyword(state: TaskState)
    ensures !Contains(Literal(state), LOWER_STATUS)
  {
    IndexOfFirst(Literal(state), LOWER_STATUS, 0);
    assert LOWER_STATUS[6] == ':';
    NoColon(state);
    if Contains(Literal(state), LOWER_STATUS) {
      var i := IndexOf(Literal(state), LOWER_STATUS, 0).value;
      ColonAt(Literal(state), i);
    }
  }

  lemma NoColon(state: TaskState)
    ensures ':' !in Literal(state)
  {}

  lemma ColonAt(s: string, i: nat)
    ensures At(s, i, LOWER_STATUS) ==> ':' in s
  {
    if At(s, i, LOWER_STATUS) { assert s[i + 6] == LOWER_STATUS[6]; }
  }

  lemma MiddleReads(text: string, t1: string, patch: Patch, other: string)
    requires (other == STATUS || other == RISK) && t1 == SetLineField(text, STATUS, Literal(patch.state))
    ensures LineField(Middle(text, t1, patch), other) == Or(Brought(text, patch, other), LineField(t1, other))
  {
    NamesRead(t1, patch, other);
    WaveStays(Names(t1, patch), patch.wave, other);
    AuthorReads(text, SetOptional(Names(t1, patch), WAVE, Printed(patch.wave)), patch.author, other);
  }

  lemma NamesRead(t1: string, patch: Patch, other: string)
    requires other == STATUS || other == RISK
    ensures LineField(Names(t1, patch), other) == Or(BroughtByNames(t1, patch, other), LineField(t1, other))
  {
    var a := SetOptional(t1, BATCH, patch.batch);
    NameReads(t1, BATCH, patch.batch, other);
    NameReads(a, BRANCH, patch.branch, other);
    NameReads(SetOptional(a, BRANCH, patch.branch), WORKTREE, patch.worktree, other);
  }

  lemma NameReads(text: string, field: string, value: Option<string>, other: string)
    requires (other == STATUS || other == RISK) && field in {BATCH, BRANCH, WORKTREE}
    ensures LineField(SetOptional(text, field, value), other) == Or(BroughtBy(text, field, value, other), LineField(text, other))
  {
    NamesAreKeys();
    NamesApart(other);
    NamesOneLine();
    OptionalReads(text, field, value, other);
  }

  lemma WaveStays(text: string, wave: Option<nat>, other: string)
    requires other == STATUS || other == RISK
    ensures LineField(SetOptional(text, WAVE, Printed(wave)), other) == LineField(text, other)
  {
    NamesAreKeys();
    NamesApart(other);
    NamesOneLine();
    PrintedOneLine(wave);
    OptionalStays(text, WAVE, Printed(wave), other);
  }

  lemma AuthorReads(text: string, t3: string, author: Option<string>, other: string)
    requires other == STATUS || other == RISK
    ensures LineField(if author.Some? then SetLineField(t3, AUTHORS, WithAuthor(text, author.value)) else t3, other) ==
            Or(BroughtBy(t3, AUTHORS, author, other), LineField(t3, other))
  {
    NamesAreKeys();
    NamesApart(other);
    NamesOneLine();
    if author.Some? {
      AuthorContinues(text, author.value);
      SetReads(t3, AUTHORS, WithAuthor(text, author.value), other);
    }
  }

  lemma NamesOneLine()
    ensures '\n' !in BATCH && '\n' !in BRANCH && '\n' !in WORKTREE && '\n' !in WAVE && '\n' !in AUTHORS
    ensures '\n' !in REVIEW_SHA && '\n' !in REVIEW_CYCLES && '\n' !in REASON
  {}

  lemma PrintedOneLine(n: Option<nat>)
    ensures OneLine(Printed(n))
  {
    if n.Some? { assert forall c | c in PrintNat(n.value) :: IsDigit(c); }
  }

  lemma RiskSet(t4: string, t5: string, patch: Patch, risk: Option<Risk>)
    requires t5 == if patch.risk.Some? && patch.risk != risk then SetLineField(t4, RISK, ElevatedRisk(patch.risk.value, risk)) else t4
    ensures LineField(t5, STATUS) == LineField(t4, STATUS)
    ensures DescriptorRisk(t5) == if patch.risk.Some? && patch.risk != risk && !Shadowed(Lines(t4), RISK) then patch.risk else DescriptorRisk(t4)
  {
    NamesAreKeys();
    NamesApart(STATUS);
    LiteralChars(Done);
    if patch.risk.Some? && patch.risk != risk {
      ElevatedReads(patch.risk.value, risk);
      OneLineBrings(ElevatedRisk(patch.risk.value, risk));
      SetReads(t4, RISK, ElevatedRisk(patch.risk.value, risk), STATUS);
    }
  }

  lemma TailStays(t5: string, patch: Patch, other: string)
    requires (other == STATUS || other == RISK) && (patch.reviewSha.Some? ==> OkRef(patch.reviewSha.value))
    ensures LineField(Tail(t5, patch), other) == LineField(t5, other)
  {
    var a := SetOptional(t5, REVIEW_SHA, patch.reviewSha);
    ReviewStays(t5, patch, other);
    ReasonStays(SetOptional(a, REVIEW_CYCLES, Printed(patch.reviewCycles)), patch.reason, other);
  }

  lemma ReviewStays(t5: string, patch: Patch, other: string)
    requires (other == STATUS || other == RISK) && (patch.reviewSha.Some? ==> OkRef(patch.reviewSha.value))
    ensures LineField(SetOptional(SetOptional(t5, REVIEW_SHA, patch.reviewSha), REVIEW_CYCLES, Printed(patch.reviewCycles)), other)
            == LineField(t5, other)
  {
    NamesAreKeys();
    NamesApart(other);
    NamesOneLine();
    OptionalStays(t5, REVIEW_SHA, patch.reviewSha, other);
    PrintedOneLine(patch.reviewCycles);
    OptionalStays(SetOptional(t5, REVIEW_SHA, patch.reviewSha), REVIEW_CYCLES, Printed(patch.reviewCycles), other);
  }

  lemma ReasonStays(text: string, reason: Option<string>, other: string)
    requires other == STATUS || other == RISK
    ensures LineField(SetOptional(text, REASON, match reason case Some(r) => Some(SanitizeReason(r)) case None => None), other)
            == LineField(text, other)
  {
    NamesAreKeys();
    NamesApart(other);
    NamesOneLine();
    if reason.Some? {
      CompactChars(reason.value);
      OptionalStays(text, REASON, Some(SanitizeReason(reason.value)), other);
    }
  }

  // ---------------------------------------------------------------------------------------
  // Which patches keep what a descriptor has reached
  // ---------------------------------------------------------------------------------------

  /** No name in the patch brings along another status than the two a published task may have. */
  predicate KeepsPublished(text: string, patch: Patch) {
    match Brought(text, patch, STATUS) case Some(v) => PublishedOrDone(StateOf(v)) case None => true
  }

  predicate PublishedOrDone(state: Option<TaskState>) { state == Some(Published) || state == Some(Done) }

  /** No name in the patch brings along a lower or unreadable risk, unless the risk line that the
      patch itself writes is read instead. */
  predicate KeepsRisk(text: string, patch: Patch) {
    || Elevates(text, patch)
    || match Brought(text, patch, RISK) case Some(v) => AtLeast(RiskOf(v), DescriptorRisk(text)) case None => true
  }

  predicate AtLeast(risk: Option<Risk>, before: Option<Risk>) { before.Some? ==> risk.Some? && Rank(risk.value) >= Rank(before.value) }

  /** A published descriptor stays published or becomes done exactly if no name in the patch brings
      another status along. */
  lemma PublishedStays(text: string, patch: Patch)
    requires DescriptorState(text) == Some(Published) && Patched(text, patch).Some?
    ensures PublishedOrDone(DescriptorState(Patched(text, patch).value)) <==> KeepsPublished(text, patch)
  {
    PatchReads(text, patch);
    PublishedMayBecome(text, patch);
    Weighed(DescriptorState(Patched(text, patch).value), patch.state, Shadowed(Lines(text), STATUS),
            match Brought(text, patch, STATUS) case Some(v) => Some(StateOf(v)) case None => None);
  }

  lemma PublishedMayBecome(text: string, patch: Patch)
    requires DescriptorState(text) == Some(Published) && Patched(text, patch).Some?
    ensures patch.state == Published || patch.state == Done
  {
    Transitions(DescriptorState(text).value, patch.state);
  }

  lemma Transitions(from: TaskState, to: TaskState)
    ensures from == Published && (from == to || ValidTransition(from, to)) ==> to == Published || to == Done
  {}

  lemma Weighed(after: Option<TaskState>, own: TaskState, shadowed: bool, brought: Option<Option<TaskState>>)
    requires own == Published || own == Done
    requires after == match brought case Some(read) => read case None => if shadowed then Some(Published) else Some(own)
    ensures PublishedOrDone(after) <==> match brought case Some(read) => PublishedOrDone(read) case None => true
  {}

  /** The risk that is read does not fall exactly if no name in the patch brings a lower one along. */
  lemma RiskStays(text: string, patch: Patch)
    requires Patched(text, patch).Some?
    ensures AtLeast(DescriptorRisk(Patched(text, patch).value), DescriptorRisk(text)) <==> KeepsRisk(text, patch)
  {
    PatchReads(text, patch);
  }

  /** No continuation line of the value has the field. */
  predicate Silent(value: Option<string>, field: string) { value.Some? ==> FieldIn(Continuation(value.value), field) == None }

  predicate SilentNames(patch: Patch, field: string) {
    Silent(patch.batch, field) && Silent(patch.branch, field) && Silent(patch.worktree, field) && Silent(patch.author, field)
  }

  /** Names without a line of the field bring nothing along; names of one line are such. */
  lemma SilentKeeps(text: string, patch: Patch, field: string)
    requires SilentNames(patch, field)
    ensures Brought(text, patch, field) == None
  {
    forall t: string, name: string, value: Option<string> | Silent(value, field) ensures BroughtBy(t, name, value, field) == None {}
  }

  lemma OneLineSilent(value: Option<string>, field: string)
    requires OneLine(value)
    ensures Silent(value, field)
  {
    if value.Some? { OneLineBrings(value.value); }
  }
}
