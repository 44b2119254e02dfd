/** Runs of the control-plane operations of `engine/src/control.rs` with crashes between any two
    file replacements: the retry counter of a queue row, the repair of a cut capture, and what
    can happen to a descriptor's state and risk. */
module ControlRuns {
  import opened Text
  import opened StatusText
  import opened LineFields
  import opened QueueText
  import opened QueueBreaks
  import opened ControlPlane

  // ---------------------------------------------------------------------------------------
  // The operations
  // ---------------------------------------------------------------------------------------

  datatype Plane = Plane(queue: string, descriptors: map<string, string>)

  datatype Op =
    | Capture(id: string, batch: string, branch: string, worktree: string, wave: nat)
    | PatchDescriptor(id: string, patch: Patch)
    | PatchQueue(id: string, state: TaskState, reason: Option<string>)
    | Reanchor(id: string)
    | ReturnOrphaned(id: string, attempt: Option<nat>)
    | RemoveUncaptured(id: string, active: set<string>)
    | RemoveTerminal(id: string)

  lemma FindBounds(queue: string, id: string, b: QueueBlock)
    requires IsTaskId(id) && FindBlock(queue, id) == Ok(b)
    ensures b.statusStart <= b.headerEnd <= |queue|
  {
    var preamble, blocks := Partition(queue);
    var k := FoundIsOnly(queue, preamble, blocks, id);
    BlockLies(preamble, blocks, k, b);
  }

  /** The plane with the status of one row rewritten. */
  function Rewrite(p: Plane, id: string, status: string): Plane
    requires IsTaskId(id) && FindBlock(p.queue, id).Ok?
  {
    var b := FindBlock(p.queue, id).value;
    FindBounds(p.queue, id, b);
    Plane(ReplaceStatus(p.queue, b, status), p.descriptors)
  }

  /** The status of a task's row, if it has one. */
  function Row(p: Plane, id: string): Option<string> {
    match FindBlock(p.queue, id) case Ok(b) => Some(b.status) case Err(_) => None
  }

  function RowState(p: Plane, id: string): Option<TaskState> {
    match Row(p, id) case Some(s) => StateOf(s) case None => None
  }

  /** The retry counter of a row that can be read. */
  function Counter(p: Plane, id: string): Option<Option<nat>> {
    match Row(p, id) case Some(s) => Some(Attempt(s)) case None => None
  }

  function StateIn(p: Plane, id: string): Option<TaskState> {
    if id in p.descriptors then DescriptorState(p.descriptors[id]) else None
  }

  function RiskIn(p: Plane, id: string): Option<Risk> {
    if id in p.descriptors then DescriptorRisk(p.descriptors[id]) else None
  }

  function CapturePatch(batch: string, branch: string, worktree: string, wave: nat): Patch {
    Patch(Working, Some(batch), Some(branch), Some(worktree), Some(wave), None, None, None, None, None)
  }

  /** The states an operation leaves behind, one for each file it replaces or removes; none when
      it is refused before the first. */
  function Writes(p: Plane, op: Op): seq<Plane> {
    if !IsTaskId(op.id) then [] else
    match op
    case Capture(id, batch, branch, worktree, wave) =>
      if !OkBatch(batch) || !OkRef(branch) || RowState(p, id) != Some(NotStarted) then []
      else
        var captured := Rewrite(p, id, WithAttempt(CaptureHead(batch, worktree, branch), Attempt(Row(p, id).value)));
        [captured] + PatchWrites(captured, id, CapturePatch(batch, branch, worktree, wave))
    case PatchDescriptor(id, patch) => PatchWrites(p, id, patch)
    case PatchQueue(id, state, reason) =>
      var previous := RowState(p, id);
      if previous.None? || (previous.value != state && !ValidTransition(previous.value, state)) then []
      else [Rewrite(p, id, PatchStatus(state, reason, Attempt(Row(p, id).value)))]
    case Reanchor(id) => ReanchorWrites(p, id)
    case ReturnOrphaned(id, attempt) =>
      if id in p.descriptors || RowState(p, id).None? || RowState(p, id).value !in {Working, InReview, Ready, Merged} then []
      else [Rewrite(p, id, WithAttempt(Literal(NotStarted), attempt))]
    case RemoveUncaptured(id, active) =>
      if id in active || !MayLoseDescriptor(p, id) || StateIn(p, id).None? || StateIn(p, id).value !in {NotStarted, Working, InReview}
      then [] else [Plane(p.queue, p.descriptors - {id})]
    case RemoveTerminal(id) =>
      if StateIn(p, id).None? || StateIn(p, id).value !in {Done, Conflict, Escalated} then []
      else [Plane(p.queue, p.descriptors - {id})]
  }

  function PatchWrites(p: Plane, id: string, patch: Patch): seq<Plane> {
    if id !in p.descriptors then []
    else match Patched(p.descriptors[id], patch) case None => [] case Some(t) => [Plane(p.queue, p.descriptors[id := t])]
  }

  /** The row, if there is one, does not forbid removing an uncaptured descriptor. */
  predicate MayLoseDescriptor(p: Plane, id: string) {
    match FindBlock(p.queue, id)
    case Ok(b) => StateOf(b.status).Some? && StateOf(b.status).value in {NotStarted, Working, InReview, Ready, Merged}
    case Err(e) => e == NoBlock || e == NoStatus
  }

  /** Both artifacts of a task allow it to be re-anchored. */
  predicate Reanchorable(p: Plane, id: string) {
    && IsTaskId(id) && StateIn(p, id).Some? && StateIn(p, id).value in {Merged, Ready}
    && RowState(p, id).Some? && RowState(p, id).value in {Working, Merged, Ready}
  }

  function Reopened(p: Plane, id: string): Plane
    requires Reanchorable(p, id)
  {
    if StateIn(p, id) == Some(Merged)
    then Plane(p.queue, p.descriptors[id := SetLineField(p.descriptors[id], STATUS, Literal(Ready))]) else p
  }

  function ReanchorWrites(p: Plane, id: string): seq<Plane> {
    if !Reanchorable(p, id) then []
    else
      var first := Reopened(p, id);
      (if StateIn(p, id) == Some(Merged) then [first] else [])
      + if RowState(p, id) == Some(Merged) then [Rewrite(first, id, WithAttempt(Literal(Ready), Attempt(Row(p, id).value)))] else []
  }

  /** The plane when an operation is cut after `k` of its writes, or done. */
  function Cut(p: Plane, op: Op, k: nat): Plane { LastWritten(p, Writes(p, op), k) }

  function LastWritten(p: Plane, writes: seq<Plane>, k: nat): Plane {
    if k == 0 || writes == [] then p else if k <= |writes| then writes[k - 1] else writes[|writes| - 1]
  }

  // ---------------------------------------------------------------------------------------
  // Rewriting one row
  // ---------------------------------------------------------------------------------------

  lemma {:induction false} TrimEndState(s: string)
    ensures Trim(Segments(TrimEnd(s))[0]) == Trim(Segments(s)[0])
    decreases |s|
  {
    if s != "" && IsWhitespace(s[|s| - 1]) {
      var t, c := s[..|s| - 1], s[|s| - 1];
      assert s == t + [c];
      SegmentsAppend(t, c);
      TrimAppend(Segments(t)[|Segments(t)| - 1], c);
      TrimEndState(t);
    }
  }

  lemma {:induction false} TrimStartState(s: string)
    ensures Trim(Segments(TrimStart(s))[0]) == Trim(Segments(s)[0])
  {
    if s != "" && IsWhitespace(s[0]) {
      assert ([s[0]] + Segments(s[1..])[0])[1..] == Segments(s[1..])[0];
      TrimStartState(s[1..]);
    }
  }

  /** A status of one line never changes another row. */
  lemma OtherRowStays(p: Plane, id: string, status: string, other: string)
    requires IsTaskId(id) && FindBlock(p.queue, id).Ok? && IsTaskId(other) && other != id && '\n' !in status
    ensures Row(Rewrite(p, id, status), other) == Row(p, other)
  {
    ReplaceThenFind(p.queue, id, FindBlock(p.queue, id).value, status, other);
    SeenRow(Rewrite(p, id, status), p, id, other);
  }

  /** A status of one visible line without the lower-case keyword is read back as it was meant. */
  lemma RowRewritten(p: Plane, id: string, status: string)
    requires IsTaskId(id) && FindBlock(p.queue, id).Ok?
    requires '\n' !in status && StateOf(status).Some? && !Contains(status, LOWER_STATUS)
    ensures var t := Rewrite(p, id, status);
            Row(t, id).Some? && RowState(t, id) == StateOf(status) && Counter(t, id) == Some(Attempt(status))
  {
    var b := FindBlock(p.queue, id).value;
    ReplaceThenFind(p.queue, id, b, status, OtherId(id));
    TrimEndState(TrimStart(status));
    TrimStartState(status);
    TrimmedAttempt(status);
    BlankHasNoState(Trim(status));
    SeenRow(Rewrite(p, id, status), p, id, OtherId(id));
  }

  lemma BlankHasNoState(s: string)
    ensures StateOf(s).Some? ==> s != ""
  {}

  lemma SeenRow(t: Plane, p: Plane, id: string, other: string)
    requires Seen(t.queue, other) == Seen(p.queue, other)
    ensures Row(t, other) == Row(p, other)
    ensures Row(t, id) == match Seen(t.queue, id) case Ok(v) => Some(v.1) case Err(_) => None
  {}

  /** A counter behind a status brings no status keyword with it. */
  lemma NoKeywordBehind(head: string, attempt: Option<nat>)
    requires !Contains(head, LOWER_STATUS) && '\n' !in head
    ensures !Contains(WithAttempt(head, attempt), LOWER_STATUS) && '\n' !in WithAttempt(head, attempt)
  {
    match attempt
    case None =>
    case Some(n) =>
      var behind := "· попытка=" + PrintNat(n);
      BehindChars(n);
      assert WithAttempt(head, attempt) == head + " " + behind;
      NoKeywordAcross(head, behind);
  }

  lemma BehindChars(n: nat)
    ensures var behind := "· попытка=" + PrintNat(n); 'с' !in behind && '\n' !in behind
  {
    assert forall c | c in PrintNat(n) :: IsDigit(c);
  }

  lemma NoKeywordAcross(a: string, b: string)
    requires !Contains(a, LOWER_STATUS) && 'с' !in b
    ensures !Contains(a + " " + b, LOWER_STATUS)
  {
    IndexOfFirst(a, LOWER_STATUS, 0);
    assert ' ' !in LOWER_STATUS && LOWER_STATUS[0] == 'с';
    forall i: nat ensures !At(a + " " + b, i, LOWER_STATUS) {
      if At(a + " " + b, i, LOWER_STATUS) {
        OccursInSide(a, b, LOWER_STATUS, i);
        KeywordNeedsEs(b, i - |a| - 1);
      }
    }
    NowhereIs(a + " " + b, LOWER_STATUS);
  }

  lemma KeywordNeedsEs(b: string, i: int)
    ensures i >= 0 && At(b, i, LOWER_STATUS) ==> 'с' in b
  {
    if i >= 0 && At(b, i, LOWER_STATUS) { assert b[i] == LOWER_STATUS[0]; }
  }

  lemma AttemptBounded(status: string)
    ensures Attempt(status).Some? ==> Attempt(status).value <= MAX_U32
  {}

  // ---------------------------------------------------------------------------------------
  // The retry counter over every run
  // ---------------------------------------------------------------------------------------

  predicate WritesRow(op: Op) { op.Capture? || op.PatchQueue? || op.ReturnOrphaned? }

  /** The status an operation puts into its row. */
  function NewStatus(p: Plane, op: Op): string
    requires WritesRow(op) && Row(p, op.id).Some?
  {
    match op
    case Capture(id, batch, branch, worktree, _) => WithAttempt(CaptureHead(batch, worktree, branch), Attempt(Row(p, id).value))
    case PatchQueue(id, state, reason) => PatchStatus(state, reason, Attempt(Row(p, id).value))
    case ReturnOrphaned(_, attempt) => WithAttempt(Literal(NotStarted), attempt)
  }

  lemma RowWritten(p: Plane, op: Op)
    requires WritesRow(op) && Writes(p, op) != []
    ensures IsTaskId(op.id) && FindBlock(p.queue, op.id).Ok?
    ensures forall t | t in Writes(p, op) :: t.queue == Rewrite(p, op.id, NewStatus(p, op)).queue
  {
    if op.Capture? { CaptureQueues(p, op); }
  }

  /** Whether the row still shows its counter once an operation has written it: what it shows then
      depends on its header and on the first line of the status alone. */
  predicate KeepsCounter(p: Plane, op: Op) {
    WritesRow(op) && Row(p, op.id).Some? ==>
      match Shows(Header(FindBlock(p.queue, op.id).value.text), NewStatus(p, op), op.id)
      case Some(read) => Attempt(read) == Attempt(Row(p, op.id).value)
      case None => false
  }

  /** Whether an operation on another task spares a row: only the worktree of a capture can hold a
      line that starts with the row's heading. */
  predicate SparesRow(op: Op, id: string) { op.Capture? ==> !HeadsLine(op.worktree, Wanted(id)) }

  /** Names that hide neither a counter nor a status keyword nor a line break. */
  predicate PlainNames(op: Op)
    requires op.Capture?
  {
    && '\n' !in op.worktree && NoCounter(op.batch) && NoCounter(op.worktree) && NoCounter(op.branch)
    && !Contains(CaptureHead(op.batch, op.worktree, op.branch), LOWER_STATUS)
  }

  lemma CaptureHeadOneLine(batch: string, worktree: string, branch: string)
    requires '\n' !in batch && '\n' !in worktree && '\n' !in branch
    ensures '\n' !in CaptureHead(batch, worktree, branch)
  {}

  lemma PatchHeadOneLine(state: TaskState, reason: Option<string>)
    ensures '\n' !in PatchHead(state, reason)
  {
    LiteralChars(state);
    if reason.Some? {
      CompactChars(reason.value);
      ReasonOneLine(Literal(state), SanitizeReason(reason.value));
    }
  }

  lemma ReasonOneLine(word: string, text: string)
    requires '\n' !in word && '\n' !in text
    ensures '\n' !in word + " · причина=" + text
  {}

  lemma WithAttemptOneLine(head: string, attempt: Option<nat>)
    requires '\n' !in head
    ensures '\n' !in WithAttempt(head, attempt)
  {
    if attempt.Some? { BehindChars(attempt.value); }
  }

  /** The first write of a capture with plain names keeps the counter. */
  lemma CaptureCounter(p: Plane, op: Op)
    requires op.Capture? && IsTaskId(op.id) && PlainNames(op) && Writes(p, op) != []
    ensures Counter(Writes(p, op)[0], op.id) == Counter(p, op.id) && RowState(Writes(p, op)[0], op.id) == Some(Working)
  {
    var head, prior := CaptureHead(op.batch, op.worktree, op.branch), Attempt(Row(p, op.id).value);
    AttemptBounded(Row(p, op.id).value);
    CaptureHeadOneLine(op.batch, op.worktree, op.branch);
    NoKeywordBehind(head, prior);
    CaptureKeepsCounter(op.batch, op.worktree, op.branch, prior);
    RowRewritten(p, op.id, WithAttempt(head, prior));
  }

  lemma LiteralCounter(p: Plane, id: string, state: TaskState, attempt: Option<nat>)
    requires IsTaskId(id) && FindBlock(p.queue, id).Ok? && (attempt.Some? ==> attempt.value <= MAX_U32)
    ensures var t := Rewrite(p, id, WithAttempt(Literal(state), attempt));
            Counter(t, id) == Some(attempt) && RowState(t, id) == Some(state)
  {
    LiteralNoKeyword(state);
    LiteralChars(state);
    NoKeywordBehind(Literal(state), attempt);
    LiteralStatus(state, attempt);
    RowRewritten(p, id, WithAttempt(Literal(state), attempt));
  }

  lemma CutIsWrite(p: Plane, op: Op, k: nat)
    ensures Cut(p, op, k) == p || Cut(p, op, k) in Writes(p, op)
  {}

  lemma CaptureQueues(p: Plane, op: Op)
    requires op.Capture?
    ensures forall t | t in Writes(p, op) :: t.queue == Writes(p, op)[0].queue
  {}

  lemma DescriptorOpQueues(p: Plane, op: Op)
    requires op.PatchDescriptor? || op.RemoveUncaptured? || op.RemoveTerminal?
    ensures forall t | t in Writes(p, op) :: t.queue == p.queue
  {}

  lemma SameQueue(p: Plane, t: Plane, id: string)
    requires t.queue == p.queue
    ensures Counter(t, id) == Counter(p, id) && RowState(t, id) == RowState(p, id) && Row(t, id) == Row(p, id)
  {}

  lemma RowIsSeen(t: Plane, id: string)
    ensures Row(t, id) == match Seen(t.queue, id) case Ok(v) => Some(v.1) case Err(_) => None
  {}

  /** What a row shows once it is rewritten, whatever the status. */
  lemma RowShows(p: Plane, id: string, status: string)
    requires IsTaskId(id) && FindBlock(p.queue, id).Ok?
    ensures Row(Rewrite(p, id, status), id) == Shows(Header(FindBlock(p.queue, id).value.text), status, id)
  {
    RewriteThenShow(p.queue, id, FindBlock(p.queue, id).value, status);
    RowIsSeen(Rewrite(p, id, status), id);
  }

  /** An operation, wherever it is cut, leaves the counter of its row as it was exactly if it had
      not yet written the row, or the row still shows that counter. */
  lemma OwnCounter(p: Plane, op: Op, k: nat)
    requires IsTaskId(op.id)
    ensures Counter(Cut(p, op, k), op.id) == Counter(p, op.id) <==> k == 0 || Writes(p, op) == [] || KeepsCounter(p, op)
  {
    var t := Cut(p, op, k);
    CutIsWrite(p, op, k);
    if k > 0 && Writes(p, op) != [] {
      assert t in Writes(p, op);
      if WritesRow(op) {
        RowWritten(p, op);
        RowShows(p, op.id, NewStatus(p, op));
        SameQueue(Rewrite(p, op.id, NewStatus(p, op)), t, op.id);
      } else {
        OwnWrite(p, op, t);
      }
    }
  }

  lemma OwnWrite(p: Plane, op: Op, t: Plane)
    requires IsTaskId(op.id) && !WritesRow(op) && t in Writes(p, op)
    ensures Counter(t, op.id) == Counter(p, op.id)
  {
    if op.Reanchor? {
      ReanchorCounter(p, op.id, op.id);
    } else {
      DescriptorOpQueues(p, op);
      SameQueue(p, t, op.id);
    }
  }

  /** Which single-line statuses keep the counter: those that read back to it, if the row's header
      has the lower-case keyword or the status does not; what hides in their names is told by
      `StatusText`. */
  lemma OneLineCounter(p: Plane, op: Op)
    requires WritesRow(op) && Writes(p, op) != [] && '\n' !in NewStatus(p, op) && StateOf(NewStatus(p, op)).Some?
    requires Contains(Header(FindBlock(p.queue, op.id).value.text), LOWER_STATUS) || !Contains(NewStatus(p, op), LOWER_STATUS)
    ensures KeepsCounter(p, op) <==> Attempt(NewStatus(p, op)) == Attempt(Row(p, op.id).value)
  {
    OneLineShows(Header(FindBlock(p.queue, op.id).value.text), NewStatus(p, op), op.id);
  }

  lemma OneLineShows(header: string, status: string, id: string)
    requires '\n' !in status && StateOf(status).Some? && (Contains(header, LOWER_STATUS) || !Contains(status, LOWER_STATUS))
    ensures Shows(header, status, id) == Some(Trim(status)) && Attempt(Trim(status)) == Attempt(status)
  {
    OnlyLine(status);
    VisibleState(status);
    TrimmedAttempt(status);
    NoHeads(status, Wanted(id));
  }

  lemma VisibleState(status: string)
    ensures StateOf(status).Some? ==> Trim(status) != ""
  {
    TrimEndState(TrimStart(status));
    TrimStartState(status);
    BlankHasNoState(Trim(status));
  }

  lemma NoHeads(s: string, pattern: string)
    requires '\n' !in s
    ensures !HeadsLine(s, pattern)
  {}

  /** A return keeps the counter exactly if it is given the one the row shows. */
  lemma ReturnKeeps(p: Plane, op: Op)
    requires op.ReturnOrphaned? && Writes(p, op) != [] && (op.attempt.Some? ==> op.attempt.value <= MAX_U32)
    ensures KeepsCounter(p, op) <==> Counter(p, op.id) == Some(op.attempt)
  {
    LiteralNoKeyword(NotStarted);
    LiteralChars(NotStarted);
    NoKeywordBehind(Literal(NotStarted), op.attempt);
    LiteralStatus(NotStarted, op.attempt);
    OneLineCounter(p, op);
  }

  /** A patch of the row that does not escalate keeps the counter exactly if its reason hides no
      other, unless the row's header has only the capitalised keyword and the reason brings the
      other one. */
  lemma PatchKeeps(p: Plane, op: Op)
    requires op.PatchQueue? && Writes(p, op) != [] && op.state != Escalated
    requires Contains(Header(FindBlock(p.queue, op.id).value.text), LOWER_STATUS) || !Contains(NewStatus(p, op), LOWER_STATUS)
    ensures var text, prior := SanitizeReason(if op.reason.Some? then op.reason.value else ""), Attempt(Row(p, op.id).value);
            KeepsCounter(p, op) <==>
              op.state != Conflict || op.reason.None? || NoCounter(text) || ParseU32(FirstWith(Segments(text)[1..], ATTEMPT).value) == prior
  {
    var prior := Attempt(Row(p, op.id).value);
    AttemptBounded(Row(p, op.id).value);
    PatchHeadOneLine(op.state, op.reason);
    WithAttemptOneLine(PatchHead(op.state, op.reason), prior);
    PatchKeepsCounter(op.state, op.reason, prior);
    OneLineCounter(p, op);
  }

  /** A capture into a one-line worktree keeps the counter exactly if no name it records hides
      another, again but for a keyword in a name. */
  lemma CaptureKeeps(p: Plane, op: Op)
    requires op.Capture? && Writes(p, op) != [] && '\n' !in op.worktree
    requires Contains(Header(FindBlock(p.queue, op.id).value.text), LOWER_STATUS) || !Contains(NewStatus(p, op), LOWER_STATUS)
    ensures var prior, hidden := Attempt(Row(p, op.id).value), Hidden(op.batch, op.worktree, op.branch);
            KeepsCounter(p, op) <==> hidden.None? || ParseU32(hidden.value) == prior
  {
    var prior := Attempt(Row(p, op.id).value);
    AttemptBounded(Row(p, op.id).value);
    CaptureHeadOneLine(op.batch, op.worktree, op.branch);
    WithAttemptOneLine(CaptureHead(op.batch, op.worktree, op.branch), prior);
    CaptureKeepsCounter(op.batch, op.worktree, op.branch, prior);
    OneLineCounter(p, op);
  }

  /** Re-anchoring keeps every counter, and leaves other rows as they are. */
  lemma ReanchorCounter(p: Plane, id: string, other: string)
    requires IsTaskId(id) && IsTaskId(other)
    ensures forall t | t in ReanchorWrites(p, id) :: Counter(t, other) == Counter(p, other)
  {
    forall t | t in ReanchorWrites(p, id) ensures Counter(t, other) == Counter(p, other) {
      ReanchorQueues(p, id, t);
      var attempt := Attempt(Row(p, id).value);
      var done := Rewrite(p, id, WithAttempt(Literal(Ready), attempt));
      AttemptBounded(Row(p, id).value);
      LiteralCounter(p, id, Ready, attempt);
      if other != id {
        LiteralChars(Ready);
        WithAttemptOneLine(Literal(Ready), attempt);
        OtherRowStays(p, id, WithAttempt(Literal(Ready), attempt), other);
      }
      SameQueue(if t.queue == p.queue then p else done, t, other);
    }
  }

  lemma ReanchorQueues(p: Plane, id: string, t: Plane)
    requires IsTaskId(id) && t in ReanchorWrites(p, id)
    ensures FindBlock(p.queue, id).Ok?
    ensures t.queue == p.queue || t.queue == Rewrite(p, id, WithAttempt(Literal(Ready), Attempt(Row(p, id).value))).queue
  {}

  lemma ReturnSpares(p: Plane, op: Op, other: string)
    requires op.ReturnOrphaned? && IsTaskId(op.id) && IsTaskId(other) && other != op.id
    ensures forall t | t in Writes(p, op) :: Row(t, other) == Row(p, other)
  {
    if Writes(p, op) != [] {
      LiteralChars(NotStarted);
      WithAttemptOneLine(Literal(NotStarted), op.attempt);
      OtherRowStays(p, op.id, WithAttempt(Literal(NotStarted), op.attempt), other);
    }
  }

  /** A line of the status a capture writes starts with a heading exactly if one of its worktree
      does. */
  lemma CaptureHeads(batch: string, worktree: string, branch: string, attempt: Option<nat>, id: string)
    requires '\n' !in batch && '\n' !in branch && IsTaskId(id)
    ensures HeadsLine(WithAttempt(CaptureHead(batch, worktree, branch), attempt), Wanted(id)) <==> HeadsLine(worktree, Wanted(id))
  {
    var front, tail := "в работе · батч=" + batch + " · worktree=", WithAttempt(" · ветка=" + branch, attempt);
    CaptureAround(batch, worktree, branch, attempt);
    CaptureTail(branch, attempt);
    assert '\n' !in "в работе · батч=" && '\n' !in " · worktree=";
    HeadsBetween(front, worktree, tail, id);
  }

  lemma CaptureAround(batch: string, worktree: string, branch: string, attempt: Option<nat>)
    ensures WithAttempt(CaptureHead(batch, worktree, branch), attempt)
            == "в работе · батч=" + batch + " · worktree=" + worktree + WithAttempt(" · ветка=" + branch, attempt)
  {
    var front := "в работе · батч=" + batch + " · worktree=" + worktree;
    Assoc(front, " · ветка=", branch);
    if attempt.Some? {
      Assoc(front, " · ветка=" + branch, " · попытка=");
      Assoc(front, " · ветка=" + branch + " · попытка=", PrintNat(attempt.value));
    }
  }

  lemma CaptureTail(branch: string, attempt: Option<nat>)
    requires '\n' !in branch
    ensures var tail := WithAttempt(" · ветка=" + branch, attempt); '\n' !in tail && |tail| > 1 && tail[0] == ' ' && tail[1] == DOT
  {
    assert '\n' !in " · ветка=";
    WithAttemptOneLine(" · ветка=" + branch, attempt);
  }

  /** The first write of an operation may change what another row shows only if a worktree brings a
      second heading of that row along: then the row is ambiguous. */
  lemma OtherRowWritten(p: Plane, op: Op, other: string)
    requires WritesRow(op) && Writes(p, op) != [] && IsTaskId(other) && other != op.id
    ensures IsTaskId(op.id) && FindBlock(p.queue, op.id).Ok?
    ensures var t := Rewrite(p, op.id, NewStatus(p, op));
            && (SparesRow(op, other) ==> Row(t, other) == Row(p, other))
            && (!SparesRow(op, other) && Row(p, other).Some? ==> Row(t, other) == None)
  {
    RowWritten(p, op);
    var status := NewStatus(p, op);
    RewriteThenOthers(p.queue, op.id, FindBlock(p.queue, op.id).value, status, other);
    match op
    case Capture(_, batch, branch, worktree, _) => CaptureHeads(batch, worktree, branch, Attempt(Row(p, op.id).value), other);
    case PatchQueue(_, state, reason) =>
      PatchHeadOneLine(state, reason);
      WithAttemptOneLine(PatchHead(state, reason), Attempt(Row(p, op.id).value));
      NoHeads(status, Wanted(other));
    case ReturnOrphaned(_, attempt) =>
      LiteralChars(NotStarted);
      WithAttemptOneLine(Literal(NotStarted), attempt);
      NoHeads(status, Wanted(other));
  }

  /** An operation on one task spares the counter of another, unless it is a capture whose worktree
      holds a line that starts with the other task's heading; then a counter that could be read is
      lost as soon as the queue is written. */
  lemma OtherCounter(p: Plane, op: Op, k: nat, other: string)
    requires IsTaskId(other) && other != op.id
    ensures SparesRow(op, other) ==> Counter(Cut(p, op, k), other) == Counter(p, other)
    ensures Counter(p, other).Some? ==>
              (Counter(Cut(p, op, k), other) == Counter(p, other) <==> k == 0 || Writes(p, op) == [] || SparesRow(op, other))
  {
    var t := Cut(p, op, k);
    CutIsWrite(p, op, k);
    if k > 0 && Writes(p, op) != [] {
      assert t in Writes(p, op);
      if WritesRow(op) {
        RowWritten(p, op);
        OtherRowWritten(p, op, other);
        SameQueue(Rewrite(p, op.id, NewStatus(p, op)), t, other);
      } else if op.Reanchor? {
        ReanchorCounter(p, op.id, other);
      } else {
        DescriptorOpQueues(p, op);
        SameQueue(p, t, other);
      }
    }
  }

  /** An operation and how many of its writes were done. */
  type Event = (Op, nat)

  function After(p: Plane, events: seq<Event>): Plane
    decreases |events|
  {
    if events == [] then p else After(Cut(p, events[0].0, events[0].1), events[1..])
  }

  /** Every operation of a run spares the counter of one row. */
  predicate Spares(p: Plane, events: seq<Event>, id: string)
    decreases |events|
  {
    events == [] ||
    (&& (if events[0].0.id == id then events[0].1 == 0 || KeepsCounter(p, events[0].0) else SparesRow(events[0].0, id))
     && Spares(Cut(p, events[0].0, events[0].1), events[1..], id))
  }

  /** Over every run of cut or completed operations that spare it, the retry counter of a row stays
      what it was. */
  lemma {:induction false} CounterOverRuns(p: Plane, events: seq<Event>, id: string)
    requires IsTaskId(id) && Spares(p, events, id)
    ensures Counter(After(p, events), id) == Counter(p, id)
    decreases |events|
  {
    if events != [] {
      var (op, k) := events[0];
      if op.id == id { OwnCounter(p, op, k); } else { OtherCounter(p, op, k, id); }
      CounterOverRuns(Cut(p, op, k), events[1..], id);
    }
  }

  // ---------------------------------------------------------------------------------------
  // A capture cut between its two writes
  // ---------------------------------------------------------------------------------------

  /** The two recovery operations, after a capture that reached the queue but not the descriptor. */
  function Repaired(p: Plane, capture: Op, active: set<string>): Plane
    requires capture.Capture?
  {
    var cut := Cut(p, capture, 1);
    var removed := Cut(cut, RemoveUncaptured(capture.id, active), 1);
    Cut(removed, ReturnOrphaned(capture.id, match Counter(removed, capture.id) case Some(c) => c case None => None), 1)
  }

  /** A capture that died between its two writes is undone by recovery: the row is eligible again
      with the counter it had, the descriptor is gone, and nothing else changed. */
  lemma CutCaptureRepaired(p: Plane, capture: Op, active: set<string>, other: string)
    requires capture.Capture? && IsTaskId(capture.id) && Writes(p, capture) != [] && PlainNames(capture)
    requires StateIn(p, capture.id).Some? && StateIn(p, capture.id).value in {NotStarted, Working, InReview} && capture.id !in active
    requires IsTaskId(other) && other != capture.id
    ensures var t, id := Repaired(p, capture, active), capture.id;
            && RowState(t, id) == Some(NotStarted) && Counter(t, id) == Counter(p, id)
            && t.descriptors == p.descriptors - {id} && Row(t, other) == Row(p, other)
  {
    var id := capture.id;
    var cut := Writes(p, capture)[0];
    CaptureCounter(p, capture);
    NoHeads(capture.worktree, Wanted(other));
    OtherRowWritten(p, capture, other);
    RowWritten(p, capture);
    SameQueue(Rewrite(p, id, NewStatus(p, capture)), cut, other);
    CutStaysCaptured(p, capture, cut);
    var removed := Plane(cut.queue, cut.descriptors - {id});
    RemovedNext(cut, id, active);
    SameQueue(cut, removed, id);
    SameQueue(cut, removed, other);
    OrphanReturned(removed, id, other);
  }

  lemma RemovedNext(cut: Plane, id: string, active: set<string>)
    requires IsTaskId(id) && MayLoseDescriptor(cut, id) && id !in active
    requires StateIn(cut, id).Some? && StateIn(cut, id).value in {NotStarted, Working, InReview}
    ensures Cut(cut, RemoveUncaptured(id, active), 1) == Plane(cut.queue, cut.descriptors - {id})
  {}

  /** Returning an orphaned row with the counter it shows. */
  lemma OrphanReturned(p: Plane, id: string, other: string)
    requires IsTaskId(id) && IsTaskId(other) && other != id && id !in p.descriptors && RowState(p, id) == Some(Working)
    ensures Counter(p, id).Some?
    ensures var t := Cut(p, ReturnOrphaned(id, Counter(p, id).value), 1);
            && RowState(t, id) == Some(NotStarted) && Counter(t, id) == Counter(p, id)
            && t.descriptors == p.descriptors && Row(t, other) == Row(p, other)
  {
    var attempt := Attempt(Row(p, id).value);
    var op := ReturnOrphaned(id, attempt);
    AttemptBounded(Row(p, id).value);
    LiteralCounter(p, id, NotStarted, attempt);
    ReturnSpares(p, op, other);
    assert Writes(p, op) == [Rewrite(p, id, WithAttempt(Literal(NotStarted), attempt))];
  }

  lemma CutStaysCaptured(p: Plane, capture: Op, cut: Plane)
    requires capture.Capture? && Writes(p, capture) != [] && cut == Writes(p, capture)[0]
    requires RowState(cut, capture.id) == Some(Working)
    ensures cut.descriptors == p.descriptors && Cut(p, capture, 1) == cut && MayLoseDescriptor(cut, capture.id)
  {}

  // ---------------------------------------------------------------------------------------
  // Descriptors: what one step can do to them
  // ---------------------------------------------------------------------------------------

  /** The patch with which an operation reaches the descriptor of a task, when it gets that far. */
  function Reaching(p: Plane, op: Op, k: nat, id: string): Option<Patch> {
    match op
    case Capture(own, batch, branch, worktree, wave) =>
      if own == id && k >= 2 && |Writes(p, op)| == 2 then Some(CapturePatch(batch, branch, worktree, wave)) else None
    case PatchDescriptor(own, patch) => if own == id && k >= 1 && Writes(p, op) != [] then Some(patch) else None
    case _ => None
  }

  /** Apart from a patch, a step leaves a descriptor as it is, moves it from merged to ready, or
      removes it before it is published or after it is terminal. */
  predicate OtherwiseKept(p: Plane, t: Plane, id: string) {
    || (id !in t.descriptors && StateIn(p, id) != Some(Published))
    || (id in t.descriptors && id in p.descriptors
        && (|| t.descriptors[id] == p.descriptors[id]
            || (StateIn(p, id) == Some(Merged) && t.descriptors[id] == SetLineField(p.descriptors[id], STATUS, Literal(Ready)))))
  }

  predicate PatchedWith(p: Plane, t: Plane, id: string, patch: Patch) {
    && id in p.descriptors && Patched(p.descriptors[id], patch).Some?
    && t.descriptors == p.descriptors[id := Patched(p.descriptors[id], patch).value]
  }

  lemma SameDescriptors(p: Plane, t: Plane, id: string)
    requires t.descriptors == p.descriptors
    ensures OtherwiseKept(p, t, id)
  {}

  lemma PatchWritten(p: Plane, own: string, patch: Patch, id: string)
    requires PatchWrites(p, own, patch) != []
    ensures |PatchWrites(p, own, patch)| == 1
    ensures var t := PatchWrites(p, own, patch)[0];
            PatchedWith(p, t, own, patch) && t.queue == p.queue && (own != id ==> OtherwiseKept(p, t, id))
  {}

  /** A capture: first the row, then the patch. */
  lemma CaptureWritten(p: Plane, op: Op)
    requires op.Capture? && Writes(p, op) != []
    ensures |Writes(p, op)| <= 2 && Writes(p, op)[0].descriptors == p.descriptors
    ensures |Writes(p, op)| == 2 ==>
      && OkBatch(op.batch) && OkRef(op.branch)
      && PatchedWith(p, Writes(p, op)[1], op.id, CapturePatch(op.batch, op.branch, op.worktree, op.wave))
  {
    var captured := Writes(p, op)[0];
    if PatchWrites(captured, op.id, CapturePatch(op.batch, op.branch, op.worktree, op.wave)) != [] {
      PatchWritten(captured, op.id, CapturePatch(op.batch, op.branch, op.worktree, op.wave), op.id);
    }
  }

  lemma ReanchorDescriptors(p: Plane, own: string, id: string)
    requires IsTaskId(own)
    ensures forall t | t in ReanchorWrites(p, own) :: OtherwiseKept(p, t, id)
  {}

  lemma QueueOpDescriptors(p: Plane, op: Op)
    requires op.PatchQueue? || op.ReturnOrphaned?
    ensures forall t | t in Writes(p, op) :: t.descriptors == p.descriptors
  {}

  lemma RemovalKept(p: Plane, op: Op, id: string)
    requires op.RemoveUncaptured? || op.RemoveTerminal?
    ensures forall t | t in Writes(p, op) :: OtherwiseKept(p, t, id)
  {}

  lemma CaptureReaches(p: Plane, op: Op, k: nat, id: string)
    requires op.Capture?
    ensures match Reaching(p, op, k, id) case Some(patch) => PatchedWith(p, Cut(p, op, k), id, patch) case None => OtherwiseKept(p, Cut(p, op, k), id)
  {
    var writes := Writes(p, op);
    if k >= 2 && |writes| == 2 {
      CaptureWritten(p, op);
      LastOfTwo(p, writes, k);
      OtherPatched(p, writes[1], op, id);
    } else {
      if writes != [] { CaptureWritten(p, op); }
      LastOfTwo(p, writes, k);
      SameDescriptors(p, Cut(p, op, k), id);
    }
  }

  lemma LastOfTwo(p: Plane, writes: seq<Plane>, k: nat)
    requires |writes| <= 2
    ensures LastWritten(p, writes, k) == if k == 0 || writes == [] then p else if k == 1 || |writes| == 1 then writes[0] else writes[1]
  {}

  lemma OtherPatched(p: Plane, t: Plane, op: Op, id: string)
    requires op.Capture? && PatchedWith(p, t, op.id, CapturePatch(op.batch, op.branch, op.worktree, op.wave))
    ensures op.id != id ==> OtherwiseKept(p, t, id)
  {}

  /** What a step that ends after `k` writes has done to one descriptor. */
  lemma StepReaches(p: Plane, op: Op, k: nat, id: string)
    ensures match Reaching(p, op, k, id) case Some(patch) => PatchedWith(p, Cut(p, op, k), id, patch) case None => OtherwiseKept(p, Cut(p, op, k), id)
  {
    var t := Cut(p, op, k);
    CutIsWrite(p, op, k);
    SameDescriptors(p, p, id);
    match op
    case Capture(_, _, _, _, _) => CaptureReaches(p, op, k, id);
    case PatchDescriptor(own, patch) => if PatchWrites(p, own, patch) != [] { PatchWritten(p, own, patch, id); }
    case Reanchor(own) => if IsTaskId(own) { ReanchorDescriptors(p, own, id); }
    case RemoveUncaptured(_, _) => RemovalKept(p, op, id);
    case RemoveTerminal(_) => RemovalKept(p, op, id);
    case _ =>
      QueueOpDescriptors(p, op);
      SameDescriptors(p, t, id);
  }

  lemma ReadyReads(text: string)
    ensures var t := SetLineField(text, STATUS, Literal(Ready));
            && (DescriptorState(t) == DescriptorState(text) || DescriptorState(t) == Some(Ready))
            && DescriptorRisk(t) == DescriptorRisk(text)
  {
    StatusSet(text, Ready);
  }

  /** No capture touches a published descriptor, whatever its worktree. */
  lemma CaptureLeavesPublished(p: Plane, op: Op, k: nat, id: string)
    requires op.Capture? && StateIn(p, id) == Some(Published)
    ensures id in Cut(p, op, k).descriptors && Cut(p, op, k).descriptors[id] == p.descriptors[id]
  {
    StepReaches(p, op, k, id);
    match Reaching(p, op, k, id)
    case Some(patch) => PublishedMayBecome(p.descriptors[id], patch);
    case None =>
  }

  /** The risk a capture brings along stands in a continuation line of its worktree, and is read if
      no risk stands ahead of the worktree's line. */
  lemma CaptureBrings(text: string, batch: string, branch: string, worktree: string, wave: nat)
    requires OkBatch(batch) && OkRef(branch)
    ensures Brought(text, CapturePatch(batch, branch, worktree, wave), RISK) == Brings(Lines(text), WORKTREE, worktree, RISK)
    ensures !Elevates(text, CapturePatch(batch, branch, worktree, wave))
  {
    var patch := CapturePatch(batch, branch, worktree, wave);
    var t1 := SetLineField(text, STATUS, Literal(Working));
    var a := SetLineField(t1, BATCH, batch);
    LiteralChars(Working);
    OneLineBrings(batch);
    OneLineBrings(branch);
    AheadOfWorktree(text, STATUS, Literal(Working));
    AheadOfWorktree(t1, BATCH, batch);
    AheadOfWorktree(a, BRANCH, branch);
  }

  lemma AheadOfWorktree(text: string, field: string, value: string)
    requires field in {STATUS, BATCH, BRANCH} && '\n' !in value
    ensures FieldIn(Ahead(Lines(SetLineField(text, field, value)), WORKTREE), RISK) == FieldIn(Ahead(Lines(text), WORKTREE), RISK)
  {
    NamesAreKeys();
    NamesOneLine();
    NamesApart(RISK);
    LiteralChars(Working);
    Differ(field, WORKTREE, 0);
    AheadStays(text, field, value, WORKTREE, RISK);
  }

  // ---------------------------------------------------------------------------------------
  // Published stays published until done
  // ---------------------------------------------------------------------------------------

  /** Whether a step leaves a published descriptor published or done, told before it: only a patch
      whose names bring another status along does not. */
  predicate SparesPublished(p: Plane, op: Op, k: nat, id: string) {
    match Reaching(p, op, k, id) case Some(patch) => id in p.descriptors && KeepsPublished(p.descriptors[id], patch) case None => true
  }

  lemma StepPublished(p: Plane, op: Op, k: nat, id: string)
    requires StateIn(p, id) == Some(Published)
    ensures PublishedOrDone(StateIn(Cut(p, op, k), id)) <==> SparesPublished(p, op, k, id)
  {
    StepReaches(p, op, k, id);
    match Reaching(p, op, k, id)
    case Some(patch) => PublishedStays(p.descriptors[id], patch);
    case None =>
  }

  /** A descriptor that is published at some point of a run is published at every later point up
      to the first at which it is done. */
  predicate PublishedUntilDone(p: Plane, events: seq<Event>, id: string)
    decreases |events|
  {
    || StateIn(p, id) == Some(Done)
    || (StateIn(p, id) == Some(Published)
        && (events == [] || PublishedUntilDone(Cut(p, events[0].0, events[0].1), events[1..], id)))
  }

  /** No step up to the first at which the descriptor is done brings another status along. */
  predicate SparedUntilDone(p: Plane, events: seq<Event>, id: string)
    decreases |events|
  {
    || StateIn(p, id) == Some(Done) || events == []
    || (SparesPublished(p, events[0].0, events[0].1, id) && SparedUntilDone(Cut(p, events[0].0, events[0].1), events[1..], id))
  }

  /** Over every run, cut wherever it may be, a published descriptor stays published until it is
      done, exactly if no patch brings another status along. */
  lemma {:induction false} PublishedOverRuns(p: Plane, events: seq<Event>, id: string)
    requires StateIn(p, id) == Some(Published)
    ensures PublishedUntilDone(p, events, id) <==> SparedUntilDone(p, events, id)
    decreases |events|
  {
    if events != [] {
      var (op, k) := events[0];
      StepPublished(p, op, k, id);
      if StateIn(Cut(p, op, k), id) == Some(Published) { PublishedOverRuns(Cut(p, op, k), events[1..], id); }
    }
  }

  /** Runs in which no name in a descriptor patch of the task holds a status line spare it; captures
      may hold any. */
  lemma {:induction false} SilentRuns(p: Plane, events: seq<Event>, id: string)
    requires StateIn(p, id) == Some(Published)
    requires forall e | e in events :: e.0.PatchDescriptor? && e.0.id == id ==> SilentNames(e.0.patch, STATUS)
    ensures SparedUntilDone(p, events, id) && PublishedUntilDone(p, events, id)
    decreases |events|
  {
    if events != [] {
      var (op, k) := events[0];
      assert events[0] in events;
      SilentSpares(p, op, k, id);
      StepPublished(p, op, k, id);
      if StateIn(Cut(p, op, k), id) == Some(Published) { SilentRuns(Cut(p, op, k), events[1..], id); }
    }
  }

  lemma SilentSpares(p: Plane, op: Op, k: nat, id: string)
    requires StateIn(p, id) == Some(Published) && (op.PatchDescriptor? && op.id == id ==> SilentNames(op.patch, STATUS))
    ensures SparesPublished(p, op, k, id)
  {
    StepReaches(p, op, k, id);
    match Reaching(p, op, k, id)
    case Some(patch) =>
      PublishedMayBecome(p.descriptors[id], patch);
      SilentKeeps(p.descriptors[id], patch, STATUS);
    case None =>
  }

  // ---------------------------------------------------------------------------------------
  // Risk never falls
  // ---------------------------------------------------------------------------------------

  /** Whether a step leaves the risk of a descriptor at least what it was, told before it. */
  predicate SparesRisk(p: Plane, op: Op, k: nat, id: string) {
    match Reaching(p, op, k, id) case Some(patch) => id in p.descriptors && KeepsRisk(p.descriptors[id], patch) case None => true
  }

  predicate RiskHolds(p: Plane, t: Plane, id: string) {
    id in t.descriptors ==> id in p.descriptors && AtLeast(RiskIn(t, id), RiskIn(p, id))
  }

  lemma StepRisk(p: Plane, op: Op, k: nat, id: string)
    ensures RiskHolds(p, Cut(p, op, k), id) <==> SparesRisk(p, op, k, id)
  {
    StepReaches(p, op, k, id);
    match Reaching(p, op, k, id)
    case Some(patch) => RiskStays(p.descriptors[id], patch);
    case None =>
      if id in p.descriptors { ReadyReads(p.descriptors[id]); }
  }

  /** A capture spares the risk exactly if no continuation line of its worktree brings a lower one
      along, or a risk stands ahead of the line it writes. */
  lemma CaptureRisk(p: Plane, op: Op, id: string)
    requires op.Capture? && op.id == id && |Writes(p, op)| == 2
    ensures id in p.descriptors
    ensures RiskHolds(p, Cut(p, op, 2), id) <==>
            match Brings(Lines(p.descriptors[id]), WORKTREE, op.worktree, RISK)
            case Some(v) => AtLeast(RiskOf(v), RiskIn(p, id)) case None => true
  {
    CaptureWritten(p, op);
    CaptureBrings(p.descriptors[id], op.batch, op.branch, op.worktree, op.wave);
    StepRisk(p, op, 2, id);
  }

  /** No step of a run lets the risk fall. */
  predicate RiskNeverFalls(p: Plane, events: seq<Event>, id: string)
    decreases |events|
  {
    events == [] ||
    (RiskHolds(p, Cut(p, events[0].0, events[0].1), id) && RiskNeverFalls(Cut(p, events[0].0, events[0].1), events[1..], id))
  }

  predicate RiskSpared(p: Plane, events: seq<Event>, id: string)
    decreases |events|
  {
    events == [] ||
    (SparesRisk(p, events[0].0, events[0].1, id) && RiskSpared(Cut(p, events[0].0, events[0].1), events[1..], id))
  }

  /** Over every run the risk of a descriptor never falls exactly if no value brings a lower one
      along; and then it is at the end at least what it was, if the descriptor is still there. */
  lemma {:induction false} RiskOverRuns(p: Plane, events: seq<Event>, id: string)
    ensures RiskNeverFalls(p, events, id) <==> RiskSpared(p, events, id)
    ensures RiskSpared(p, events, id) && id in After(p, events).descriptors ==>
              id in p.descriptors && AtLeast(RiskIn(After(p, events), id), RiskIn(p, id))
    decreases |events|
  {
    if events != [] {
      var (op, k) := events[0];
      StepRisk(p, op, k, id);
      RiskOverRuns(Cut(p, op, k), events[1..], id);
    }
  }

  /** Runs whose captures and patches hold no risk line in a name never lower a risk. */
  lemma {:induction false} SilentRisk(p: Plane, events: seq<Event>, id: string)
    requires forall e | e in events :: HoldsNoRisk(e.0)
    ensures RiskSpared(p, events, id) && RiskNeverFalls(p, events, id)
    decreases |events|
  {
    if events != [] {
      var (op, k) := events[0];
      assert events[0] in events;
      NoRiskSpares(p, op, k, id);
      StepRisk(p, op, k, id);
      SilentRisk(Cut(p, op, k), events[1..], id);
    }
  }

  predicate HoldsNoRisk(op: Op) {
    match op
    case Capture(_, _, _, worktree, _) => FieldIn(Continuation(worktree), RISK) == None
    case PatchDescriptor(_, patch) => SilentNames(patch, RISK)
    case _ => true
  }

  lemma NoRiskSpares(p: Plane, op: Op, k: nat, id: string)
    requires HoldsNoRisk(op)
    ensures SparesRisk(p, op, k, id)
  {
    StepReaches(p, op, k, id);
    match Reaching(p, op, k, id)
    case Some(patch) =>
      if op.Capture? {
        CaptureWritten(p, op);
        OneLineSilent(patch.batch, RISK);
        OneLineSilent(patch.branch, RISK);
      }
      SilentKeeps(p.descriptors[id], patch, RISK);
    case None =>
  }

  // ---------------------------------------------------------------------------------------
  // Values that bring a field along
  // ---------------------------------------------------------------------------------------

  /** A line as the engine writes a field of one word. */
  lemma FieldLine(key: string, word: string, other: string)
    requires IsKey(key) && '\n' !in key && '\n' !in word && word != "" && !IsWhitespace(word[|word| - 1]) && Trim(word) == word
    ensures var line := key + " " + word;
            && IsLine(line) && StartsWith(line, key) && StartsWith(Trim(line), key) && Trim(Trim(line)[|key|..]) == word
            && (Apart(key, other) ==> !StartsWith(Trim(line), other) && !StartsWith(line, other))
  {
    WrittenLine(key, word);
    var line := key + " " + word;
    assert line[|line| - 1] == word[|word| - 1];
    StartsTrimmed(line, key, other);
    if StartsWith(line, other) { Prefixes(line, key, other); }
  }

  lemma WorktreeLine(other: string)
    requires other == STATUS || other == RISK
    ensures var line := WORKTREE + " a";
            IsLine(line) && StartsWith(line, WORKTREE) && !StartsWith(line, other) && !StartsWith(Trim(line), other)
  {
    NamesAreKeys();
    NamesOneLine();
    NamesApart(other);
    assert WORKTREE + " a" == WORKTREE + " " + "a";
    FieldLine(WORKTREE, "a", other);
  }

  lemma StatusLine(state: TaskState, other: string)
    requires other == WORKTREE || other == RISK
    ensures var line := STATUS + " " + Literal(state);
            && IsLine(line) && StartsWith(line, STATUS) && StartsWith(Trim(line), STATUS) && StateOf(Trim(Trim(line)[|STATUS|..])) == Some(state)
            && !StartsWith(line, other) && !StartsWith(Trim(line), other)
  {
    NamesAreKeys();
    NamesApart(STATUS);
    NamesApart(RISK);
    LiteralPlain(state);
    LiteralChars(state);
    LiteralIsPlain(state);
    FieldLine(STATUS, Literal(state), other);
  }

  lemma RiskLine(risk: Risk, other: string)
    requires other == WORKTREE || other == STATUS
    ensures var line := RISK + " " + RiskToken(risk);
            && IsLine(line) && StartsWith(line, RISK) && StartsWith(Trim(line), RISK) && RiskOf(Trim(Trim(line)[|RISK|..])) == Some(risk)
            && !StartsWith(line, other) && !StartsWith(Trim(line), other)
  {
    NamesAreKeys();
    NamesApart(STATUS);
    NamesApart(RISK);
    LiteralChars(Done);
    TokenReads(risk);
    FieldLine(RISK, RiskToken(risk), other);
  }

  lemma TokenReads(risk: Risk)
    ensures var token := RiskToken(risk);
            '\n' !in token && token != "" && !IsWhitespace(token[|token| - 1]) && Trim(token) == token && RiskOf(token) == Some(risk)
  {
    var token := RiskToken(risk);
    TokenIsWord(risk);
    assert token[0] in token && token[|token| - 1] in token && token + "" == token;
    TrimEndKeeps(token, "");
    WordEnds(token, "");
  }

  /** The descriptor of the example: a status, a worktree and a risk. */
  function Example(): seq<string> { [STATUS + " " + Literal(NotStarted), WORKTREE + " a", RISK + " " + RiskToken(High)] }

  lemma ExampleReads()
    ensures var text := Unlines(Example());
            && Lines(text) == Example() && DescriptorState(text) == Some(NotStarted) && DescriptorRisk(text) == Some(High)
            && FieldIn(Ahead(Lines(text), WORKTREE), RISK) == None
  {
    var status, worktree, risk := STATUS + " " + Literal(NotStarted), WORKTREE + " a", RISK + " " + RiskToken(High);
    StatusLine(NotStarted, RISK);
    StatusLine(NotStarted, WORKTREE);
    WorktreeLine(RISK);
    RiskLine(High, STATUS);
    LinesOfUnlines(Example());
    FieldHere(status, [worktree, risk], STATUS);
    ThirdReads(status, worktree, risk);
  }

  lemma ThirdReads(status: string, worktree: string, risk: string)
    requires !StartsWith(Trim(status), RISK) && !StartsWith(Trim(worktree), RISK) && StartsWith(Trim(risk), RISK)
    requires !StartsWith(status, WORKTREE) && StartsWith(worktree, WORKTREE)
    ensures FieldIn([status, worktree, risk], RISK) == Some(Trim(Trim(risk)[|RISK|..]))
    ensures FieldIn(Ahead([status, worktree, risk], WORKTREE), RISK) == None
  {
    FieldHere(risk, [], RISK);
    FieldSkips(worktree, [risk], RISK);
    FieldSkips(status, [worktree, risk], RISK);
    FieldSkips(status, [], RISK);
    assert [status, worktree, risk][1..] == [worktree, risk];
    assert Ahead([worktree, risk], WORKTREE) == [];
    assert [status] + [] == [status];
  }

  /** The worktree of a capture is not checked for line breaks. One with a risk line in it makes a
      high risk low. */
  lemma LoweredRisk()
    ensures var p := Plane(RowFor("T-1", LOWER_STATUS, Literal(NotStarted)), map["T-1" := Unlines(Example())]);
            var op := Capture("T-1", "B", "b", "a" + "\n" + (RISK + " " + RiskToken(Low)), 1);
            |Writes(p, op)| == 2 && RiskIn(p, "T-1") == Some(High) && RiskIn(Cut(p, op, 2), "T-1") == Some(Low)
  {
    var text, worktree := Unlines(Example()), "a" + "\n" + (RISK + " " + RiskToken(Low));
    var p := Plane(RowFor("T-1", LOWER_STATUS, Literal(NotStarted)), map["T-1" := text]);
    ExampleReads();
    ExampleRow();
    BringsLow(worktree);
    ExampleCaptured(p, worktree);
  }

  lemma ExampleRow()
    ensures IsTaskId("T-1") && FindBlock(RowFor("T-1", LOWER_STATUS, Literal(NotStarted)), "T-1").Ok?
    ensures StateOf(FindBlock(RowFor("T-1", LOWER_STATUS, Literal(NotStarted)), "T-1").value.status) == Some(NotStarted)
  {
    assert "T-1"[..2] == "T-" && "T-1"[2..] == "1";
    LiteralPlain(NotStarted);
    LiteralChars(NotStarted);
    LiteralNoKeyword(NotStarted);
    RowIsFound("T-1", LOWER_STATUS, Literal(NotStarted));
  }

  lemma BringsLow(worktree: string)
    requires worktree == "a" + "\n" + (RISK + " " + RiskToken(Low))
    ensures FieldIn(Continuation(worktree), RISK).Some? && RiskOf(FieldIn(Continuation(worktree), RISK).value) == Some(Low)
  {
    var line := RISK + " " + RiskToken(Low);
    RiskLine(Low, STATUS);
    ContinuationOf("a", line);
    LinesOfUnlines([line]);
  }

  lemma ExampleCaptured(p: Plane, worktree: string)
    requires IsTaskId("T-1") && RowState(p, "T-1") == Some(NotStarted) && p.descriptors == map["T-1" := Unlines(Example())]
    requires DescriptorState(Unlines(Example())) == Some(NotStarted) && DescriptorRisk(Unlines(Example())) == Some(High)
    requires FieldIn(Ahead(Lines(Unlines(Example())), WORKTREE), RISK) == None
    requires FieldIn(Continuation(worktree), RISK).Some? && RiskOf(FieldIn(Continuation(worktree), RISK).value) == Some(Low)
    ensures var op := Capture("T-1", "B", "b", worktree, 1);
            |Writes(p, op)| == 2 && RiskIn(p, "T-1") == Some(High) && RiskIn(Cut(p, op, 2), "T-1") == Some(Low)
  {
    var op := Capture("T-1", "B", "b", worktree, 1);
    NamesB();
    ExampleRisk(Unlines(Example()), worktree);
    BothWritten(p, op);
    CaptureWritten(p, op);
  }

  lemma ExampleRisk(text: string, worktree: string)
    requires DescriptorState(text) == Some(NotStarted) && FieldIn(Ahead(Lines(text), WORKTREE), RISK) == None
    requires FieldIn(Continuation(worktree), RISK).Some? && RiskOf(FieldIn(Continuation(worktree), RISK).value) == Some(Low)
    ensures var patch := CapturePatch("B", "b", worktree, 1);
            Patched(text, patch).Some? && DescriptorRisk(Patched(text, patch).value) == Some(Low)
  {
    NamesB();
    NotStartedTakes(text, CapturePatch("B", "b", worktree, 1));
    CaptureBrings(text, "B", "b", worktree, 1);
    PatchReads(text, CapturePatch("B", "b", worktree, 1));
  }

  lemma NotStartedTakes(text: string, patch: Patch)
    requires DescriptorState(text) == Some(NotStarted) && patch.state == Working && patch.risk.None? && patch.reviewSha.None?
    ensures Patched(text, patch).Some?
  {}

  lemma BothWritten(p: Plane, op: Op)
    requires op.Capture? && IsTaskId(op.id) && OkBatch(op.batch) && OkRef(op.branch) && RowState(p, op.id) == Some(NotStarted)
    requires op.id in p.descriptors && Patched(p.descriptors[op.id], CapturePatch(op.batch, op.branch, op.worktree, op.wave)).Some?
    ensures |Writes(p, op)| == 2
  {}

  lemma NamesB()
    ensures OkBatch("B") && OkRef("b")
  {
    assert "B"[..1][0] == 'B' && "b"[..1][0] == 'b';
    assert Trim("b") == "b" by {
      TrimEndKeeps("b", "");
      assert "b" + "" == "b";
    }
  }

  /** Nor does `patch_descriptor` check the names it is given. A worktree with a status line in it
      moves a published descriptor back. */
  lemma BrokenWorktree(queue: string)
    ensures var p := Plane(queue, map["T-1" := Unlines([WORKTREE + " a", STATUS + " " + Literal(Published)])]);
            var patch := Patch(Published, None, None, Some("a" + "\n" + (STATUS + " " + Literal(NotStarted))), None, None, None, None, None, None);
            && StateIn(p, "T-1") == Some(Published) && !KeepsPublished(p.descriptors["T-1"], patch)
            && StateIn(Cut(p, PatchDescriptor("T-1", patch), 1), "T-1") == Some(NotStarted)
  {
    var first, status, other := WORKTREE + " a", STATUS + " " + Literal(Published), STATUS + " " + Literal(NotStarted);
    var text, worktree := Unlines([first, status]), "a" + "\n" + other;
    var p := Plane(queue, map["T-1" := text]);
    var patch := Patch(Published, None, None, Some(worktree), None, None, None, None, None, None);
    assert IsTaskId("T-1") by { assert "T-1"[..2] == "T-" && "T-1"[2..] == "1"; }
    assert DescriptorState(text) == Some(Published) by { PublishedText(first, status); }
    BackToNotStarted(text, worktree, patch, first, status);
    PatchWritten(p, "T-1", patch, "T-1");
  }

  lemma BackToNotStarted(text: string, worktree: string, patch: Patch, first: string, status: string)
    requires first == WORKTREE + " a" && status == STATUS + " " + Literal(Published) && text == Unlines([first, status])
    requires worktree == "a" + "\n" + (STATUS + " " + Literal(NotStarted))
    requires patch == Patch(Published, None, None, Some(worktree), None, None, None, None, None, None)
    ensures !KeepsPublished(text, patch) && Patched(text, patch).Some? && DescriptorState(Patched(text, patch).value) == Some(NotStarted)
  {
    PublishedText(first, status);
    BringsNotStarted(worktree, STATUS + " " + Literal(NotStarted));
    WorktreeBrings(text, worktree, patch);
  }

  lemma WorktreeBrings(text: string, worktree: string, patch: Patch)
    requires patch == Patch(Published, None, None, Some(worktree), None, None, None, None, None, None)
    requires DescriptorState(text) == Some(Published) && SetLineField(text, STATUS, Literal(Published)) == text
    requires Ahead(Lines(text), WORKTREE) == [] && FieldIn(Continuation(worktree), STATUS).Some?
    ensures Brought(text, patch, STATUS) == FieldIn(Continuation(worktree), STATUS) && Patched(text, patch).Some?
    ensures DescriptorState(Patched(text, patch).value) == StateOf(FieldIn(Continuation(worktree), STATUS).value)
  {
    PatchReads(text, patch);
  }

  lemma PublishedText(first: string, status: string)
    requires first == WORKTREE + " a" && status == STATUS + " " + Literal(Published)
    ensures var text := Unlines([first, status]);
            && DescriptorState(text) == Some(Published) && SetLineField(text, STATUS, Literal(Published)) == text
            && Ahead(Lines(text), WORKTREE) == []
  {
    WorktreeLine(STATUS);
    StatusLine(Published, WORKTREE);
    LinesOfUnlines([first, status]);
    SecondStays(first, status);
    FieldHere(status, [], STATUS);
    FieldSkips(first, [status], STATUS);
  }

  lemma SecondStays(first: string, status: string)
    requires !StartsWith(first, STATUS) && StartsWith(status, STATUS) && status == STATUS + " " + Literal(Published)
    ensures SetIn([first, status], STATUS, Literal(Published)) == [first, status]
  {
    assert [first, status][1..] == [status] && [status][1..] == [];
    assert SetIn([status], STATUS, Literal(Published)) == [status];
  }

  lemma BringsNotStarted(worktree: string, other: string)
    requires other == STATUS + " " + Literal(NotStarted) && worktree == "a" + "\n" + other
    ensures FieldIn(Continuation(worktree), STATUS).Some? && StateOf(FieldIn(Continuation(worktree), STATUS).value) == Some(NotStarted)
  {
    StatusLine(NotStarted, WORKTREE);
    ContinuationOf("a", other);
    LinesOfUnlines([other]);
  }
}
