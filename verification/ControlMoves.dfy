/** Which operations of the control plane (`engine/src/control.rs`) go ahead, and where they move a
    task: its queue row along its lifecycle, its descriptor out of the way when that may be. */
module ControlMoves {
  import opened Text
  import opened StatusText
  import opened LineFields
  import opened QueueText
  import opened QueueBreaks
  import opened ControlPlane
  import opened ControlRuns

  // ---------------------------------------------------------------------------------------
  // Which operations go ahead
  // ---------------------------------------------------------------------------------------

  predicate Reads(state: Option<TaskState>, states: set<TaskState>) { state.Some? && state.value in states }

  /** The row does not contradict that the task was never captured: there is none that can be read, or
      it is not further than merged. */
  predicate RowBehind(p: Plane, id: string) {
    match FindBlock(p.queue, id)
    case Err(e) => e == NoBlock || e == NoStatus
    case Ok(b) => Reads(StateOf(b.status), {NotStarted, Working, InReview, Ready, Merged})
  }

  /** What an operation needs to write anything. */
  predicate Allowed(p: Plane, op: Op) {
    && IsTaskId(op.id)
    && match op
       case Capture(id, batch, branch, _, _) => OkBatch(batch) && OkRef(branch) && RowState(p, id) == Some(NotStarted)
       case PatchDescriptor(id, patch) => id in p.descriptors && Patched(p.descriptors[id], patch).Some?
       case PatchQueue(id, state, _) => RowState(p, id).Some? && (RowState(p, id).value == state || ValidTransition(RowState(p, id).value, state))
       case Reanchor(id) =>
         && Reads(StateIn(p, id), {Merged, Ready}) && Reads(RowState(p, id), {Working, Merged, Ready})
         && (StateIn(p, id) == Some(Merged) || RowState(p, id) == Some(Merged))
       case ReturnOrphaned(id, _) => id !in p.descriptors && Reads(RowState(p, id), {Working, InReview, Ready, Merged})
       case RemoveUncaptured(id, active) => id !in active && RowBehind(p, id) && Reads(StateIn(p, id), {NotStarted, Working, InReview})
       case RemoveTerminal(id) => Reads(StateIn(p, id), {Done, Conflict, Escalated})
  }

  /** An operation writes exactly if it is allowed, and at most two files. */
  lemma WritesWhen(p: Plane, op: Op)
    ensures Writes(p, op) != [] <==> Allowed(p, op)
    ensures |Writes(p, op)| <= 2
  {
    match op
    case Capture(_, _, _, _, _) => CaptureWhen(p, op);
    case PatchQueue(_, _, _) => RowOpWhen(p, op);
    case ReturnOrphaned(_, _) => RowOpWhen(p, op);
    case PatchDescriptor(id, patch) => PatchWhen(p, id, patch);
    case Reanchor(id) => ReanchorWhen(p, id);
    case RemoveUncaptured(id, active) => UncapturedWhen(p, id, active);
    case RemoveTerminal(id) => TerminalWhen(p, id);
  }

  lemma CaptureWhen(p: Plane, op: Op)
    requires op.Capture?
    ensures (Writes(p, op) != [] <==> Allowed(p, op)) && |Writes(p, op)| <= 2
  {
    if Writes(p, op) != [] { CaptureWritten(p, op); }
  }

  lemma RowOpWhen(p: Plane, op: Op)
    requires op.PatchQueue? || op.ReturnOrphaned?
    ensures (Writes(p, op) != [] <==> Allowed(p, op)) && |Writes(p, op)| <= 2
  {}

  lemma PatchWhen(p: Plane, id: string, patch: Patch)
    ensures (Writes(p, PatchDescriptor(id, patch)) != [] <==> Allowed(p, PatchDescriptor(id, patch)))
            && |Writes(p, PatchDescriptor(id, patch))| <= 2
  {}

  lemma BehindIs(p: Plane, id: string)
    ensures MayLoseDescriptor(p, id) <==> RowBehind(p, id)
  {
    match FindBlock(p.queue, id)
    case Ok(b) => BehindRow(p, id, b);
    case Err(e) => BehindNone(p, id, e);
  }

  lemma BehindRow(p: Plane, id: string, b: QueueBlock)
    requires FindBlock(p.queue, id) == Ok(b)
    ensures MayLoseDescriptor(p, id) <==> RowBehind(p, id)
  {}

  lemma BehindNone(p: Plane, id: string, e: QueueError)
    requires FindBlock(p.queue, id) == Err(e)
    ensures MayLoseDescriptor(p, id) <==> RowBehind(p, id)
  {}

  lemma UncapturedWhen(p: Plane, id: string, active: set<string>)
    ensures var op := RemoveUncaptured(id, active); (Writes(p, op) != [] <==> Allowed(p, op)) && |Writes(p, op)| <= 2
  {
    BehindIs(p, id);
  }

  lemma TerminalWhen(p: Plane, id: string)
    ensures var op := RemoveTerminal(id); (Writes(p, op) != [] <==> Allowed(p, op)) && |Writes(p, op)| <= 2
  {}

  lemma ReanchorWhen(p: Plane, id: string)
    ensures |ReanchorWrites(p, id)| <= 2
    ensures ReanchorWrites(p, id) != [] <==> Reanchorable(p, id) && (StateIn(p, id) == Some(Merged) || RowState(p, id) == Some(Merged))
  {}

  // ---------------------------------------------------------------------------------------
  // Where a row goes
  // ---------------------------------------------------------------------------------------

  /** The state an operation gives its row. */
  function Target(op: Op): TaskState
    requires WritesRow(op)
  {
    match op case Capture(_, _, _, _, _) => Working case PatchQueue(_, state, _) => state case ReturnOrphaned(_, _) => NotStarted
  }

  lemma HeadState(head: string, attempt: Option<nat>)
    ensures StateOf(WithAttempt(head, attempt)) == StateOf(head)
  {
    if attempt.Some? { StateBehind(head, attempt.value); }
  }

  lemma PatchHeadState(state: TaskState, reason: Option<string>)
    ensures StateOf(PatchHead(state, reason)) == Some(state)
  {
    LiteralPlain(state);
    if PatchHead(state, reason) != Literal(state) { ReasonSegments(Literal(state), SanitizeReason(reason.value)); }
  }

  lemma TargetState(p: Plane, op: Op)
    requires WritesRow(op) && Row(p, op.id).Some?
    ensures StateOf(NewStatus(p, op)) == Some(Target(op))
  {
    match op
    case Capture(_, batch, branch, worktree, _) =>
      CaptureSegments(batch, worktree, branch);
      HeadState(CaptureHead(batch, worktree, branch), Attempt(Row(p, op.id).value));
    case PatchQueue(_, state, reason) =>
      PatchHeadState(state, reason);
      HeadState(PatchHead(state, reason), Attempt(Row(p, op.id).value));
    case ReturnOrphaned(_, attempt) =>
      LiteralPlain(NotStarted);
      HeadState(Literal(NotStarted), attempt);
  }

  lemma TrimmedState(status: string)
    ensures StateOf(Trim(status)) == StateOf(status)
  {
    TrimEndState(TrimStart(status));
    TrimStartState(status);
  }

  /** The status an operation writes is one line, and is read from its beginning. */
  predicate PlainStatus(p: Plane, op: Op) {
    WritesRow(op) && Row(p, op.id).Some? ==>
      && '\n' !in NewStatus(p, op)
      && (Contains(Header(FindBlock(p.queue, op.id).value.text), LOWER_STATUS) || !Contains(NewStatus(p, op), LOWER_STATUS))
  }

  /** The moves of a row: out of the queue by a capture, along the lifecycle by a patch, back from merged
      by a re-anchoring, and back to the start when its descriptor is gone. */
  predicate MayMove(op: Op, from: TaskState, to: TaskState) {
    match op
    case Capture(_, _, _, _, _) => from == NotStarted && to == Working
    case PatchQueue(_, state, _) => to == state && (from == to || ValidTransition(from, to))
    case Reanchor(_) => from == Merged && to == Ready
    case ReturnOrphaned(_, _) => from in {Working, InReview, Ready, Merged} && to == NotStarted
    case _ => false
  }

  lemma WrittenMoves(p: Plane, op: Op, t: Plane)
    requires WritesRow(op) && t in Writes(p, op) && PlainStatus(p, op)
    ensures RowState(p, op.id).Some? && RowState(t, op.id) == Some(Target(op)) && MayMove(op, RowState(p, op.id).value, Target(op))
  {
    var id := op.id;
    RowWritten(p, op);
    var status := NewStatus(p, op);
    TargetState(p, op);
    RowShows(p, id, status);
    OneLineShows(Header(FindBlock(p.queue, id).value.text), status, id);
    TrimmedState(status);
    SameQueue(Rewrite(p, id, status), t, id);
    WritesWhen(p, op);
  }

  lemma ReanchorMoves(p: Plane, id: string, t: Plane)
    requires IsTaskId(id) && t in ReanchorWrites(p, id)
    ensures RowState(t, id) == RowState(p, id) || (RowState(p, id) == Some(Merged) && RowState(t, id) == Some(Ready))
  {
    ReanchorQueues(p, id, t);
    if t.queue == p.queue {
      SameQueue(p, t, id);
    } else {
      var status := Attempt(Row(p, id).value);
      AttemptBounded(Row(p, id).value);
      LiteralCounter(p, id, Ready, status);
      SameQueue(Rewrite(p, id, WithAttempt(Literal(Ready), status)), t, id);
      OnlyMerged(p, id, t);
    }
  }

  lemma OnlyMerged(p: Plane, id: string, t: Plane)
    requires t in ReanchorWrites(p, id) && t.queue != p.queue
    ensures RowState(p, id) == Some(Merged)
  {}

  /** Whatever operation is done on a task, and wherever it is cut, its row stays in its state or makes
      one of the moves of that operation. */
  lemma RowMoves(p: Plane, op: Op, k: nat)
    requires PlainStatus(p, op)
    ensures var s, t := RowState(p, op.id), RowState(Cut(p, op, k), op.id);
            t == s || (s.Some? && t.Some? && Allowed(p, op) && MayMove(op, s.value, t.value))
  {
    CutIsWrite(p, op, k);
    var t := Cut(p, op, k);
    if t != p {
      WritesWhen(p, op);
      if WritesRow(op) {
        WrittenMoves(p, op, t);
      } else if op.Reanchor? {
        ReanchorMoves(p, op.id, t);
      } else {
        DescriptorOpQueues(p, op);
        SameQueue(p, t, op.id);
      }
    }
  }

  // ---------------------------------------------------------------------------------------
  // Descriptors that go, and those that stay
  // ---------------------------------------------------------------------------------------

  /** An operation touches no descriptor but its own, and takes that away only when the task is over, or
      was never captured and is of no active batch. */
  lemma DescriptorGoes(p: Plane, op: Op, k: nat, id: string)
    requires id in p.descriptors
    ensures id != op.id ==> id in Cut(p, op, k).descriptors && Cut(p, op, k).descriptors[id] == p.descriptors[id]
    ensures id !in Cut(p, op, k).descriptors ==>
              && id == op.id
              && (|| (op.RemoveTerminal? && Reads(StateIn(p, id), {Done, Conflict, Escalated}))
                  || (op.RemoveUncaptured? && id !in op.active && Reads(StateIn(p, id), {NotStarted, Working, InReview}) && RowBehind(p, id)))
  {
    CutIsWrite(p, op, k);
    if Cut(p, op, k) != p {
      match op
      case Capture(_, _, _, _, _) =>
        CaptureWritten(p, op);
        LastOfTwo(p, Writes(p, op), k);
      case PatchDescriptor(own, patch) => PatchWritten(p, own, patch, id);
      case _ =>
    }
  }

  /** No operation makes a descriptor. */
  lemma NoDescriptorComes(p: Plane, op: Op, k: nat, id: string)
    requires id !in p.descriptors
    ensures id !in Cut(p, op, k).descriptors
  {
    CutIsWrite(p, op, k);
    if Cut(p, op, k) != p {
      match op
      case Capture(_, _, _, _, _) =>
        CaptureWritten(p, op);
        LastOfTwo(p, Writes(p, op), k);
      case PatchDescriptor(own, patch) => PatchWritten(p, own, patch, id);
      case _ =>
    }
  }

  // ---------------------------------------------------------------------------------------
  // What the row says besides
  // ---------------------------------------------------------------------------------------

  /** A row shows the reason of an escalation or a conflict behind its state, and of nothing else. */
  lemma ReasonShown(state: TaskState, reason: Option<string>)
    ensures var text := SanitizeReason(if reason.Some? then reason.value else "");
            PatchHead(state, reason) ==
              if (state == Escalated || state == Conflict) && text != "" then Literal(state) + " · причина=" + text else Literal(state)
  {
    assert Compact("") == "";
  }

  /** A task that is escalated loses its counter: the row shows one only if the reason hides one. */
  lemma EscalatedDrops(reason: Option<string>, prior: Option<nat>)
    ensures var status, text := PatchStatus(Escalated, reason, prior), SanitizeReason(if reason.Some? then reason.value else "");
            StateOf(status) == Some(Escalated) && (NoCounter(text) ==> Attempt(status) == None)
  {
    LiteralPlain(Escalated);
    PatchHeadState(Escalated, reason);
    assert Compact("") == "";
    if PatchHead(Escalated, reason) != Literal(Escalated) { ReasonSegments(Literal(Escalated), SanitizeReason(reason.value)); }
  }
}
