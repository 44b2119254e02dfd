/** The control plane of `engine/src/control.rs` as it updates its files: each method makes the
    replacements of one operation of `ControlRuns`, in order. */
module ControlFiles {
  import opened Text
  import opened StatusText
  import opened LineFields
  import opened QueueText
  import opened ControlPlane
  import opened ControlRuns
  import opened PatchFields

  /** A capture is its queue write and then a descriptor patch. */
  lemma CaptureThenPatch(p: Plane, op: Op)
    requires op.Capture? && IsTaskId(op.id) && OkBatch(op.batch) && OkRef(op.branch) && RowState(p, op.id) == Some(NotStarted)
    ensures var captured := Rewrite(p, op.id, WithAttempt(CaptureHead(op.batch, op.worktree, op.branch), Attempt(Row(p, op.id).value)));
            var patch := PatchDescriptor(op.id, CapturePatch(op.batch, op.branch, op.worktree, op.wave));
            Cut(p, op, 2) == Cut(captured, patch, 1) && (|Writes(p, op)| == 2 <==> Writes(captured, patch) != [])
  {
    var captured := Rewrite(p, op.id, WithAttempt(CaptureHead(op.batch, op.worktree, op.branch), Attempt(Row(p, op.id).value)));
    AtMostOne(captured, op.id, CapturePatch(op.batch, op.branch, op.worktree, op.wave));
  }

  lemma AtMostOne(p: Plane, id: string, patch: Patch)
    ensures |PatchWrites(p, id, patch)| <= 1
  {}

  /** What re-anchoring leaves, once both artifacts have passed its checks. */
  lemma ReanchorIs(p: Plane, id: string)
    requires Reanchorable(p, id)
    ensures Cut(p, Reanchor(id), 2) ==
            if RowState(p, id) == Some(Merged) then Rewrite(Reopened(p, id), id, WithAttempt(Literal(Ready), Attempt(Row(p, id).value)))
            else Reopened(p, id)
  {
    assert Writes(p, Reanchor(id)) == ReanchorWrites(p, id);
  }

  lemma ReanchorRefused(p: Plane, id: string)
    requires !Reanchorable(p, id)
    ensures Cut(p, Reanchor(id), 2) == p
  {}

  class Files {
    var queue: string
    var descriptors: map<string, string>

    constructor (p: Plane)
      ensures View() == p
    {
      queue, descriptors := p.queue, p.descriptors;
    }

    function View(): Plane
      reads this
    {
      Plane(queue, descriptors)
    }

    /** Puts a status into the row of a task that has one. */
    method WriteStatus(id: string, status: string)
      requires IsTaskId(id) && FindBlock(queue, id).Ok?
      modifies this`queue
      ensures View() == Rewrite(old(View()), id, status)
    {
      var entry := FindBlock(queue, id).value;
      FindBounds(queue, id, entry);
      queue := ReplaceStatus(queue, entry, status);
    }

    method SetOptionalField(text: string, field: string, value: Option<string>) returns (r: string)
      ensures r == SetOptional(text, field, value)
    {
      r := text;
      if value.Some? { r := WriteField(r, field, value.value); }
    }

    /** `patch_descriptor`: all fields are set in memory, then the file is replaced once. */
    method PatchTask(id: string, patch: Patch) returns (ok: bool)
      modifies this`descriptors
      ensures View() == Cut(old(View()), PatchDescriptor(id, patch), 1)
      ensures ok == (Writes(old(View()), PatchDescriptor(id, patch)) != [])
      ensures if ok then id in old(descriptors) && id in descriptors && descriptors == old(descriptors)[id := descriptors[id]]
                         && Carries(old(descriptors)[id], descriptors[id], patch)
              else descriptors == old(descriptors)
    {
      if !IsTaskId(id) || id !in descriptors { return false; }
      var content := PatchText(descriptors[id], patch);
      if content.None? { return false; }
      PatchCarries(descriptors[id], patch);
      descriptors := descriptors[id := content.value];
      return true;
    }

    /** The fields of a patch, in order; refused when the state or the risk may not change so. */
    method PatchText(text: string, patch: Patch) returns (r: Option<string>)
      ensures r == Patched(text, patch)
    {
      var state, risk := DescriptorState(text), DescriptorRisk(text);
      if state.Some? && state.value != patch.state && !ValidTransition(state.value, patch.state) { return None; }
      var content := WriteField(text, STATUS, Literal(patch.state));
      content := WriteMiddle(text, content, patch);
      if patch.risk.Some? {
        if risk.Some? && Rank(patch.risk.value) < Rank(risk.value) { return None; }
        if patch.risk != risk { content := WriteField(content, RISK, ElevatedRisk(patch.risk.value, risk)); }
      }
      if patch.reviewSha.Some? && !OkRef(patch.reviewSha.value) { return None; }
      content := WriteTail(content, patch);
      return Some(content);
    }

    method WriteMiddle(text: string, t1: string, patch: Patch) returns (r: string)
      ensures r == Middle(text, t1, patch)
    {
      r := SetOptionalField(t1, BATCH, patch.batch);
      r := SetOptionalField(r, BRANCH, patch.branch);
      r := SetOptionalField(r, WORKTREE, patch.worktree);
      r := SetOptionalField(r, WAVE, Printed(patch.wave));
      if patch.author.Some? { r := WriteField(r, AUTHORS, WithAuthor(text, patch.author.value)); }
    }

    method WriteTail(t5: string, patch: Patch) returns (r: string)
      ensures r == Tail(t5, patch)
    {
      r := SetOptionalField(t5, REVIEW_SHA, patch.reviewSha);
      r := SetOptionalField(r, REVIEW_CYCLES, Printed(patch.reviewCycles));
      if patch.reason.Some? { r := WriteField(r, REASON, SanitizeReason(patch.reason.value)); }
    }

    /** `capture_task`: the queue first, then the descriptor. */
    method CaptureTask(id: string, batch: string, branch: string, worktree: string, wave: nat) returns (ok: bool)
      modifies this
      ensures View() == Cut(old(View()), Capture(id, batch, branch, worktree, wave), 2)
      ensures ok == (|Writes(old(View()), Capture(id, batch, branch, worktree, wave))| == 2)
      ensures if ok then id in old(descriptors) && id in descriptors && descriptors == old(descriptors)[id := descriptors[id]]
                         && Carries(old(descriptors)[id], descriptors[id], CapturePatch(batch, branch, worktree, wave))
              else descriptors == old(descriptors)
    {
      if !IsTaskId(id) || !OkBatch(batch) || !OkRef(branch) { return false; }
      var entry := FindBlock(queue, id);
      if entry.Err? || StateOf(entry.value.status) != Some(NotStarted) { return false; }
      CaptureThenPatch(View(), Capture(id, batch, branch, worktree, wave));
      WriteStatus(id, WithAttempt(CaptureHead(batch, worktree, branch), Attempt(entry.value.status)));
      ok := PatchTask(id, CapturePatch(batch, branch, worktree, wave));
    }

    /** `reanchor_merged_task`: both artifacts are checked before either is changed; it succeeds
        also when there is nothing left to change. */
    method ReanchorMergedTask(id: string) returns (ok: bool)
      modifies this
      ensures View() == Cut(old(View()), Reanchor(id), 2)
      ensures ok == Reanchorable(old(View()), id)
    {
      if !Reanchorable(View(), id) { ReanchorRefused(View(), id); }
      if !IsTaskId(id) || id !in descriptors { return false; }
      var state := DescriptorState(descriptors[id]);
      if state != Some(Merged) && state != Some(Ready) { return false; }
      var entry := FindBlock(queue, id);
      if entry.Err? { return false; }
      var row := StateOf(entry.value.status);
      if row != Some(Working) && row != Some(Merged) && row != Some(Ready) { return false; }
      ReanchorIs(View(), id);
      if state == Some(Merged) {
        var text := WriteField(descriptors[id], STATUS, Literal(Ready));
        descriptors := descriptors[id := text];
      }
      if row == Some(Merged) {
        WriteStatus(id, WithAttempt(Literal(Ready), Attempt(entry.value.status)));
      }
      return true;
    }
  }
}
