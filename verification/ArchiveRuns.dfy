/** Archiving a finished task, from `engine/src/control.rs`: the descriptor is marked done, the
    queue block removed, and descriptor and metrics projected into one archive section. Files are
    replaced one at a time, and the whole is repeated after a crash. */
module ArchiveRuns {
  import opened Text
  import opened StatusText
  import opened LineFields
  import opened QueueText
  import opened ControlPlane
  import opened ArchiveText
  import opened Archive
  import opened ArchiveKeeps

  // ---------------------------------------------------------------------------------------
  // Marking done, then projecting, with crashes in between
  // ---------------------------------------------------------------------------------------

  datatype Work = Work(queue: string, descriptor: string, done: Option<string>)

  const EMPTY_ARCHIVE := "# Completed tasks\n\n"

  function ArchiveOf(w: Work): string { match w.done case Some(t) => t case None => EMPTY_ARCHIVE }

  predicate Publishable(state: Option<TaskState>) {
    state == Some(Working) || state == Some(Ready) || state == Some(Merged) || state == Some(Published) || state == Some(Done)
  }

  lemma BlockBounds(queue: string, id: string, b: QueueBlock)
    requires IsTaskId(id) && FindBlock(queue, id) == Ok(b)
    ensures b.start <= b.end <= |queue|
  {
    RemoveThenFind(queue, id, b, OtherId(id));
  }

  /** The state once the queue block of the task, if any, is removed. */
  function Unqueued(w: Work, id: string): Work
    requires IsTaskId(id)
  {
    match FindBlock(w.queue, id)
    case Ok(b) => BlockBounds(w.queue, id, b); Work(RemoveBlock(w.queue, b), w.descriptor, w.done)
    case Err(_) => w
  }

  function MarkedDone(w: Work): Work { Work(w.queue, SetLineField(w.descriptor, STATUS, Literal(Done)), w.done) }

  /** Whether `mark_task_done_for_archive` goes ahead. */
  predicate MayMark(w: Work, id: string) {
    var state := DescriptorState(w.descriptor);
    && IsTaskId(id) && (state == Some(Published) || state == Some(Done))
    && match FindBlock(w.queue, id)
       case Ok(b) => Publishable(StateOf(b.status))
       case Err(e) => e == NoBlock && state == Some(Done)
  }

  /** The states `mark_task_done_for_archive` leaves behind, one per file it replaces. */
  function MarkWrites(w: Work, id: string): seq<Work> {
    if !MayMark(w, id) then []
    else
      var marked := if DescriptorState(w.descriptor) == Some(Published) then MarkedDone(w) else w;
      (if DescriptorState(w.descriptor) == Some(Published) then [marked] else [])
      + (if FindBlock(w.queue, id).Ok? then [Unqueued(marked, id)] else [])
  }

  function Last(w: Work, writes: seq<Work>): Work { if writes == [] then w else writes[|writes| - 1] }

  /** `project_task_archive`: the state it leaves behind, if it succeeds. */
  function Project(w: Work, id: string, batch: string, metrics: string): Option<Work> {
    if !IsTaskId(id) || !OkBatch(batch) || !OkMetrics(metrics, id, batch) || DescriptorState(w.descriptor) != Some(Done) then None
    else
      match Projected(ArchiveOf(w), id, batch, SectionText(id, w.descriptor, metrics))
      case None => None
      case Some(t) => if Complete(t, id, batch) then Some(Work(w.queue, w.descriptor, Some(t))) else None
  }

  /** Both operations, uninterrupted. */
  function Archived(w: Work, id: string, batch: string, metrics: string): Option<Work> {
    if !MayMark(w, id) then None else Project(Last(w, MarkWrites(w, id)), id, batch, metrics)
  }

  /** A state a crash can leave: before the first write, after any, or after the last. */
  ghost predicate CrashPoint(w: Work, g: Work, id: string, batch: string, metrics: string) {
    g == w || g in MarkWrites(w, id) || Archived(w, id, batch, metrics) == Some(g)
  }

  /** Where the two operations start from: a published descriptor with one publishable row, no
      foreign header or marker in the text to be archived, and an archive that can take it. */
  predicate ReadyToArchive(w: Work, id: string, batch: string, metrics: string) {
    && DescriptorState(w.descriptor) == Some(Published) && FindBlock(w.queue, id).Ok? && MayMark(w, id)
    && OkBatch(batch) && OkMetrics(metrics, id, batch)
    && OwnTextOnly(MarkedDone(w).descriptor, id, batch)
    && Projected(ArchiveOf(w), id, batch, SectionText(id, MarkedDone(w).descriptor, metrics)).Some?
  }

  lemma DoneReads(w: Work)
    requires DescriptorState(w.descriptor) == Some(Published)
    ensures DescriptorState(MarkedDone(w).descriptor) ==
            if Shadowed(Lines(w.descriptor), STATUS) then Some(Published) else Some(Done)
  {
    StatusSet(w.descriptor, Done);
  }

  /** The two operations succeed exactly when no indented status line shadows the one that is
      rewritten. Then, from any point a crash can leave behind, repeating both reaches the very
      state of an uninterrupted run: no row, the descriptor done, the archive with one section that
      holds the task, behind or between the sections it held. */
  lemma ArchiveSurvivesCrashes(w: Work, id: string, batch: string, metrics: string, g: Work)
    requires ReadyToArchive(w, id, batch, metrics) && CrashPoint(w, g, id, batch, metrics)
    ensures Archived(w, id, batch, metrics).Some? <==> !Shadowed(Lines(w.descriptor), STATUS)
    ensures !Shadowed(Lines(w.descriptor), STATUS) ==>
      var end := Archived(w, id, batch, metrics).value;
      && Archived(g, id, batch, metrics) == Some(end)
      && FindBlock(end.queue, id) == Err(NoBlock) && DescriptorState(end.descriptor) == Some(Done)
      && end.done.Some? && ArchivedInto(ArchiveOf(w), end.done.value, id, batch, end.descriptor, metrics)
  {
    if Shadowed(Lines(w.descriptor), STATUS) {
      ShadowedFails(w, id, batch, metrics);
    } else {
      var end := Survives(w, id, batch, metrics, g);
    }
  }

  lemma ShadowedFails(w: Work, id: string, batch: string, metrics: string)
    requires ReadyToArchive(w, id, batch, metrics) && Shadowed(Lines(w.descriptor), STATUS)
    ensures Archived(w, id, batch, metrics) == None
  {
    FromStart(w, id, batch, metrics, MarkedDone(w), Unqueued(MarkedDone(w), id));
    PublishedFails(Unqueued(MarkedDone(w), id), id, batch, metrics);
  }

  lemma Survives(w: Work, id: string, batch: string, metrics: string, g: Work) returns (end: Work)
    requires ReadyToArchive(w, id, batch, metrics) && CrashPoint(w, g, id, batch, metrics) && !Shadowed(Lines(w.descriptor), STATUS)
    ensures Archived(w, id, batch, metrics) == Some(end) && Archived(g, id, batch, metrics) == Some(end)
    ensures FindBlock(end.queue, id) == Err(NoBlock) && DescriptorState(end.descriptor) == Some(Done)
    ensures end.done.Some? && ArchivedInto(ArchiveOf(w), end.done.value, id, batch, end.descriptor, metrics)
  {
    var marked := MarkedDone(w);
    var unqueued := Unqueued(marked, id);
    end := Ends(w, id, batch, metrics, marked, unqueued);
    FromAnywhere(w, id, batch, metrics, g, marked, unqueued, end);
  }

  /** The uninterrupted run, and where it ends. */
  lemma Ends(w: Work, id: string, batch: string, metrics: string, marked: Work, unqueued: Work) returns (end: Work)
    requires ReadyToArchive(w, id, batch, metrics) && !Shadowed(Lines(w.descriptor), STATUS)
    requires marked == MarkedDone(w) && unqueued == Unqueued(marked, id)
    ensures MarkWrites(w, id) == [marked, unqueued] && Archived(w, id, batch, metrics) == Some(end)
    ensures DescriptorState(marked.descriptor) == Some(Done) && unqueued.descriptor == marked.descriptor
    ensures FindBlock(unqueued.queue, id) == Err(NoBlock) && end == Work(unqueued.queue, unqueued.descriptor, end.done)
    ensures Project(unqueued, id, batch, metrics) == Some(end) && Project(end, id, batch, metrics) == Some(end)
    ensures end.done.Some? && ArchivedInto(ArchiveOf(w), end.done.value, id, batch, end.descriptor, metrics)
  {
    FromStart(w, id, batch, metrics, marked, unqueued);
    RowGone(w, id);
    end := ProjectsOnce(w, id, batch, metrics, unqueued);
  }

  lemma PublishedFails(w: Work, id: string, batch: string, metrics: string)
    requires DescriptorState(w.descriptor) == Some(Published)
    ensures Project(w, id, batch, metrics) == None
  {}

  lemma FromAnywhere(w: Work, id: string, batch: string, metrics: string, g: Work, marked: Work, unqueued: Work, end: Work)
    requires MayMark(w, id) && FindBlock(w.queue, id).Ok? && marked == MarkedDone(w) && unqueued == Unqueued(marked, id)
    requires DescriptorState(marked.descriptor) == Some(Done) && unqueued.descriptor == marked.descriptor
    requires FindBlock(unqueued.queue, id) == Err(NoBlock) && end == Work(unqueued.queue, unqueued.descriptor, end.done)
    requires Project(unqueued, id, batch, metrics) == Some(end) && Project(end, id, batch, metrics) == Some(end)
    requires Archived(w, id, batch, metrics) == Some(end) && (g == w || g == marked || g == unqueued || g == end)
    ensures Archived(g, id, batch, metrics) == Some(end)
  {
    if g == marked {
      FromMarked(w, id, batch, metrics, marked, unqueued);
    } else if g == unqueued {
      FromUnqueued(unqueued, id, batch, metrics);
    } else if g == end {
      EndStays(unqueued, end, id, batch, metrics);
    }
  }

  lemma EndStays(unqueued: Work, end: Work, id: string, batch: string, metrics: string)
    requires IsTaskId(id) && FindBlock(unqueued.queue, id) == Err(NoBlock) && DescriptorState(unqueued.descriptor) == Some(Done)
    requires end == Work(unqueued.queue, unqueued.descriptor, end.done) && Project(end, id, batch, metrics) == Some(end)
    ensures Archived(end, id, batch, metrics) == Some(end)
  {
    FromUnqueued(end, id, batch, metrics);
  }

  /** An uninterrupted run marks, removes the row, and then projects. */
  lemma FromStart(w: Work, id: string, batch: string, metrics: string, marked: Work, unqueued: Work)
    requires ReadyToArchive(w, id, batch, metrics) && marked == MarkedDone(w) && unqueued == Unqueued(marked, id)
    ensures MarkWrites(w, id) == [marked, unqueued] && Archived(w, id, batch, metrics) == Project(unqueued, id, batch, metrics)
    ensures unqueued.descriptor == marked.descriptor && unqueued.done == w.done && unqueued.queue == Unqueued(w, id).queue
    ensures DescriptorState(marked.descriptor) == if Shadowed(Lines(w.descriptor), STATUS) then Some(Published) else Some(Done)
  {
    DoneReads(w);
  }

  /** Projecting succeeds, and leaves a state that projecting again does not change. */
  lemma ProjectsOnce(w: Work, id: string, batch: string, metrics: string, unqueued: Work) returns (end: Work)
    requires ReadyToArchive(w, id, batch, metrics)
    requires unqueued.descriptor == MarkedDone(w).descriptor && unqueued.done == w.done
    requires DescriptorState(unqueued.descriptor) == Some(Done)
    ensures Project(unqueued, id, batch, metrics) == Some(end) && Project(end, id, batch, metrics) == Some(end)
    ensures end == Work(unqueued.queue, unqueued.descriptor, end.done) && end.done.Some?
    ensures ArchivedInto(ArchiveOf(w), end.done.value, id, batch, end.descriptor, metrics)
  {
    var section := SectionText(id, unqueued.descriptor, metrics);
    var t := Projected(ArchiveOf(w), id, batch, section).value;
    WrittenSection(id, batch, unqueued.descriptor, metrics);
    ProjectionCompletes(ArchiveOf(w), id, batch, section);
    ProjectionArchives(ArchiveOf(w), id, batch, unqueued.descriptor, metrics);
    end := Work(unqueued.queue, unqueued.descriptor, Some(t));
  }

  lemma RowGone(w: Work, id: string)
    requires IsTaskId(id) && FindBlock(w.queue, id).Ok?
    ensures FindBlock(Unqueued(w, id).queue, id) == Err(NoBlock)
  {
    var b := FindBlock(w.queue, id).value;
    RemoveThenFind(w.queue, id, b, OtherId(id));
    SeenErr(FindBlock(RemoveBlock(w.queue, b), id), NoBlock);
  }

  lemma SeenErr(r: Result<QueueBlock, QueueError>, e: QueueError)
    requires ViewOf(r) == Err(e)
    ensures r == Err(e)
  {}

  lemma FromMarked(w: Work, id: string, batch: string, metrics: string, marked: Work, unqueued: Work)
    requires MayMark(w, id) && FindBlock(w.queue, id).Ok? && marked == MarkedDone(w) && unqueued == Unqueued(marked, id)
    requires DescriptorState(marked.descriptor) == Some(Done)
    ensures Archived(marked, id, batch, metrics) == Project(unqueued, id, batch, metrics)
  {
    assert MarkWrites(marked, id) == [unqueued];
  }

  lemma FromUnqueued(w: Work, id: string, batch: string, metrics: string)
    requires IsTaskId(id) && FindBlock(w.queue, id) == Err(NoBlock) && DescriptorState(w.descriptor) == Some(Done)
    ensures Archived(w, id, batch, metrics) == Project(w, id, batch, metrics)
  {
    assert MarkWrites(w, id) == [];
  }

  /** Marking a task done touches no other row, no other field of its descriptor, and no archive. */
  lemma MarkKeeps(w: Work, id: string, t: Work, other: string, field: string)
    requires t in MarkWrites(w, id) && IsTaskId(other) && other != id
    requires IsKey(field) && Apart(STATUS, field)
    ensures Seen(t.queue, other) == Seen(w.queue, other) && t.done == w.done
    ensures LineField(t.descriptor, field) == LineField(w.descriptor, field)
  {
    OtherFieldsStay(w, field);
    OtherRowsStay(w, id, other);
    MarkedQueue(w, id, t);
  }

  lemma MarkedQueue(w: Work, id: string, t: Work)
    requires t in MarkWrites(w, id)
    ensures IsTaskId(id) && t.done == w.done && (t.queue == w.queue || t.queue == Unqueued(w, id).queue)
    ensures t.descriptor == w.descriptor || t.descriptor == MarkedDone(w).descriptor
  {}

  lemma OtherFieldsStay(w: Work, field: string)
    requires IsKey(field) && Apart(STATUS, field)
    ensures LineField(MarkedDone(w).descriptor, field) == LineField(w.descriptor, field)
  {
    NamesAreKeys();
    LiteralChars(Done);
    OneLineBrings(Literal(Done));
    SetReads(w.descriptor, STATUS, Literal(Done), field);
  }

  lemma OtherRowsStay(w: Work, id: string, other: string)
    requires IsTaskId(id) && IsTaskId(other) && other != id
    ensures Seen(Unqueued(w, id).queue, other) == Seen(w.queue, other)
  {
    if FindBlock(w.queue, id).Ok? { RemoveThenFind(w.queue, id, FindBlock(w.queue, id).value, other); }
  }

  /** Crashing again during a retry leads nowhere new. */
  lemma CrashesCompose(w: Work, id: string, batch: string, metrics: string, g: Work, h: Work)
    requires ReadyToArchive(w, id, batch, metrics) && !Shadowed(Lines(w.descriptor), STATUS)
    requires CrashPoint(w, g, id, batch, metrics) && CrashPoint(g, h, id, batch, metrics)
    ensures CrashPoint(w, h, id, batch, metrics)
  {
    ArchiveSurvivesCrashes(w, id, batch, metrics, g);
    var marked := MarkedDone(w);
    var unqueued := Unqueued(marked, id);
    FromStart(w, id, batch, metrics, marked, unqueued);
    RowGone(w, id);
    WritesBehind(w, id, marked, unqueued, g);
  }

  lemma WritesBehind(w: Work, id: string, marked: Work, unqueued: Work, g: Work)
    requires MayMark(w, id) && DescriptorState(w.descriptor) == Some(Published) && FindBlock(w.queue, id).Ok?
    requires marked == MarkedDone(w) && unqueued == Unqueued(marked, id) && DescriptorState(marked.descriptor) == Some(Done)
    requires MarkWrites(w, id) == [marked, unqueued] && FindBlock(unqueued.queue, id) == Err(NoBlock)
    requires g == w || g in MarkWrites(w, id) || (g.queue == unqueued.queue && g.descriptor == unqueued.descriptor)
    ensures g == w || forall h | h in MarkWrites(g, id) :: h in MarkWrites(w, id)
  {
    if g == marked {
      AlreadyMarked(w, id, marked);
    } else if g != w {
      NothingToMark(g, id);
    }
  }

  lemma AlreadyMarked(w: Work, id: string, marked: Work)
    requires IsTaskId(id) && FindBlock(w.queue, id).Ok? && marked == MarkedDone(w) && DescriptorState(marked.descriptor) == Some(Done)
    ensures MarkWrites(marked, id) == if MayMark(marked, id) then [Unqueued(marked, id)] else []
  {}

  lemma NothingToMark(w: Work, id: string)
    requires IsTaskId(id) && FindBlock(w.queue, id) == Err(NoBlock) && DescriptorState(w.descriptor) == Some(Done)
    ensures MarkWrites(w, id) == []
  {}

  /** A published task whose descriptor has its status indented. */
  function Indented(): Work {
    Work(RowFor("T-1", LOWER_STATUS, Literal(Published)), Unlines([" " + (STATUS + " " + Literal(Published))]), None)
  }

  /** Marking it done takes its row away and leaves the descriptor published: the archive fails for
      every batch, and repeating it is refused. */
  lemma IndentedStatusFails(batch: string, metrics: string)
    ensures var w, id := Indented(), "T-1";
            && MayMark(w, id) && DescriptorState(w.descriptor) == Some(Published) && Archived(w, id, batch, metrics) == None
            && var t := Last(w, MarkWrites(w, id)); FindBlock(t.queue, id) == Err(NoBlock) && !MayMark(t, id)
  {
    var w, id := Indented(), "T-1";
    IndentedReads();
    IndentedRow();
    DoneReads(w);
    RowGone(w, id);
    MarkedInTwo(w, id);
  }

  lemma IndentedRow()
    ensures IsTaskId("T-1") && FindBlock(Indented().queue, "T-1").Ok?
    ensures StateOf(FindBlock(Indented().queue, "T-1").value.status) == Some(Published)
  {
    assert "T-1"[..2] == "T-" && "T-1"[2..] == "1";
    LiteralPlain(Published);
    LiteralChars(Published);
    LiteralNoKeyword(Published);
    RowIsFound("T-1", LOWER_STATUS, Literal(Published));
  }

  lemma IndentedReads()
    ensures DescriptorState(Indented().descriptor) == Some(Published) && Shadowed(Lines(Indented().descriptor), STATUS)
  {
    var line := " " + (STATUS + " " + Literal(Published));
    IndentedLine(line);
    LinesOfUnlines([line]);
    FieldHere(line, [], STATUS);
    assert [line] + [] == [line] && [line][1..] == [];
  }

  lemma IndentedLine(line: string)
    requires line == " " + (STATUS + " " + Literal(Published))
    ensures IsLine(line) && !StartsWith(line, STATUS) && StartsWith(Trim(line), STATUS)
    ensures StateOf(Trim(Trim(line)[|STATUS|..])) == Some(Published)
  {
    var word := Literal(Published);
    NamesAreKeys();
    LiteralPlain(Published);
    LiteralChars(Published);
    LiteralIsPlain(Published);
    Indentation(STATUS, word);
    assert STATUS[0] != ' ';
  }

  lemma Indentation(key: string, word: string)
    requires IsKey(key) && '\n' !in key && '\n' !in word && word != "" && word[|word| - 1] != '\r' && Trim(word) == word
    ensures var line := " " + (key + " " + word);
            IsLine(line) && !StartsWith(line, key) && StartsWith(Trim(line), key) && Trim(Trim(line)[|key|..]) == word
  {
    var written := key + " " + word;
    var line := " " + written;
    WrittenLine(key, word);
    assert line[1..] == written && line[|line| - 1] == word[|word| - 1];
    StartsAlike(line, key);
  }

  lemma MarkedInTwo(w: Work, id: string)
    requires MayMark(w, id) && DescriptorState(w.descriptor) == Some(Published) && FindBlock(w.queue, id).Ok?
    ensures var t := Last(w, MarkWrites(w, id)); t.descriptor == MarkedDone(w).descriptor && t.queue == Unqueued(w, id).queue
  {}

  /** What a projection does to the archive: a section that holds the task lands in it, and if the
      descriptor has no header or marker but its own, everything else is kept. */
  ghost predicate ProjectsAs(before: string, after: string, id: string, batch: string, descriptor: string, metrics: string) {
    && (exists section :: HoldsTask(section, id, descriptor, metrics) && Lands(before, after, id, batch, section))
    && (OwnTextOnly(descriptor, id, batch) ==> ArchivedInto(before, after, id, batch, descriptor, metrics))
  }

  lemma ProjectionIs(text: string, id: string, batch: string, descriptor: string, metrics: string)
    requires IsTaskId(id) && OkBatch(batch) && OkMetrics(metrics, id, batch)
    requires Projected(text, id, batch, SectionText(id, descriptor, metrics)).Some?
    ensures var t := Projected(text, id, batch, SectionText(id, descriptor, metrics)).value;
            ProjectsAs(text, t, id, batch, descriptor, metrics) && (OwnTextOnly(descriptor, id, batch) ==> Complete(t, id, batch))
  {
    ProjectionLands(text, id, batch, SectionText(id, descriptor, metrics));
    TextHolds(id, descriptor, metrics);
    if OwnTextOnly(descriptor, id, batch) { ProjectionArchives(text, id, batch, descriptor, metrics); }
  }

  /** A projection succeeds exactly for a descriptor that is done, with metrics of its batch, and an
      archive that has at most one section of the task with at most one marker; given that the descriptor
      has no header or marker but its own. */
  lemma ProjectWhen(w: Work, id: string, batch: string, metrics: string)
    requires OwnTextOnly(w.descriptor, id, batch)
    ensures Project(w, id, batch, metrics).Some? <==>
              && IsTaskId(id) && OkBatch(batch) && OkMetrics(metrics, id, batch) && DescriptorState(w.descriptor) == Some(Done)
              && var found := Found(Sections(ArchiveOf(w)).1, id);
                 found == [] || (|found| == 1 && Count(found[0], Marker(id, batch)) <= 1)
    ensures Project(w, id, batch, metrics).Some? ==>
              var t := Project(w, id, batch, metrics).value;
              t.queue == w.queue && t.descriptor == w.descriptor && ArchivedInto(ArchiveOf(w), ArchiveOf(t), id, batch, w.descriptor, metrics)
  {
    ProjectionLands(ArchiveOf(w), id, batch, SectionText(id, w.descriptor, metrics));
    if IsTaskId(id) && OkBatch(batch) && OkMetrics(metrics, id, batch)
       && Projected(ArchiveOf(w), id, batch, SectionText(id, w.descriptor, metrics)).Some? {
      ProjectionIs(ArchiveOf(w), id, batch, w.descriptor, metrics);
    }
  }

  /** The files of one task's archival, updated in place. */
  class ArchiveFiles {
    var queue: string
    var descriptor: string
    var done: Option<string>

    constructor (w: Work)
      ensures View() == w
    {
      queue, descriptor, done := w.queue, w.descriptor, w.done;
    }

    function View(): Work
      reads this
    {
      Work(queue, descriptor, done)
    }

    /** `mark_task_done_for_archive`: the descriptor first, then the queue. */
    method MarkTaskDone(id: string) returns (ok: bool)
      modifies this`queue, this`descriptor
      ensures ok == MayMark(old(View()), id) && View() == Last(old(View()), MarkWrites(old(View()), id))
    {
      if !IsTaskId(id) { return false; }
      var state := DescriptorState(descriptor);
      if state != Some(Published) && state != Some(Done) { return false; }
      var entry := FindBlock(queue, id);
      match entry {
        case Ok(b) => if !Publishable(StateOf(b.status)) { return false; }
        case Err(e) => if e != NoBlock || state != Some(Done) { return false; }
      }
      if state == Some(Published) {
        descriptor := WriteField(descriptor, STATUS, Literal(Done));
      }
      if entry.Ok? {
        BlockBounds(queue, id, entry.value);
        queue := RemoveBlock(queue, entry.value);
      }
      return true;
    }

    /** `project_task_archive`: one replacement at most, then a check of what is there. */
    method ProjectTask(id: string, batch: string, metrics: string) returns (ok: bool)
      modifies this`done
      ensures ok == Project(old(View()), id, batch, metrics).Some?
      ensures ok ==> ArchiveOf(View()) == ArchiveOf(Project(old(View()), id, batch, metrics).value)
      ensures queue == old(queue) && descriptor == old(descriptor)
      ensures ok ==> ProjectsAs(ArchiveOf(old(View())), ArchiveOf(View()), id, batch, descriptor, metrics)
      ensures !ok && OwnTextOnly(descriptor, id, batch) ==> done == old(done)
    {
      if !IsTaskId(id) || !OkBatch(batch) || !OkMetrics(metrics, id, batch) || DescriptorState(descriptor) != Some(Done) { return false; }
      var text := match done case Some(t) => t case None => EMPTY_ARCHIVE;
      var section := SectionText(id, descriptor, metrics);
      var projected := Projected(text, id, batch, section);
      if projected.None? { return false; }
      ProjectionIs(text, id, batch, descriptor, metrics);
      if projected.value != text { done := projected; }
      ok := Complete(projected.value, id, batch);
    }
  }
}
