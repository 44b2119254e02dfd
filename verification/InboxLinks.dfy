/** How inbox messages are linked to queue tasks, from `engine/src/inbox.rs`: provenance markers in
    the queue, the archive and the descriptors, and the reconciliation that writes the links into
    the messages. */
module InboxLinks {
  import opened Text
  import opened StatusText
  import opened LineFields
  import opened QueueText
  import opened ArchiveText

  // ---------------------------------------------------------------------------------------
  // Lines
  // ---------------------------------------------------------------------------------------

  /** `heading_rest`. */
  function HeadingRest(line: string): Option<string> {
    var n := Hashes(line);
    if 1 <= n <= 6 && n < |line| && IsWhitespace(line[n]) then Some(TrimStart(line[n..])) else None
  }

  const LEGACY := "Активная задача "

  /** `legacy_task_header_id`. */
  function LegacyTask(line: string): Option<string> {
    match HeadingRest(line)
    case None => None
    case Some(rest) =>
      if !StartsWith(rest, LEGACY) then None
      else var id := FirstWord(TrimStart(rest[|LEGACY|..])).0; if IsTaskId(id) then Some(id) else None
  }

  /** `is_bracketed_record_header`. */
  predicate Bracketed(line: string) { HeadingRest(line).Some? && StartsWith(HeadingRest(line).value, "[") }

  /** The id in brackets, if a blank follows it. */
  function BracketId(rest: string): Option<string> {
    if !StartsWith(rest, "[") then None
    else
      match IndexOf(rest[1..], "]", 0)
      case None => None
      case Some(close) =>
        if close + 2 < |rest| && IsWhitespace(rest[close + 2]) then Some(rest[1..][..close]) else None
  }

  /** `task_header_id`. */
  function HeaderTask(line: string): Option<string> {
    match HeadingRest(line)
    case None => None
    case Some(rest) =>
      match BracketId(rest)
      case Some(id) => if IsTaskId(id) then Some(id) else None
      case None => LegacyTask(line)
  }

  const MARKER := "Inbox message:"

  /** `valid_message_id`. */
  predicate IsMessageId(id: string) {
    && StartsWith(id, "msg-") && 12 <= |id| <= 124
    && forall c | c in id[4..] :: 'a' <= c <= 'z' || IsDigit(c) || c == '-'
  }

  /** `inbox_marker_id`. */
  function MarkerOf(line: string): Option<string> {
    var rest := Trim(line);
    if !StartsWith(rest, MARKER) then None
    else var id := Trim(rest[|MARKER|..]); if IsMessageId(id) then Some(id) else None
  }

  // What markers and headers look like

  /** A line of hashes, blanks and then a text. */
  lemma HeadingIs(n: nat, blanks: string, rest: string)
    requires blanks != "" && Blank(blanks) && rest != "" && !IsWhitespace(rest[0]) && rest[0] != '#'
    ensures HeadingRest(Repeat('#', n) + (blanks + rest)) == if 1 <= n <= 6 then Some(rest) else None
  {
    var line := Repeat('#', n) + (blanks + rest);
    assert blanks[0] in blanks;
    HashRun(n, blanks + rest);
    RepeatLength('#', n);
    assert line[n] == blanks[0] && line[n..] == blanks + rest;
    TrimStartBlank(blanks, rest);
  }

  /** A heading of one to six hashes whose text is a task id in brackets and a blank opens the record
      of that task. */
  lemma BracketHeader(n: nat, blanks: string, id: string, c: char, rest: string)
    requires blanks != "" && Blank(blanks) && IsTaskId(id) && IsWhitespace(c)
    ensures var line := Repeat('#', n) + (blanks + ("[" + (id + ("]" + ([c] + rest)))));
            if 1 <= n <= 6 then IsHeader(line) && Opens(line) == Some(id) else !IsHeader(line)
  {
    var text := "[" + (id + ("]" + ([c] + rest)));
    HeadingIs(n, blanks, text);
    var inner := id + ("]" + ([c] + rest));
    assert text[1..] == inner && text[0] == '[';
    NoBracketInId(id);
    IdThenBracket(id, [c] + rest);
    assert inner[..|id|] == id && text[|id| + 2] == c;
    assert text[..1] == "[";
  }

  /** A bracketed heading of anything else ends the record above it and opens none. */
  lemma OtherHeader(line: string, id: string, behind: string)
    requires HeadingRest(line) == Some("[" + (id + ("]" + behind))) && ']' !in id
    requires !IsTaskId(id) || behind == "" || !IsWhitespace(behind[0])
    ensures IsHeader(line) && Opens(line) == None
  {
    var text, inner := "[" + (id + ("]" + behind)), id + ("]" + behind);
    assert text[1..] == inner && text[..1] == "[" && text[0] == '[';
    IdThenBracket(id, behind);
    assert inner[..|id|] == id && (behind != "" ==> text[|id| + 2] == behind[0]);
    assert LEGACY[0] == 'А';
    StartsAlike(text, LEGACY);
  }

  /** The older heading names its task without brackets. */
  lemma LegacyHeading(n: nat, blanks: string, id: string, behind: string)
    requires 1 <= n <= 6 && blanks != "" && Blank(blanks) && IsTaskId(id) && !IsWhitespace(id[|id| - 1])
    requires (forall c | c in id :: !IsWhitespace(c)) && (behind == "" || IsWhitespace(behind[0]))
    ensures var line := Repeat('#', n) + (blanks + (LEGACY + (id + behind))); IsHeader(line) && Opens(line) == Some(id)
  {
    var text := LEGACY + (id + behind);
    assert LEGACY[0] == 'А' && text[0] == LEGACY[0] && !IsWhitespace(text[0]);
    HeadingIs(n, blanks, text);
    assert text[..|LEGACY|] == LEGACY && text[|LEGACY|..] == id + behind;
    assert id[..2][0] == 'T' && id[0] in id && (id + behind)[0] == id[0];
    WordEnds(id, behind);
    assert text[..1] == [text[0]];
  }

  /** A marker line names its message, whatever blanks are around, exactly if that is a message id. */
  lemma MarkerIs(lead: string, blanks: string, id: string, behind: string)
    requires Blank(lead) && Blank(blanks) && Blank(behind) && id != "" && !IsWhitespace(id[0]) && !IsWhitespace(id[|id| - 1])
    ensures MarkerOf(lead + (MARKER + (blanks + (id + behind)))) == if IsMessageId(id) then Some(id) else None
  {
    var body := MARKER + (blanks + id);
    assert lead + (MARKER + (blanks + (id + behind))) == lead + (body + behind);
    assert MARKER[0] == 'I' && body[0] == MARKER[0];
    TrimStartBlank(lead, body + behind);
    TrimEndBlank(body, behind);
    assert body[..|MARKER|] == MARKER && body[|MARKER|..] == blanks + id;
    TrimStartBlank(blanks, id);
    TrimEndBlank(id, "");
    assert id + "" == id;
  }

  /** A line without the words names nothing, nor does what is not a message id. */
  lemma MarkerOnly(line: string)
    requires MarkerOf(line).Some?
    ensures IsMessageId(MarkerOf(line).value) && StartsWith(Trim(line), "Inbox message:")
  {}

  // ---------------------------------------------------------------------------------------
  // Links
  // ---------------------------------------------------------------------------------------

  predicate IsHeader(line: string) { Bracketed(line) || LegacyTask(line).Some? }

  /** The task a header line opens a record of; a bracketed header of another kind opens none. */
  function Opens(line: string): Option<string> { if Bracketed(line) then HeaderTask(line) else LegacyTask(line) }

  /** The task whose record line `i` belongs to: that of the nearest header at or before it. */
  function Scope(lines: seq<string>, i: nat, given: Option<string>): Option<string>
    requires i < |lines|
  {
    if given.Some? then given
    else if IsHeader(lines[i]) then Opens(lines[i])
    else if i == 0 then None
    else Scope(lines, i - 1, given)
  }

  /** A marker line for the message stands in a record of the task. */
  predicate Marks(lines: seq<string>, i: nat, given: Option<string>, message: string, task: string) {
    i < |lines| && MarkerOf(lines[i]) == Some(message) && Scope(lines, i, given) == Some(task)
  }

  /** `Scope` is what it says: the record of the nearest header above. */
  lemma {:induction false} ScopeIsNearest(lines: seq<string>, i: nat, j: nat)
    requires j <= i < |lines| && IsHeader(lines[j]) && forall k | j < k <= i :: !IsHeader(lines[k])
    ensures Scope(lines, i, None) == Opens(lines[j])
  {
    if j < i { ScopeIsNearest(lines, i - 1, j); }
  }

  /** The task of the record that is open in front of line `i`. */
  function ScopeBefore(lines: seq<string>, i: nat, given: Option<string>): Option<string>
    requires i <= |lines|
  {
    if i == 0 then given else Scope(lines, i - 1, given)
  }

  lemma ScopeStep(lines: seq<string>, i: nat, given: Option<string>)
    requires i < |lines|
    ensures ScopeBefore(lines, i + 1, given) == Scope(lines, i, given)
    ensures Scope(lines, i, given) ==
            if given.Some? then given
            else if Bracketed(lines[i]) then HeaderTask(lines[i])
            else if LegacyTask(lines[i]).Some? then LegacyTask(lines[i])
            else ScopeBefore(lines, i, given)
  {}

  type Links = map<string, set<string>>

  function TasksOf(links: Links, message: string): set<string> { if message in links then links[message] else {} }

  /** `add_links_from_text`: afterwards a message is linked to a task exactly if it was before, or
      one of its markers stands in a record of that task. */
  method AddLinks(text: string, given: Option<string>, links: Links) returns (r: Links)
    ensures Collected(r, links, Lines(text), |Lines(text)|, given)
  {
    var lines := Lines(text);
    var current, i := given, 0;
    r := links;
    while i < |lines|
      invariant i <= |lines| && Collected(r, links, lines, i, given)
      invariant current == ScopeBefore(lines, i, given)
    {
      ScopeStep(lines, i, given);
      if given.None? {
        if Bracketed(lines[i]) {
          current := HeaderTask(lines[i]);
        } else if LegacyTask(lines[i]).Some? {
          current := LegacyTask(lines[i]);
        }
      }
      var marker := MarkerOf(lines[i]);
      ghost var before := r;
      r := AddLink(r, marker, current);
      OneMoreLink(lines, i, given, links, before, r);
      i := i + 1;
    }
  }

  /** One marker in the record of one task, if there are both. */
  function AddLink(links: Links, marker: Option<string>, current: Option<string>): Links {
    if marker.Some? && current.Some? then links[marker.value := TasksOf(links, marker.value) + {current.value}] else links
  }

  /** The links of the first `n` lines, on top of those there were. */
  ghost predicate Collected(r: Links, links: Links, lines: seq<string>, n: nat, given: Option<string>) {
    forall message, task ::
      task in TasksOf(r, message) <==> task in TasksOf(links, message) || Marked(lines, n, given, message, task)
  }

  lemma OneMoreLink(lines: seq<string>, i: nat, given: Option<string>, links: Links, before: Links, after: Links)
    requires i < |lines| && Collected(before, links, lines, i, given)
    requires var marker, scope := MarkerOf(lines[i]), Scope(lines, i, given);
             after == if marker.Some? && scope.Some? then before[marker.value := TasksOf(before, marker.value) + {scope.value}] else before
    ensures Collected(after, links, lines, i + 1, given)
  {
    OneMoreLine(lines, i, given);
    forall message, task
      ensures task in TasksOf(after, message) <==> task in TasksOf(links, message) || Marked(lines, i + 1, given, message, task)
    {
      assert task in TasksOf(before, message) <==> task in TasksOf(links, message) || Marked(lines, i, given, message, task);
      assert task in TasksOf(after, message) <==> task in TasksOf(before, message) || Marks(lines, i, given, message, task);
    }
  }

  /** Some line before line `n` marks the message for the task. */
  ghost predicate Marked(lines: seq<string>, n: nat, given: Option<string>, message: string, task: string) {
    exists i: nat :: i < n && Marks(lines, i, given, message, task)
  }

  lemma OneMoreLine(lines: seq<string>, i: nat, given: Option<string>)
    requires i < |lines|
    ensures forall message, task ::
      Marked(lines, i + 1, given, message, task) <==> Marked(lines, i, given, message, task) || Marks(lines, i, given, message, task)
  {
    forall message, task
      ensures Marked(lines, i + 1, given, message, task) <==> Marked(lines, i, given, message, task) || Marks(lines, i, given, message, task)
    {
      if Marks(lines, i, given, message, task) { assert i < i + 1; }
      if Marked(lines, i, given, message, task) {
        var j: nat :| j < i && Marks(lines, j, given, message, task);
        assert j < i + 1;
      }
    }
  }

  // ---------------------------------------------------------------------------------------
  // Reconciliation
  // ---------------------------------------------------------------------------------------

  datatype Processing = New | Read | Queued | Implemented | Rejected

  /** A message as far as reconciliation is concerned. */
  datatype Message = Message(id: string, processing: Processing, tasks: set<string>, linkedRemarks: seq<(string, set<string>)>, updatedAt: string)

  predicate Terminal(p: Processing) { p == Implemented || p == Rejected }

  predicate BecomesQueued(m: Message, merged: set<string>) { m.processing == Read && merged != {} }

  predicate NeedsUpdate(m: Message, links: Links) {
    m.id in links && !Terminal(m.processing) &&
    (m.tasks + links[m.id] != m.tasks || BecomesQueued(m, m.tasks + links[m.id]))
  }

  /** What reconciliation makes of one message. */
  function Updated(m: Message, links: Links, at: string): Message {
    if !NeedsUpdate(m, links) then m
    else
      var merged := m.tasks + links[m.id];
      if BecomesQueued(m, merged)
      then Message(m.id, Queued, merged, m.linkedRemarks + [(at, merged)], at)
      else Message(m.id, m.processing, merged, m.linkedRemarks, at)
  }

  /** The inbox once the first `k` messages are written. */
  function Written(messages: seq<Message>, links: Links, at: string, k: nat): seq<Message>
    requires k <= |messages|
  {
    seq(|messages|, i requires 0 <= i < |messages| => if i < k then Updated(messages[i], links, at) else messages[i])
  }

  function Reconciled(messages: seq<Message>, links: Links, at: string): seq<Message> { Written(messages, links, at, |messages|) }

  function UpdatedIds(messages: seq<Message>, links: Links): seq<string> {
    if messages == [] then []
    else (if NeedsUpdate(messages[0], links) then [messages[0].id] else []) + UpdatedIds(messages[1..], links)
  }

  /** `reconcile`: one message after the other is loaded, updated and written back. */
  method Reconcile(messages: seq<Message>, links: Links, at: string) returns (r: seq<Message>, updated: seq<string>)
    ensures r == Reconciled(messages, links, at) && updated == UpdatedIds(messages, links)
  {
    r, updated := messages, [];
    var i := 0;
    while i < |messages|
      invariant i <= |messages| && r == Written(messages, links, at, i)
      invariant updated + UpdatedIds(messages[i..], links) == UpdatedIds(messages, links)
    {
      var m := messages[i];
      ReconcileStep(messages, links, at, i);
      if m.id in links && !Terminal(m.processing) {
        var merged := m.tasks + links[m.id];
        var queued := BecomesQueued(m, merged);
        if merged != m.tasks || queued {
          var next := Message(m.id, if queued then Queued else m.processing, merged,
                              if queued then m.linkedRemarks + [(at, merged)] else m.linkedRemarks, at);
          r := r[i := next];
          updated := updated + [m.id];
        }
      }
      i := i + 1;
    }
  }

  lemma ReconcileStep(messages: seq<Message>, links: Links, at: string, i: nat)
    requires i < |messages|
    ensures Written(messages, links, at, i + 1) == Written(messages, links, at, i)[i := Updated(messages[i], links, at)]
    ensures Written(messages, links, at, i)[i] == messages[i]
    ensures UpdatedIds(messages[i..], links) ==
            (if NeedsUpdate(messages[i], links) then [messages[i].id] else []) + UpdatedIds(messages[i + 1..], links)
  {
    assert messages[i..][1..] == messages[i + 1..];
  }

  /** What one run may do to a message: links only grow, a terminal message stays as it is, a read
      one is queued when it gets a link, and otherwise the status stays. */
  lemma UpdateIsGentle(m: Message, links: Links, at: string)
    ensures var t := Updated(m, links, at);
            && m.tasks <= t.tasks <= m.tasks + TasksOf(links, m.id) && t.id == m.id
            && (Terminal(m.processing) ==> t == m)
            && (!Terminal(m.processing) ==> t.tasks == m.tasks + TasksOf(links, m.id))
            && t.processing == (if m.processing == Read && m.id in links && t.tasks != {} then Queued else m.processing)
            && t.linkedRemarks == (if t.processing != m.processing then m.linkedRemarks + [(at, t.tasks)] else m.linkedRemarks)
            && t.updatedAt == (if t.tasks != m.tasks || t.processing != m.processing then at else m.updatedAt)
            && (NeedsUpdate(m, links) <==> t.tasks != m.tasks || t.processing != m.processing)
  {}

  /** The ids reported are those of the messages that changed, in their order. */
  lemma {:induction false} UpdatedIdsAre(messages: seq<Message>, links: Links, at: string) returns (order: seq<nat>)
    ensures forall k | 0 <= k < |order| - 1 :: order[k] < order[k + 1]
    ensures forall i: nat :: i in order <==> i < |messages| && Changes(messages[i], Updated(messages[i], links, at))
    ensures |UpdatedIds(messages, links)| == |order|
    ensures forall k | 0 <= k < |order| :: order[k] < |messages| && UpdatedIds(messages, links)[k] == messages[order[k]].id
    decreases |messages|
  {
    if messages == [] {
      order := [];
    } else {
      var init, last := messages[..|messages| - 1], messages[|messages| - 1];
      assert messages == init + [last];
      order := UpdatedIdsAre(init, links, at);
      IdsJoin(init, [last], links);
      UpdateIsGentle(last, links, at);
      assert [last][1..] == [] && UpdatedIds([last], links) == if NeedsUpdate(last, links) then [last.id] else [];
      if NeedsUpdate(last, links) { order := order + [|init|]; }
    }
  }

  predicate Changes(m: Message, t: Message) { t.tasks != m.tasks || t.processing != m.processing }

  lemma {:induction false} IdsJoin(a: seq<Message>, b: seq<Message>, links: Links)
    ensures UpdatedIds(a + b, links) == UpdatedIds(a, links) + UpdatedIds(b, links)
  {
    if a == [] {
      assert a + b == b;
    } else {
      assert (a + b)[0] == a[0] && (a + b)[1..] == a[1..] + b;
      IdsJoin(a[1..], b, links);
    }
  }

  lemma UpdatedTwice(m: Message, links: Links, at: string, later: string)
    ensures Updated(Updated(m, links, at), links, later) == Updated(m, links, at)
    ensures !NeedsUpdate(Updated(m, links, at), links)
  {}

  /** Running again, at any later time, writes nothing. */
  lemma ReconcileIsIdempotent(messages: seq<Message>, links: Links, at: string, later: string)
    ensures Reconciled(Reconciled(messages, links, at), links, later) == Reconciled(messages, links, at)
    ensures UpdatedIds(Reconciled(messages, links, at), links) == []
  {
    var once := Reconciled(messages, links, at);
    forall i | 0 <= i < |once| ensures Updated(once[i], links, later) == once[i] && !NeedsUpdate(once[i], links) {
      UpdatedTwice(messages[i], links, at, later);
    }
    NothingToUpdate(once, links);
  }

  lemma {:induction false} NothingToUpdate(messages: seq<Message>, links: Links)
    requires forall m | m in messages :: !NeedsUpdate(m, links)
    ensures UpdatedIds(messages, links) == []
  {
    if messages != [] { NothingToUpdate(messages[1..], links); }
  }

  /** A run that was cut after any message and is then repeated, even at another time, leaves the
      same links and statuses as one whole run. */
  lemma CutThenRepeated(messages: seq<Message>, links: Links, at: string, k: nat, later: string, i: nat)
    requires k <= |messages| && i < |messages|
    ensures var repeated, whole := Reconciled(Written(messages, links, at, k), links, later), Reconciled(messages, links, at);
            repeated[i].tasks == whole[i].tasks && repeated[i].processing == whole[i].processing && repeated[i].id == whole[i].id
  {
    UpdatedTwice(messages[i], links, at, later);
    UpdateIsGentle(messages[i], links, at);
    UpdateIsGentle(messages[i], links, later);
  }
}
