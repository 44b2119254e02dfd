/** Final-reply delivery between two inboxes, from `engine/src/inbox.rs`.

    Files are replaced, created and removed atomically; everything between two such actions may
    be interleaved with other processes. `Advance` is one action of a delivering process,
    `Next` one step of the whole system: a delivery action, a failed or crashed process, an
    operator clearing the lock of a dead process, or one of the edits other people make. The
    main results hold in every state of every run. */
module InboxDelivery {
  import opened Text

  // ---------------------------------------------------------------------------------------
  // Messages
  // ---------------------------------------------------------------------------------------

  type Project = string

  /** A reply's id is a hash of the original id and the replying project; two different pairs
      are taken to have different ids. */
  datatype MessageId = Given(text: string) | ReplyTo(original: MessageId, sender: Project)

  datatype Kind = Request | Reply | Release

  /** What the sender of a message owns. */
  datatype Content = Content(
    from: Project, fromName: string, to: Project, toName: string,
    subject: string, body: string, kind: Kind, inReplyTo: Option<MessageId>,
    conversation: Option<MessageId>, dedupe: string, release: Option<string>, createdAt: string)

  datatype Processing = New | Read | Queued | Implemented | Rejected
  datatype ReplyStatus = NoReply | Acknowledged | Final

  datatype Remark = Sent(at: string, reply: MessageId) | Note(at: string, actor: string, text: string)

  /** A message file: the sender's content and the recipient's processing fields. */
  datatype Record = Record(
    content: Content, processing: Processing, replyStatus: ReplyStatus, tasks: set<string>,
    replyIds: multiset<MessageId>, remarks: seq<Remark>, updatedAt: string)

  const FINAL_KEY := "final-v1"
  const MAX_SUBJECT: nat := 240
  const MAX_NAME: nat := 120

  predicate Terminal(p: Processing) { p == Implemented || p == Rejected }

  /** `validate_text` with blank text refused. */
  predicate OkText(s: string, maximum: nat) { Trim(s) != "" && Utf16Length(s) <= maximum && NoControl(s) }

  /** `validate_name` of the project registry: a name of spaces passes. */
  predicate RegistryName(s: string) { s != "" && Utf8Length(s) <= MAX_NAME && NoControl(s) }

  /** `parse_message`, on the fields it can refuse. */
  predicate Parses(c: Content) {
    && c.from != c.to
    && OkText(c.fromName, MAX_NAME) && OkText(c.toName, MAX_NAME)
    && OkText(c.subject, MAX_SUBJECT)
    && '\0' !in c.body
    && (c.kind.Reply? <==> c.inReplyTo.Some?)
    && (c.kind.Release? <==> c.release.Some?)
  }

  /** `truncate_utf16`, with `room` units left. */
  function Truncate(s: string, room: nat): string {
    if s == "" || Utf16Units(s[0]) > room then "" else s[..1] + Truncate(s[1..], room - Utf16Units(s[0]))
  }

  function ReplySubject(subject: string): string { Truncate("Re: " + subject, MAX_SUBJECT) }

  function Conversation(source: Content, original: MessageId): MessageId {
    match source.conversation case Some(c) => c case None => original
  }

  /** `new_final_reply`. */
  function NewReply(source: Content, original: MessageId, me: Project, myName: string, senderName: string, body: string, at: string): Content {
    Content(me, myName, source.from, senderName, ReplySubject(source.subject), body, Reply, Some(original),
            Some(Conversation(source, original)), FINAL_KEY, None, at)
  }

  function NewRecord(c: Content): Record { Record(c, New, NoReply, {}, multiset{}, [], c.createdAt) }

  /** `assert_identical_reply`, on two contents that parse. */
  predicate SameReply(existing: Content, expected: Content) {
    && existing.subject == expected.subject && existing.body == expected.body && existing.kind == expected.kind
    && existing.inReplyTo == expected.inReplyTo && existing.conversation == expected.conversation
    && existing.dedupe == expected.dedupe && existing.release == expected.release
    && existing.from == expected.from && existing.to == expected.to
  }

  /** What the source message becomes once its reply is out. */
  function RecordFinal(r: Record, reply: MessageId, at: string): Record {
    var unsent := reply !in r.replyIds;
    Record(r.content, r.processing, Final, r.tasks, if unsent then r.replyIds + multiset{reply} else r.replyIds,
           if unsent then r.remarks + [Sent(at, reply)] else r.remarks, at)
  }

  // ---------------------------------------------------------------------------------------
  // The system
  // ---------------------------------------------------------------------------------------

  datatype Reading =
    | Entered
    | HasSource(source: Content)
    | HasSender(source: Content, senderName: string)

  datatype Phase = Composed | TargetHeld | TargetAbsent | TargetDone | Replied
                 | SourceHeld | SourceRead(record: Record) | Recorded | Cleaned

  /** A call of `deliver_final_reply` by project `me` for its message `original`. */
  datatype Job =
    | Preparing(me: Project, original: MessageId, at: string, myName: string, reading: Reading)
    | Delivering(me: Project, original: MessageId, at: string, expected: Content, phase: Phase)

  type Key = (Project, MessageId)

  datatype State = State(
    records: map<Key, Record>,      // message files, by inbox and id
    inboxes: set<Project>,          // projects with an initialized inbox
    registry: map<Project, string>, // registered projects and their names
    candidates: map<Key, string>,   // bodies of prepared final replies
    locks: map<Project, nat>,       // inbox locks, by the process that created them
    jobs: map<nat, Job>)

  function ReplyKey(job: Job): Key
    requires job.Delivering?
  {
    (job.expected.to, ReplyTo(job.original, job.me))
  }

  function SourceKey(job: Job): Key { (job.me, job.original) }

  /** The inbox lock a process holds. */
  function Held(job: Job): Option<Project> {
    if job.Preparing? then None
    else
      match job.phase
      case Composed | Replied => None
      case TargetHeld | TargetAbsent | TargetDone => Some(job.expected.to)
      case SourceHeld | SourceRead(_) | Recorded | Cleaned => Some(job.me)
  }

  function WithRecords(s: State, records: map<Key, Record>): State {
    State(records, s.inboxes, s.registry, s.candidates, s.locks, s.jobs)
  }

  function WithInboxes(s: State, inboxes: set<Project>): State {
    State(s.records, inboxes, s.registry, s.candidates, s.locks, s.jobs)
  }

  function WithRegistry(s: State, registry: map<Project, string>): State {
    State(s.records, s.inboxes, registry, s.candidates, s.locks, s.jobs)
  }

  function WithCandidates(s: State, candidates: map<Key, string>): State {
    State(s.records, s.inboxes, s.registry, candidates, s.locks, s.jobs)
  }

  function WithLocks(s: State, locks: map<Project, nat>): State {
    State(s.records, s.inboxes, s.registry, s.candidates, locks, s.jobs)
  }

  function WithJobs(s: State, jobs: map<nat, Job>): State {
    State(s.records, s.inboxes, s.registry, s.candidates, s.locks, jobs)
  }

  function WithReading(job: Job, reading: Reading): Job
    requires job.Preparing?
  {
    Preparing(job.me, job.original, job.at, job.myName, reading)
  }

  function WithPhase(job: Job, phase: Phase): Job
    requires job.Delivering?
  {
    Delivering(job.me, job.original, job.at, job.expected, phase)
  }

  function Go(s: State, pid: nat, job: Job): State { WithJobs(s, s.jobs[pid := job]) }

  function Take(s: State, pid: nat, p: Project, job: Job): Option<State> {
    if p in s.locks then None else Some(WithJobs(WithLocks(s, s.locks[p := pid]), s.jobs[pid := job]))
  }

  /** Dropping a lock removes the file only if it still carries this process's token. */
  function Drop(s: State, pid: nat, held: Option<Project>): map<Project, nat> {
    if held.Some? && held.value in s.locks && s.locks[held.value] == pid then s.locks - {held.value} else s.locks
  }

  /** The call is over: returned, or failed with an error. */
  function Leave(s: State, pid: nat): State
    requires pid in s.jobs
  {
    WithJobs(WithLocks(s, Drop(s, pid, Held(s.jobs[pid]))), s.jobs - {pid})
  }

  /** One action of a delivery call; `None` when the call fails or has to wait for a lock. */
  function Advance(s: State, pid: nat): Option<State>
    requires pid in s.jobs
  {
    var job := s.jobs[pid];
    if job.Preparing? then Prepare(s, pid, job) else Deliver(s, pid, job)
  }

  function Prepare(s: State, pid: nat, job: Job): Option<State>
    requires job.Preparing?
  {
    match job.reading
    case Entered =>
      if SourceKey(job) !in s.records then None else
      var r := s.records[SourceKey(job)];
      if Parses(r.content) && Terminal(r.processing) && r.replyStatus != Final && r.content.to == job.me
      then Some(Go(s, pid, WithReading(job, HasSource(r.content)))) else None
    case HasSource(source) =>
      if source.from in s.registry && source.from != job.me
      then Some(Go(s, pid, WithReading(job, HasSender(source, s.registry[source.from])))) else None
    case HasSender(source, senderName) =>
      if SourceKey(job) !in s.candidates || Trim(s.candidates[SourceKey(job)]) == "" then None else
      var expected := NewReply(source, job.original, job.me, job.myName, senderName, s.candidates[SourceKey(job)], job.at);
      Some(Go(s, pid, Delivering(job.me, job.original, job.at, expected, Composed)))
  }

  function Deliver(s: State, pid: nat, job: Job): Option<State>
    requires job.Delivering?
  {
    match job.phase
    case Composed => if job.expected.to in s.inboxes then Take(s, pid, job.expected.to, WithPhase(job, TargetHeld)) else None
    case TargetHeld => LookTarget(s, pid, job)
    case TargetAbsent => Some(CreateReply(s, pid, job))
    case TargetDone => Some(Go(WithLocks(s, Drop(s, pid, Held(job))), pid, WithPhase(job, Replied)))
    case Replied => Take(s, pid, job.me, WithPhase(job, SourceHeld))
    case SourceHeld => LookSource(s, pid, job)
    case SourceRead(r) => Some(RecordSource(s, pid, job, r))
    case Recorded => Some(Go(WithCandidates(s, s.candidates - {SourceKey(job)}), pid, WithPhase(job, Cleaned)))
    case Cleaned => Some(WithJobs(WithLocks(s, Drop(s, pid, Held(job))), s.jobs - {pid}))
  }

  function LookTarget(s: State, pid: nat, job: Job): Option<State>
    requires job.Delivering?
  {
    if ReplyKey(job) !in s.records then Some(Go(s, pid, WithPhase(job, TargetAbsent)))
    else if CanReuse(s.records[ReplyKey(job)].content, job.expected) then Some(Go(s, pid, WithPhase(job, TargetDone)))
    else None
  }

  /** `assert_identical_reply`, on a file just loaded. */
  predicate CanReuse(existing: Content, expected: Content) {
    Parses(existing) && Parses(expected) && SameReply(existing, expected)
  }

  function CreateReply(s: State, pid: nat, job: Job): State
    requires job.Delivering?
  {
    Go(WithRecords(s, s.records[ReplyKey(job) := NewRecord(job.expected)]), pid, WithPhase(job, TargetDone))
  }

  function LookSource(s: State, pid: nat, job: Job): Option<State>
    requires job.Delivering?
  {
    if SourceKey(job) in s.records && CanRecord(s.records[SourceKey(job)], job)
    then Some(Go(s, pid, WithPhase(job, SourceRead(s.records[SourceKey(job)])))) else None
  }

  predicate CanRecord(r: Record, job: Job) {
    && Parses(r.content) && Terminal(r.processing) && r.content.to == job.me
    && (ReplyTo(job.original, job.me) in r.replyIds ==> r.replyStatus == Final)
  }

  function RecordSource(s: State, pid: nat, job: Job, r: Record): State
    requires job.Delivering?
  {
    var recorded := RecordFinal(r, ReplyTo(job.original, job.me), job.at);
    Go(WithRecords(s, s.records[SourceKey(job) := recorded]), pid, WithPhase(job, Recorded))
  }

  datatype Event =
    | Enter(pid: nat, me: Project, original: MessageId, at: string)
    | Act(pid: nat)
    | Fail(pid: nat)
    | Crash(pid: nat)
    | Clear(inbox: Project)
    | Arrive(inbox: Project, text: string, record: Record)
    | Edit(inbox: Project, id: MessageId, processing: Processing, replyStatus: ReplyStatus, tasks: set<string>, note: Option<Remark>, at: string)
    | Offer(key: Key, body: string)
    | Withdraw(key: Key)
    | Register(project: Project, name: string)
    | Unregister(project: Project)
    | Open(inbox: Project)

  /** What the owner of an inbox does to one of its messages, holding the inbox lock: the final
      marker, the reply ids and the sender's content are not its to change. */
  function Edited(r: Record, e: Event): Record
    requires e.Edit?
  {
    Record(r.content, e.processing, e.replyStatus, e.tasks, r.replyIds,
           match e.note case Some(n) => r.remarks + [n] case None => r.remarks, e.at)
  }

  predicate MayEdit(r: Record, e: Event)
    requires e.Edit?
  {
    (e.replyStatus == Final <==> r.replyStatus == Final) && (e.note.Some? ==> e.note.value.Note?)
  }

  /** One step of the system, if the event can happen now. */
  function Next(s: State, e: Event): Option<State> {
    match e
    case Enter(pid, me, original, at) =>
      if pid in s.jobs || pid in s.locks.Values || me !in s.registry then None
      else Some(Go(s, pid, Preparing(me, original, at, s.registry[me], Entered)))
    case Act(pid) => if pid in s.jobs then Advance(s, pid) else None
    case Fail(pid) => if pid in s.jobs then Some(Leave(s, pid)) else None
    case Crash(pid) => if pid in s.jobs then Some(WithJobs(s, s.jobs - {pid})) else None
    case Clear(p) => if p in s.locks && s.locks[p] !in s.jobs then Some(WithLocks(s, s.locks - {p})) else None
    case Arrive(p, text, r) =>
      if (p, Given(text)) in s.records || r.replyStatus == Final || r.replyIds != multiset{} || r.remarks != [] then None
      else Some(WithRecords(s, s.records[(p, Given(text)) := r]))
    case Edit(p, id, _, _, _, _, _) =>
      if p in s.locks || (p, id) !in s.records || !MayEdit(s.records[(p, id)], e) then None
      else Some(WithRecords(s, s.records[(p, id) := Edited(s.records[(p, id)], e)]))
    case Offer(key, body) => Some(WithCandidates(s, s.candidates[key := body]))
    case Withdraw(key) => Some(WithCandidates(s, s.candidates - {key}))
    case Register(p, name) => if RegistryName(name) then Some(WithRegistry(s, s.registry[p := name])) else None
    case Unregister(p) => Some(WithRegistry(s, s.registry - {p}))
    case Open(p) => Some(WithInboxes(s, s.inboxes + {p}))
  }

  const Start := State(map[], {}, map[], map[], map[], map[])

  /** The state after a run, if every event could happen when its turn came. */
  function Run(s: State, events: seq<Event>): Option<State>
    decreases |events|
  {
    if events == [] then Some(s)
    else match Next(s, events[0]) case Some(t) => Run(t, events[1..]) case None => None
  }

  // ---------------------------------------------------------------------------------------
  // What every step keeps
  // ---------------------------------------------------------------------------------------

  function CountSent(remarks: seq<Remark>, reply: MessageId): nat {
    if remarks == [] then 0
    else
      var last := remarks[|remarks| - 1];
      CountSent(remarks[..|remarks| - 1], reply) + if last.Sent? && last.reply == reply then 1 else 0
  }

  lemma CountSentAppend(remarks: seq<Remark>, last: Remark, reply: MessageId)
    ensures CountSent(remarks + [last], reply) == CountSent(remarks, reply) + if last.Sent? && last.reply == reply then 1 else 0
  {
    assert (remarks + [last])[..|remarks|] == remarks;
  }

  /** `c` answers the message `original` with content `source`. */
  predicate Answers(c: Content, source: Content, me: Project, original: MessageId) {
    && Parses(source) && source.to == me
    && c.from == me && c.to == source.from && c.subject == ReplySubject(source.subject)
    && c.kind == Reply && c.inReplyTo == Some(original) && c.conversation == Some(Conversation(source, original))
    && c.dedupe == FINAL_KEY && c.release == None
    && RegistryName(c.fromName) && RegistryName(c.toName) && Trim(c.body) != ""
  }

  /** Final, recorded and remarked go together, once each, and only with the reply delivered. */
  predicate SourceOk(s: State, key: Key)
    requires key in s.records
  {
    var r, reply := s.records[key], ReplyTo(key.1, key.0);
    var times := if r.replyStatus == Final then 1 else 0;
    && r.replyIds[reply] == times
    && CountSent(r.remarks, reply) == times
    && (r.replyStatus == Final ==> (r.content.from, reply) in s.records)
  }

  /** A delivered reply answers the message its id names, for the project that sent it. */
  predicate TargetOk(s: State, key: Key)
    requires key in s.records
  {
    key.1.ReplyTo? ==>
      var origin := (key.1.sender, key.1.original);
      && origin in s.records
      && s.records[origin].content.from == key.0
      && Answers(s.records[key].content, s.records[origin].content, key.1.sender, key.1.original)
  }

  predicate ReadingOk(s: State, job: Job)
    requires job.Preparing?
  {
    && RegistryName(job.myName)
    && (job.reading.Entered? ||
        (&& SourceKey(job) in s.records && s.records[SourceKey(job)].content == job.reading.source
         && Parses(job.reading.source) && job.reading.source.to == job.me
         && (job.reading.HasSender? ==> RegistryName(job.reading.senderName))))
  }

  predicate PhaseOk(s: State, job: Job)
    requires job.Delivering?
  {
    && SourceKey(job) in s.records
    && Answers(job.expected, s.records[SourceKey(job)].content, job.me, job.original)
    && (job.phase == TargetAbsent ==> ReplyKey(job) !in s.records)
    && (job.phase.SourceRead? ==>
          s.records[SourceKey(job)] == job.phase.record && Terminal(job.phase.record.processing))
    && (job.phase.Composed? || job.phase.TargetHeld? || job.phase.TargetAbsent? || ReplyKey(job) in s.records)
  }

  predicate JobOk(s: State, pid: nat)
    requires pid in s.jobs
  {
    var job := s.jobs[pid];
    && (if job.Preparing? then ReadingOk(s, job) else PhaseOk(s, job))
    && (Held(job).Some? ==> Held(job).value in s.locks && s.locks[Held(job).value] == pid)
  }

  predicate NamesOk(s: State) { forall p | p in s.registry :: RegistryName(s.registry[p]) }

  ghost predicate Inv(s: State) {
    && (forall key | key in s.records :: SourceOk(s, key) && TargetOk(s, key))
    && (forall pid | pid in s.jobs :: JobOk(s, pid))
    && NamesOk(s)
  }

  /** Files are never deleted and their sender's content never changes. */
  ghost predicate Keeps(s: State, t: State) {
    forall key | key in s.records ::
      && key in t.records && t.records[key].content == s.records[key].content
      && (s.records[key].replyStatus == Final ==> t.records[key].replyStatus == Final)
  }

  // ---------------------------------------------------------------------------------------
  // Every step keeps it
  // ---------------------------------------------------------------------------------------

  lemma TargetStays(s: State, t: State, key: Key)
    requires key in s.records && TargetOk(s, key) && Keeps(s, t)
    ensures TargetOk(t, key)
  {}

  lemma SourceStays(s: State, t: State, key: Key)
    requires key in s.records && SourceOk(s, key) && Keeps(s, t) && t.records[key] == s.records[key]
    ensures SourceOk(t, key)
  {}

  /** A process that did not move is as well off as before, unless someone took its lock,
      delivered the reply it found missing or changed the message it has read. */
  lemma JobStays(s: State, t: State, pid: nat)
    requires pid in s.jobs && pid in t.jobs && t.jobs[pid] == s.jobs[pid] && JobOk(s, pid) && Keeps(s, t)
    requires Held(s.jobs[pid]).Some? ==>
      Held(s.jobs[pid]).value in s.locks && Held(s.jobs[pid]).value in t.locks && t.locks[Held(s.jobs[pid]).value] == pid
    requires s.jobs[pid].Delivering? ==>
      && (s.jobs[pid].phase == TargetAbsent ==> ReplyKey(s.jobs[pid]) !in t.records)
      && (s.jobs[pid].phase.SourceRead? ==> t.records[SourceKey(s.jobs[pid])] == s.records[SourceKey(s.jobs[pid])])
    ensures JobOk(t, pid)
  {}

  /** Process `pid` did something that leaves the messages and the other processes alone. */
  ghost predicate Quiet(s: State, t: State, pid: nat) {
    && t.records == s.records
    && (forall other | other in t.jobs && other != pid :: other in s.jobs && t.jobs[other] == s.jobs[other])
    && (forall p | p in s.locks && s.locks[p] != pid :: p in t.locks && t.locks[p] == s.locks[p])
    && (NamesOk(t))
  }

  lemma QuietStep(s: State, t: State, pid: nat)
    requires Inv(s) && Quiet(s, t, pid) && (pid in t.jobs ==> JobOk(t, pid))
    ensures Inv(t) && Keeps(s, t)
  {
    forall key | key in t.records ensures SourceOk(t, key) && TargetOk(t, key) {
      assert SourceOk(s, key) && TargetOk(s, key);
    }
    forall other | other in t.jobs && other != pid ensures JobOk(t, other) { JobStays(s, t, other); }
  }

  /** Writing one message file: a new one, or an old one with the same content. */
  ghost predicate Writes(s: State, t: State, key: Key) {
    && key in t.records && t.records == s.records[key := t.records[key]]
    && (key in s.records ==>
          && t.records[key].content == s.records[key].content
          && (s.records[key].replyStatus == Final ==> t.records[key].replyStatus == Final))
    && t.locks == s.locks && t.registry == s.registry
  }

  lemma WriteKeeps(s: State, t: State, key: Key)
    requires Writes(s, t, key)
    ensures Keeps(s, t)
  {}

  lemma WriteRecords(s: State, t: State, key: Key)
    requires Inv(s) && Writes(s, t, key) && SourceOk(t, key) && TargetOk(t, key)
    ensures forall k | k in t.records :: SourceOk(t, k) && TargetOk(t, k)
  {
    WriteKeeps(s, t, key);
    forall k | k in t.records && k != key ensures SourceOk(t, k) && TargetOk(t, k) {
      SourceStays(s, t, k);
      TargetStays(s, t, k);
    }
  }

  lemma WriteStep(s: State, t: State, key: Key)
    requires Inv(s) && Writes(s, t, key) && SourceOk(t, key) && TargetOk(t, key)
    requires forall pid | pid in t.jobs :: JobOk(t, pid) || (pid in s.jobs && t.jobs[pid] == s.jobs[pid] && Unconcerned(s, pid, key))
    ensures Inv(t) && Keeps(s, t)
  {
    WriteKeeps(s, t, key);
    WriteRecords(s, t, key);
    forall pid | pid in t.jobs ensures JobOk(t, pid) {
      if !JobOk(t, pid) { JobStays(s, t, pid); }
    }
  }

  /** A process that has not found the file missing, nor read it under the lock. */
  predicate Unconcerned(s: State, pid: nat, key: Key)
    requires pid in s.jobs
  {
    s.jobs[pid].Delivering? ==>
      && (s.jobs[pid].phase == TargetAbsent ==> ReplyKey(s.jobs[pid]) != key)
      && (s.jobs[pid].phase.SourceRead? ==> SourceKey(s.jobs[pid]) != key)
  }

  lemma NewReplyAnswers(source: Content, original: MessageId, me: Project, myName: string, senderName: string, body: string, at: string)
    requires Parses(source) && source.to == me && RegistryName(myName) && RegistryName(senderName) && Trim(body) != ""
    ensures Answers(NewReply(source, original, me, myName, senderName, body, at), source, me, original)
  {}

  lemma PrepareJob(s: State, pid: nat, t: State)
    requires pid in s.jobs && s.jobs[pid].Preparing? && Prepare(s, pid, s.jobs[pid]) == Some(t)
    requires JobOk(s, pid) && NamesOk(s)
    ensures pid in t.jobs && JobOk(t, pid) && t == Go(s, pid, t.jobs[pid])
  {
    if s.jobs[pid].reading.HasSender? { ComposeJob(s, pid, s.jobs[pid], t); }
  }

  lemma ComposeJob(s: State, pid: nat, job: Job, t: State)
    requires pid in s.jobs && job == s.jobs[pid] && job.Preparing? && job.reading.HasSender? && Prepare(s, pid, job) == Some(t)
    requires JobOk(s, pid)
    ensures pid in t.jobs && JobOk(t, pid) && t == Go(s, pid, t.jobs[pid])
  {
    NewReplyAnswers(job.reading.source, job.original, job.me, job.myName, job.reading.senderName, s.candidates[SourceKey(job)], job.at);
  }

  lemma PrepareKeeps(s: State, pid: nat, t: State)
    requires Inv(s) && pid in s.jobs && s.jobs[pid].Preparing? && Prepare(s, pid, s.jobs[pid]) == Some(t)
    ensures Inv(t) && Keeps(s, t)
  {
    PrepareJob(s, pid, t);
    QuietGo(s, pid, t);
    QuietStep(s, t, pid);
  }

  lemma QuietGo(s: State, pid: nat, t: State)
    requires pid in t.jobs && t == Go(s, pid, t.jobs[pid]) && NamesOk(s)
    ensures Quiet(s, t, pid)
  {}

  lemma TakeQuiet(s: State, pid: nat, p: Project, job: Job, t: State)
    requires Take(s, pid, p, job) == Some(t) && NamesOk(s)
    ensures Quiet(s, t, pid)
    ensures pid in t.jobs && t.jobs[pid] == job && p in t.locks && t.locks[p] == pid
  {}

  lemma DropQuiet(s: State, pid: nat, t: State)
    requires pid in s.jobs && t.locks == Drop(s, pid, Held(s.jobs[pid])) && t.records == s.records && t.registry == s.registry
    requires t.jobs - {pid} == s.jobs - {pid} && NamesOk(s)
    ensures Quiet(s, t, pid)
  {
    forall other | other in t.jobs && other != pid ensures other in s.jobs && t.jobs[other] == s.jobs[other] {
      assert other in t.jobs - {pid};
    }
  }

  lemma GoQuiet(s: State, pid: nat, t: State)
    requires t.records == s.records && t.registry == s.registry && t.locks == s.locks
    requires t.jobs - {pid} == s.jobs - {pid} && NamesOk(s)
    ensures Quiet(s, t, pid)
  {
    forall other | other in t.jobs && other != pid ensures other in s.jobs && t.jobs[other] == s.jobs[other] {
      assert other in t.jobs - {pid};
    }
  }

  /** A process that moves on without a write stays well, if the reply is where its new phase
      expects it and it has its lock. */
  lemma Moved(s: State, t: State, pid: nat, job: Job, phase: Phase)
    requires job.Delivering? && PhaseOk(s, job) && pid in t.jobs && t.jobs[pid] == WithPhase(job, phase) && t.records == s.records
    requires phase == TargetAbsent ==> ReplyKey(job) !in s.records
    requires phase.Composed? || phase.TargetHeld? || phase.TargetAbsent? || ReplyKey(job) in s.records
    requires phase.SourceRead? ==> s.records[SourceKey(job)] == phase.record && Terminal(phase.record.processing)
    requires Held(t.jobs[pid]).Some? ==> Held(t.jobs[pid]).value in t.locks && t.locks[Held(t.jobs[pid]).value] == pid
    ensures JobOk(t, pid)
  {}

  lemma LookTargetMoves(s: State, pid: nat, job: Job, t: State)
    requires pid in s.jobs && JobOk(s, pid) && NamesOk(s) && job == s.jobs[pid] && job.Delivering? && job.phase == TargetHeld
    requires LookTarget(s, pid, job) == Some(t)
    ensures Quiet(s, t, pid) && pid in t.jobs && JobOk(t, pid)
  {
    var phase := if ReplyKey(job) in s.records then TargetDone else TargetAbsent;
    assert t == Go(s, pid, WithPhase(job, phase));
    GoQuiet(s, pid, t);
    Moved(s, t, pid, job, phase) by {
      assert PhaseOk(s, job);
      assert Held(t.jobs[pid]) == Held(job);
    }
  }

  lemma LookSourceMoves(s: State, pid: nat, job: Job, t: State)
    requires pid in s.jobs && JobOk(s, pid) && NamesOk(s) && job == s.jobs[pid] && job.Delivering? && job.phase == SourceHeld
    requires LookSource(s, pid, job) == Some(t)
    ensures Quiet(s, t, pid) && pid in t.jobs && JobOk(t, pid)
  {
    GoQuiet(s, pid, t);
    Moved(s, t, pid, job, SourceRead(s.records[SourceKey(job)]));
  }

  lemma TakeMoves(s: State, pid: nat, p: Project, job: Job, phase: Phase, t: State)
    requires pid in s.jobs && JobOk(s, pid) && NamesOk(s) && job == s.jobs[pid] && job.Delivering?
    requires (job.phase == Composed && phase == TargetHeld) || (job.phase == Replied && phase == SourceHeld)
    requires Some(p) == Held(WithPhase(job, phase)) && Take(s, pid, p, WithPhase(job, phase)) == Some(t)
    ensures Quiet(s, t, pid) && pid in t.jobs && JobOk(t, pid)
  {
    TakeQuiet(s, pid, p, WithPhase(job, phase), t);
    Moved(s, t, pid, job, phase);
  }

  lemma DropTargetMoves(s: State, pid: nat, job: Job, t: State)
    requires pid in s.jobs && JobOk(s, pid) && NamesOk(s) && job == s.jobs[pid] && job.Delivering? && job.phase == TargetDone
    requires t == Go(WithLocks(s, Drop(s, pid, Held(job))), pid, WithPhase(job, Replied))
    ensures Quiet(s, t, pid) && pid in t.jobs && JobOk(t, pid)
  {
    DropQuiet(s, pid, t);
    Moved(s, t, pid, job, Replied);
  }

  lemma CleanMoves(s: State, pid: nat, job: Job, t: State)
    requires pid in s.jobs && JobOk(s, pid) && NamesOk(s) && job == s.jobs[pid] && job.Delivering? && job.phase == Recorded
    requires t == Go(WithCandidates(s, s.candidates - {SourceKey(job)}), pid, WithPhase(job, Cleaned))
    ensures Quiet(s, t, pid) && pid in t.jobs && JobOk(t, pid)
  {
    GoQuiet(s, pid, t);
    Moved(s, t, pid, job, Cleaned);
  }

  lemma LeaveKeeps(s: State, pid: nat, t: State)
    requires Inv(s) && pid in s.jobs && t == Leave(s, pid)
    ensures Inv(t) && Keeps(s, t)
  {
    DropQuiet(s, pid, t);
    QuietStep(s, t, pid);
  }

  lemma CreatedOk(s: State, t: State, job: Job)
    requires job.Delivering? && PhaseOk(s, job) && job.phase == TargetAbsent
    requires t.records == s.records[ReplyKey(job) := NewRecord(job.expected)]
    ensures SourceOk(t, ReplyKey(job)) && TargetOk(t, ReplyKey(job)) && PhaseOk(t, WithPhase(job, TargetDone))
  {}

  /** Whoever holds a lock has it alone: nobody else found a reply missing, or read a message,
      under it. */
  lemma AloneWithLock(s: State, pid: nat, key: Key)
    requires Inv(s) && key.0 in s.locks && s.locks[key.0] == pid
    ensures forall other | other in s.jobs && other != pid :: Unconcerned(s, other, key)
  {
    forall other | other in s.jobs && other != pid ensures Unconcerned(s, other, key) { assert JobOk(s, other); }
  }

  lemma CreateMoves(s: State, pid: nat, job: Job, t: State)
    requires pid in s.jobs && JobOk(s, pid) && job == s.jobs[pid] && job.Delivering? && job.phase == TargetAbsent
    requires t == CreateReply(s, pid, job)
    ensures Writes(s, t, ReplyKey(job)) && SourceOk(t, ReplyKey(job)) && TargetOk(t, ReplyKey(job))
    ensures JobOk(t, pid) && Held(job) == Some(ReplyKey(job).0)
  {
    CreatedOk(s, t, job);
  }

  /** The reply that was missing is created under the lock of its inbox. */
  lemma CreateKeeps(s: State, pid: nat, job: Job, t: State)
    requires Inv(s) && pid in s.jobs && job == s.jobs[pid] && job.Delivering? && job.phase == TargetAbsent
    requires t == CreateReply(s, pid, job)
    ensures Inv(t) && Keeps(s, t)
  {
    assert JobOk(s, pid);
    CreateMoves(s, pid, job, t);
    AloneWithLock(s, pid, ReplyKey(job));
    WriteStep(s, t, ReplyKey(job));
  }

  lemma RecordFinalOk(s: State, t: State, key: Key, at: string)
    requires key in s.records && SourceOk(s, key) && TargetOk(s, key)
    requires (s.records[key].content.from, ReplyTo(key.1, key.0)) in s.records
    requires t.records == s.records[key := RecordFinal(s.records[key], ReplyTo(key.1, key.0), at)]
    requires t.locks == s.locks && t.registry == s.registry
    ensures Writes(s, t, key) && SourceOk(t, key) && TargetOk(t, key)
  {
    var r, reply := s.records[key], ReplyTo(key.1, key.0);
    CountSentAppend(r.remarks, Sent(at, reply), reply);
    WriteKeeps(s, t, key);
    TargetStays(s, t, key);
  }

  lemma RecordMoves(s: State, pid: nat, job: Job, r: Record, t: State)
    requires pid in s.jobs && JobOk(s, pid) && job == s.jobs[pid] && job.Delivering? && job.phase == SourceRead(r)
    requires t == RecordSource(s, pid, job, r) && Keeps(s, t)
    ensures JobOk(t, pid) && Held(job) == Some(SourceKey(job).0) && r == s.records[SourceKey(job)]
  {}

  /** The final marker is written under the lock of the source inbox, over what was read there. */
  lemma RecordKeeps(s: State, pid: nat, job: Job, r: Record, t: State)
    requires Inv(s) && pid in s.jobs && job == s.jobs[pid] && job.Delivering? && job.phase == SourceRead(r)
    requires t == RecordSource(s, pid, job, r)
    ensures Inv(t) && Keeps(s, t)
  {
    assert JobOk(s, pid) && SourceOk(s, SourceKey(job)) && TargetOk(s, SourceKey(job));
    RecordWrites(s, pid, job, r, t);
    AloneWithLock(s, pid, SourceKey(job));
    WriteStep(s, t, SourceKey(job));
  }

  lemma RecordWrites(s: State, pid: nat, job: Job, r: Record, t: State)
    requires pid in s.jobs && JobOk(s, pid) && job == s.jobs[pid] && job.Delivering? && job.phase == SourceRead(r)
    requires SourceOk(s, SourceKey(job)) && TargetOk(s, SourceKey(job)) && t == RecordSource(s, pid, job, r)
    ensures Writes(s, t, SourceKey(job)) && SourceOk(t, SourceKey(job)) && TargetOk(t, SourceKey(job))
    ensures JobOk(t, pid) && SourceKey(job).0 in s.locks && s.locks[SourceKey(job).0] == pid
  {
    RecordFinalOk(s, t, SourceKey(job), job.at);
    WriteKeeps(s, t, SourceKey(job));
    RecordMoves(s, pid, job, r, t);
  }

  lemma AdvanceKeeps(s: State, pid: nat, t: State)
    requires Inv(s) && pid in s.jobs && Advance(s, pid) == Some(t)
    ensures Inv(t) && Keeps(s, t)
  {
    if s.jobs[pid].Preparing? {
      PrepareKeeps(s, pid, t);
    } else {
      DeliverKeeps(s, pid, s.jobs[pid], t);
    }
  }

  lemma DeliverKeeps(s: State, pid: nat, job: Job, t: State)
    requires Inv(s) && pid in s.jobs && job == s.jobs[pid] && job.Delivering? && Deliver(s, pid, job) == Some(t)
    ensures Inv(t) && Keeps(s, t)
  {
    if job.phase == TargetAbsent {
      DeliverCreates(s, pid, job, t);
    } else if job.phase.SourceRead? {
      DeliverRecords(s, pid, job, t);
    } else {
      DeliverQuietly(s, pid, job, t);
    }
  }

  lemma DeliverCreates(s: State, pid: nat, job: Job, t: State)
    requires Inv(s) && pid in s.jobs && job == s.jobs[pid] && job.Delivering? && job.phase == TargetAbsent
    requires Deliver(s, pid, job) == Some(t)
    ensures Inv(t) && Keeps(s, t)
  {
    CreateKeeps(s, pid, job, t);
  }

  lemma DeliverRecords(s: State, pid: nat, job: Job, t: State)
    requires Inv(s) && pid in s.jobs && job == s.jobs[pid] && job.Delivering? && job.phase.SourceRead?
    requires Deliver(s, pid, job) == Some(t)
    ensures Inv(t) && Keeps(s, t)
  {
    RecordsIs(s, pid, job, t);
    RecordKeeps(s, pid, job, job.phase.record, t);
  }

  lemma RecordsIs(s: State, pid: nat, job: Job, t: State)
    requires job.Delivering? && job.phase.SourceRead? && Deliver(s, pid, job) == Some(t)
    ensures t == RecordSource(s, pid, job, job.phase.record)
  {}

  lemma DeliverQuietly(s: State, pid: nat, job: Job, t: State)
    requires Inv(s) && pid in s.jobs && job == s.jobs[pid] && job.Delivering?
    requires job.phase != TargetAbsent && !job.phase.SourceRead? && Deliver(s, pid, job) == Some(t)
    ensures Inv(t) && Keeps(s, t)
  {
    assert JobOk(s, pid);
    DeliverMoves(s, pid, job, t);
    QuietStep(s, t, pid);
  }

  lemma DeliverMoves(s: State, pid: nat, job: Job, t: State)
    requires pid in s.jobs && JobOk(s, pid) && NamesOk(s) && job == s.jobs[pid] && job.Delivering?
    requires job.phase != TargetAbsent && !job.phase.SourceRead? && Deliver(s, pid, job) == Some(t)
    ensures Quiet(s, t, pid) && (pid in t.jobs ==> JobOk(t, pid))
  {
    match job.phase
    case Composed => TakeMoves(s, pid, job.expected.to, job, TargetHeld, t);
    case TargetHeld => LookTargetMoves(s, pid, job, t);
    case TargetDone => DropTargetMoves(s, pid, job, t);
    case Replied => TakeMoves(s, pid, job.me, job, SourceHeld, t);
    case SourceHeld => LookSourceMoves(s, pid, job, t);
    case Recorded => CleanMoves(s, pid, job, t);
    case Cleaned => DropQuiet(s, pid, t);
  }

  lemma EnterMoves(s: State, e: Event, t: State)
    requires e.Enter? && Next(s, e) == Some(t) && NamesOk(s)
    ensures Quiet(s, t, e.pid) && e.pid in t.jobs && JobOk(t, e.pid)
  {
    GoQuiet(s, e.pid, t);
  }

  /** An operator only clears the lock of a process that is gone. */
  lemma ClearMoves(s: State, e: Event, t: State, pid: nat)
    requires e.Clear? && Next(s, e) == Some(t) && NamesOk(s) && pid == s.locks[e.inbox]
    ensures Quiet(s, t, pid) && pid !in t.jobs
  {}

  /** Messages arrive under ids of their own, never under a reply id. */
  lemma ArriveMoves(s: State, e: Event, t: State)
    requires e.Arrive? && Next(s, e) == Some(t)
    ensures var key := (e.inbox, Given(e.text));
            && Writes(s, t, key) && t.jobs == s.jobs && SourceOk(t, key) && TargetOk(t, key)
            && forall pid | pid in s.jobs && JobOk(s, pid) :: Unconcerned(s, pid, key)
  {}

  lemma EditMoves(s: State, e: Event, t: State)
    requires e.Edit? && Next(s, e) == Some(t) && SourceOk(s, (e.inbox, e.id)) && TargetOk(s, (e.inbox, e.id))
    ensures var key := (e.inbox, e.id);
            && Writes(s, t, key) && t.jobs == s.jobs && SourceOk(t, key) && TargetOk(t, key)
            && forall pid | pid in s.jobs && JobOk(s, pid) :: Unconcerned(s, pid, key)
  {
    var key := (e.inbox, e.id);
    EditWrites(s, e, t);
    WriteKeeps(s, t, key);
    TargetStays(s, t, key);
    EditCounts(s.records[key], e, ReplyTo(e.id, e.inbox));
  }

  lemma EditWrites(s: State, e: Event, t: State)
    requires e.Edit? && Next(s, e) == Some(t)
    ensures var key := (e.inbox, e.id);
            && key in s.records && MayEdit(s.records[key], e) && t == WithRecords(s, s.records[key := Edited(s.records[key], e)])
            && Writes(s, t, key) && forall pid | pid in s.jobs && JobOk(s, pid) :: Unconcerned(s, pid, key)
  {}

  /** An edit does not touch what is counted. */
  lemma EditCounts(r: Record, e: Event, reply: MessageId)
    requires e.Edit? && MayEdit(r, e)
    ensures var edited := Edited(r, e);
            && edited.replyIds == r.replyIds && (edited.replyStatus == Final <==> r.replyStatus == Final) && edited.content == r.content
            && CountSent(edited.remarks, reply) == CountSent(r.remarks, reply)
  {
    if e.note.Some? { CountSentAppend(r.remarks, e.note.value, reply); }
  }

  /** A step that only touches registry, candidates or the set of inboxes. */
  lemma AsideKeeps(s: State, t: State)
    requires Inv(s) && t.records == s.records && t.jobs == s.jobs && t.locks == s.locks && NamesOk(t)
    ensures Inv(t) && Keeps(s, t)
  {
    forall key | key in t.records ensures SourceOk(t, key) && TargetOk(t, key) {
      assert SourceOk(s, key) && TargetOk(s, key);
    }
    forall pid | pid in t.jobs ensures JobOk(t, pid) { JobStays(s, t, pid); }
  }

  /** Every step of the system keeps the invariant and every message's content. */
  lemma NextKeeps(s: State, e: Event, t: State)
    requires Inv(s) && Next(s, e) == Some(t)
    ensures Inv(t) && Keeps(s, t)
  {
    match e
    case Enter(pid, _, _, _) =>
      EnterMoves(s, e, t);
      QuietStep(s, t, pid);
    case Act(pid) => AdvanceKeeps(s, pid, t);
    case Fail(pid) => LeaveKeeps(s, pid, t);
    case Crash(pid) =>
      GoQuiet(s, pid, t);
      QuietStep(s, t, pid);
    case Clear(p) =>
      ClearMoves(s, e, t, s.locks[p]);
      QuietStep(s, t, s.locks[p]);
    case Arrive(p, text, _) =>
      ArriveMoves(s, e, t);
      WriteStep(s, t, (p, Given(text)));
    case Edit(p, id, _, _, _, _, _) =>
      EditMoves(s, e, t);
      WriteStep(s, t, (p, id));
    case Offer(_, _) => AsideKeeps(s, t);
    case Withdraw(_) => AsideKeeps(s, t);
    case Register(_, _) => AsideKeeps(s, t);
    case Unregister(_) => AsideKeeps(s, t);
    case Open(_) => AsideKeeps(s, t);
  }

  lemma {:induction false} RunKeeps(s: State, events: seq<Event>, t: State)
    requires Inv(s) && Run(s, events) == Some(t)
    ensures Inv(t) && Keeps(s, t)
    decreases |events|
  {
    if events != [] {
      var m := Next(s, events[0]).value;
      NextKeeps(s, events[0], m);
      RunKeeps(m, events[1..], t);
    }
  }

  // ---------------------------------------------------------------------------------------
  // Over whole runs
  // ---------------------------------------------------------------------------------------

  ghost predicate Reachable(s: State) { exists events :: Run(Start, events) == Some(s) }

  lemma ReachableInv(s: State)
    requires Reachable(s)
    ensures Inv(s)
  {
    var events :| Run(Start, events) == Some(s);
    RunKeeps(Start, events, s);
  }

  /** At most once, and exactly once when final: in every reachable state the final marker, the
      reply id and the remark stand or fall together, none of them twice, and then the reply
      lies in the inbox of the original sender, answering the original. No other inbox holds a
      reply of that id. */
  lemma ExactlyOnce(s: State, me: Project, original: MessageId)
    requires Reachable(s) && (me, original) in s.records
    ensures var r, reply := s.records[(me, original)], ReplyTo(original, me);
            && r.replyIds[reply] == CountSent(r.remarks, reply) == (if r.replyStatus == Final then 1 else 0)
            && (r.replyStatus == Final ==> (r.content.from, reply) in s.records)
            && forall p | (p, reply) in s.records ::
                 p == r.content.from && Answers(s.records[(p, reply)].content, r.content, me, original)
  {
    ReachableInv(s);
    assert SourceOk(s, (me, original));
    var reply := ReplyTo(original, me);
    forall p | (p, reply) in s.records
      ensures p == s.records[(me, original)].content.from
      ensures Answers(s.records[(p, reply)].content, s.records[(me, original)].content, me, original)
    {
      assert TargetOk(s, (p, reply));
    }
  }

  /** Once written, a message stays with its content, and a final marker stays. */
  lemma ContentNeverChanges(s: State, events: seq<Event>, t: State, key: Key)
    requires Reachable(s) && Run(s, events) == Some(t) && key in s.records
    ensures key in t.records && t.records[key].content == s.records[key].content
    ensures s.records[key].replyStatus == Final ==> t.records[key].replyStatus == Final
  {
    ReachableInv(s);
    RunKeeps(s, events, t);
  }

  // ---------------------------------------------------------------------------------------
  // One call without interference
  // ---------------------------------------------------------------------------------------

  function Rank(job: Job): nat {
    if job.Preparing? then
      match job.reading case Entered => 12 case HasSource(_) => 11 case HasSender(_, _) => 10
    else
      match job.phase
      case Composed => 9 case TargetHeld => 8 case TargetAbsent => 7 case TargetDone => 6 case Replied => 5
      case SourceHeld => 4 case SourceRead(_) => 3 case Recorded => 2 case Cleaned => 1
  }

  lemma PrepareRank(s: State, pid: nat, job: Job, t: State)
    requires job.Preparing? && Prepare(s, pid, job) == Some(t)
    ensures pid in t.jobs && Rank(t.jobs[pid]) < Rank(job)
  {
    if job.reading.HasSender? { ComposeRank(s, pid, job, t); }
  }

  lemma ComposeRank(s: State, pid: nat, job: Job, t: State)
    requires job.Preparing? && job.reading.HasSender? && Prepare(s, pid, job) == Some(t)
    ensures pid in t.jobs && t.jobs[pid].Delivering? && t.jobs[pid].phase == Composed
  {}

  /** A delivery moves on to a later phase, if it is not over. */
  lemma DeliverRank(s: State, pid: nat, job: Job, t: State)
    requires job.Delivering? && Deliver(s, pid, job) == Some(t) && pid in t.jobs
    ensures Rank(t.jobs[pid]) < Rank(job)
  {
    match job.phase
    case Composed => TakeRank(s, pid, job.expected.to, WithPhase(job, TargetHeld), t);
    case TargetHeld => LookTargetRank(s, pid, job, t);
    case Replied => TakeRank(s, pid, job.me, WithPhase(job, SourceHeld), t);
    case SourceHeld => LookSourceRank(s, pid, job, t);
    case SourceRead(r) => RecordRank(s, pid, job, r, t);
    case Recorded => CleanRank(s, pid, job, t);
    case _ => TargetRank(s, pid, job, t);
  }

  lemma TargetRank(s: State, pid: nat, job: Job, t: State)
    requires job.Delivering? && (job.phase == TargetAbsent || job.phase == TargetDone || job.phase == Cleaned)
    requires Deliver(s, pid, job) == Some(t)
    ensures pid in t.jobs ==> Rank(t.jobs[pid]) < Rank(job)
  {}

  lemma RecordRank(s: State, pid: nat, job: Job, r: Record, t: State)
    requires job.Delivering? && job.phase == SourceRead(r) && Deliver(s, pid, job) == Some(t)
    ensures pid in t.jobs && Rank(t.jobs[pid]) < Rank(job)
  {}

  lemma CleanRank(s: State, pid: nat, job: Job, t: State)
    requires job.Delivering? && job.phase == Recorded && Deliver(s, pid, job) == Some(t)
    ensures pid in t.jobs && Rank(t.jobs[pid]) < Rank(job)
  {}

  lemma TakeRank(s: State, pid: nat, p: Project, next: Job, t: State)
    requires Take(s, pid, p, next) == Some(t)
    ensures pid in t.jobs && t.jobs[pid] == next
  {}

  lemma LookTargetRank(s: State, pid: nat, job: Job, t: State)
    requires job.Delivering? && job.phase == TargetHeld && LookTarget(s, pid, job) == Some(t)
    ensures pid in t.jobs && Rank(t.jobs[pid]) < Rank(job)
  {}

  lemma LookSourceRank(s: State, pid: nat, job: Job, t: State)
    requires job.Delivering? && job.phase == SourceHeld && LookSource(s, pid, job) == Some(t)
    ensures pid in t.jobs && Rank(t.jobs[pid]) < Rank(job)
  {}

  lemma AdvanceRank(s: State, pid: nat, t: State)
    requires pid in s.jobs && Advance(s, pid) == Some(t) && pid in t.jobs
    ensures Rank(t.jobs[pid]) < Rank(s.jobs[pid])
  {
    if s.jobs[pid].Preparing? {
      PrepareRank(s, pid, s.jobs[pid], t);
    } else {
      DeliverRank(s, pid, s.jobs[pid], t);
    }
  }

  /** Process `pid` runs to its end with nobody else moving; whether its call succeeds. */
  function Finish(s: State, pid: nat): (State, bool)
    requires pid in s.jobs
    decreases Rank(s.jobs[pid])
  {
    match Advance(s, pid)
    case None => (Leave(s, pid), false)
    case Some(t) =>
      if pid !in t.jobs then (t, true) else
      AdvanceRank(s, pid, t);
      Finish(t, pid)
  }

  lemma {:induction false} FinishIsRun(s: State, pid: nat) returns (events: seq<Event>)
    requires pid in s.jobs
    ensures Run(s, events) == Some(Finish(s, pid).0)
    decreases Rank(s.jobs[pid])
  {
    match Advance(s, pid)
    case None =>
      events := [Fail(pid)];
    case Some(t) =>
      if pid !in t.jobs {
        events := [Act(pid)];
      } else {
        AdvanceRank(s, pid, t);
        var rest := FinishIsRun(t, pid);
        events := [Act(pid)] + rest;
      }
  }

  lemma FinishStep(s: State, pid: nat, t: State)
    requires pid in s.jobs && Advance(s, pid) == Some(t) && pid in t.jobs
    ensures Finish(s, pid) == Finish(t, pid)
  {}

  /** What delivering `expected` leaves in the message files. */
  function Posted(records: map<Key, Record>, key: Key, expected: Content): map<Key, Record> {
    if key in records then records else records[key := NewRecord(expected)]
  }

  /** The half of a call that concerns the target inbox. */
  lemma TargetAlone(s: State, pid: nat, job: Job)
    requires pid in s.jobs && s.jobs[pid] == job && job.Delivering? && job.phase == Composed && job.expected.to !in s.locks
    ensures var done := job.expected.to in s.inboxes
                        && (ReplyKey(job) in s.records ==> CanReuse(s.records[ReplyKey(job)].content, job.expected));
            Finish(s, pid) ==
              if done then Finish(Go(WithRecords(s, Posted(s.records, ReplyKey(job), job.expected)), pid, WithPhase(job, Replied)), pid)
              else (WithJobs(s, s.jobs - {pid}), false)
  {
    if job.expected.to in s.inboxes {
      var held := Take(s, pid, job.expected.to, WithPhase(job, TargetHeld)).value;
      FinishStep(s, pid, held);
      TargetHeldAlone(s, held, pid, job);
    }
  }

  lemma TargetHeldAlone(s: State, held: State, pid: nat, job: Job)
    requires pid in s.jobs && s.jobs[pid] == job && job.Delivering? && job.phase == Composed && job.expected.to !in s.locks
    requires held == WithJobs(WithLocks(s, s.locks[job.expected.to := pid]), s.jobs[pid := WithPhase(job, TargetHeld)])
    ensures var done := ReplyKey(job) in s.records ==> CanReuse(s.records[ReplyKey(job)].content, job.expected);
            Finish(held, pid) ==
              if done then Finish(Go(WithRecords(s, Posted(s.records, ReplyKey(job), job.expected)), pid, WithPhase(job, Replied)), pid)
              else (WithJobs(s, s.jobs - {pid}), false)
  {
    assert held.locks - {job.expected.to} == s.locks;
    assert held.jobs - {pid} == s.jobs - {pid};
    if ReplyKey(job) !in s.records {
      CreateAlone(s, held, pid, job);
    } else if CanReuse(s.records[ReplyKey(job)].content, job.expected) {
      ReuseAlone(s, held, pid, job);
    }
  }

  lemma ReuseAlone(s: State, held: State, pid: nat, job: Job)
    requires pid in s.jobs && s.jobs[pid] == job && job.Delivering? && job.phase == Composed && job.expected.to !in s.locks
    requires held == WithJobs(WithLocks(s, s.locks[job.expected.to := pid]), s.jobs[pid := WithPhase(job, TargetHeld)])
    requires ReplyKey(job) in s.records && CanReuse(s.records[ReplyKey(job)].content, job.expected)
    ensures Finish(held, pid) ==
            Finish(Go(WithRecords(s, Posted(s.records, ReplyKey(job), job.expected)), pid, WithPhase(job, Replied)), pid)
  {
    var posted := Go(held, pid, WithPhase(job, TargetDone));
    ReuseStep(held, pid, job);
    FinishStep(held, pid, posted);
    ReplyDoneAlone(s, posted, pid, job);
    assert Go(WithJobs(WithLocks(posted, s.locks), s.jobs), pid, WithPhase(job, Replied)) == Go(s, pid, WithPhase(job, Replied));
  }

  lemma ReuseStep(held: State, pid: nat, job: Job)
    requires job.Delivering? && pid in held.jobs && held.jobs[pid] == WithPhase(job, TargetHeld)
    requires ReplyKey(job) in held.records && CanReuse(held.records[ReplyKey(job)].content, job.expected)
    ensures Advance(held, pid) == Some(Go(held, pid, WithPhase(job, TargetDone)))
  {}

  lemma CreateAlone(s: State, held: State, pid: nat, job: Job)
    requires pid in s.jobs && s.jobs[pid] == job && job.Delivering? && job.phase == Composed && job.expected.to !in s.locks
    requires held == WithJobs(WithLocks(s, s.locks[job.expected.to := pid]), s.jobs[pid := WithPhase(job, TargetHeld)])
    requires ReplyKey(job) !in s.records
    ensures Finish(held, pid) ==
            Finish(Go(WithRecords(s, Posted(s.records, ReplyKey(job), job.expected)), pid, WithPhase(job, Replied)), pid)
  {
    var absent := Go(held, pid, WithPhase(job, TargetAbsent));
    FinishStep(held, pid, absent);
    var posted := CreateReply(absent, pid, job);
    FinishStep(absent, pid, posted);
    ReplyDoneAlone(s, posted, pid, job);
  }

  lemma ReplyDoneAlone(s: State, posted: State, pid: nat, job: Job)
    requires job.Delivering? && job.expected.to !in s.locks && pid in s.jobs
    requires posted.locks == s.locks[job.expected.to := pid] && posted.jobs == s.jobs[pid := WithPhase(job, TargetDone)]
    ensures Finish(posted, pid) == Finish(Go(WithJobs(WithLocks(posted, s.locks), s.jobs), pid, WithPhase(job, Replied)), pid)
  {
    var dropped := Go(WithJobs(WithLocks(posted, s.locks), s.jobs), pid, WithPhase(job, Replied));
    assert posted.locks - {job.expected.to} == s.locks;
    assert dropped.jobs == posted.jobs[pid := WithPhase(job, Replied)];
    FinishStep(posted, pid, dropped);
  }

  /** The half of a call that concerns the source inbox. */
  lemma SourceAlone(s: State, pid: nat, job: Job)
    requires pid in s.jobs && s.jobs[pid] == job && job.Delivering? && job.phase == Replied
    ensures var done := job.me !in s.locks && SourceKey(job) in s.records && CanRecord(s.records[SourceKey(job)], job);
            Finish(s, pid) ==
              if done then (WithJobs(Marked(s, SourceKey(job), job.at), s.jobs - {pid}), true)
              else (WithJobs(s, s.jobs - {pid}), false)
  {
    if job.me !in s.locks {
      var held := Take(s, pid, job.me, WithPhase(job, SourceHeld)).value;
      FinishStep(s, pid, held);
      assert held.locks - {job.me} == s.locks;
      assert held.jobs - {pid} == s.jobs - {pid};
      if SourceKey(job) in s.records && CanRecord(s.records[SourceKey(job)], job) {
        MarkAlone(s, held, pid, job);
      }
    }
  }

  /** The state once a message is marked final and its candidate is gone. */
  function Marked(s: State, key: Key, at: string): State
    requires key in s.records
  {
    WithCandidates(WithRecords(s, s.records[key := RecordFinal(s.records[key], ReplyTo(key.1, key.0), at)]), s.candidates - {key})
  }

  lemma MarkAlone(s: State, held: State, pid: nat, job: Job)
    requires job.Delivering? && job.me !in s.locks && pid in s.jobs
    requires SourceKey(job) in s.records && CanRecord(s.records[SourceKey(job)], job)
    requires held == WithJobs(WithLocks(s, s.locks[job.me := pid]), s.jobs[pid := WithPhase(job, SourceHeld)])
    ensures Finish(held, pid) == (WithJobs(Marked(s, SourceKey(job), job.at), s.jobs - {pid}), true)
  {
    var r := s.records[SourceKey(job)];
    var read := Go(held, pid, WithPhase(job, SourceRead(r)));
    ReadStep(held, pid, job);
    FinishStep(held, pid, read);
    var recorded := RecordSource(read, pid, job, r);
    FinishStep(read, pid, recorded);
    RecordedAlone(s, recorded, pid, job);
  }

  lemma ReadStep(held: State, pid: nat, job: Job)
    requires job.Delivering? && pid in held.jobs && held.jobs[pid] == WithPhase(job, SourceHeld)
    requires SourceKey(job) in held.records && CanRecord(held.records[SourceKey(job)], job)
    ensures Advance(held, pid) == Some(Go(held, pid, WithPhase(job, SourceRead(held.records[SourceKey(job)]))))
  {}

  /** From the final marker on: the candidate goes, and then the lock. */
  lemma RecordedAlone(s: State, recorded: State, pid: nat, job: Job)
    requires job.Delivering? && job.me !in s.locks && pid in s.jobs && SourceKey(job) in s.records
    requires recorded == State(Marked(s, SourceKey(job), job.at).records, s.inboxes, s.registry, s.candidates,
                               s.locks[job.me := pid], s.jobs[pid := WithPhase(job, Recorded)])
    ensures Finish(recorded, pid) == (WithJobs(Marked(s, SourceKey(job), job.at), s.jobs - {pid}), true)
  {
    var cleaned := Go(WithCandidates(recorded, recorded.candidates - {SourceKey(job)}), pid, WithPhase(job, Cleaned));
    FinishStep(recorded, pid, cleaned);
    assert cleaned.locks - {job.me} == s.locks;
    assert cleaned.jobs - {pid} == s.jobs - {pid};
  }

  /** A call that enters the system and runs alone to its end. */
  function Call(s: State, pid: nat, me: Project, original: MessageId, at: string): (State, bool) {
    match Next(s, Enter(pid, me, original, at)) case Some(t) => Finish(t, pid) case None => (s, false)
  }

  /** Whether a call gets as far as composing the reply. */
  predicate CanCompose(s: State, me: Project, original: MessageId) {
    var key := (me, original);
    && me in s.registry && key in s.records
    && Parses(s.records[key].content) && s.records[key].content.to == me
    && Terminal(s.records[key].processing) && s.records[key].replyStatus != Final
    && s.records[key].content.from in s.registry
    && key in s.candidates && Trim(s.candidates[key]) != ""
  }

  /** The reply a call composes. */
  function Composition(s: State, me: Project, original: MessageId, at: string): Content
    requires CanCompose(s, me, original)
  {
    var source := s.records[(me, original)].content;
    NewReply(source, original, me, s.registry[me], s.registry[source.from], s.candidates[(me, original)], at)
  }

  predicate CanPost(s: State, reply: MessageId, expected: Content) {
    && expected.to in s.inboxes && expected.to !in s.locks
    && ((expected.to, reply) in s.records ==> CanReuse(s.records[(expected.to, reply)].content, expected))
  }

  /** What a call running alone does: nothing, or the reply alone, or the whole delivery. */
  function Outcome(s: State, me: Project, original: MessageId, at: string): (State, bool) {
    if !CanCompose(s, me, original) then (s, false) else
    var expected, reply := Composition(s, me, original, at), ReplyTo(original, me);
    if !CanPost(s, reply, expected) then (s, false) else
    var posted := WithRecords(s, Posted(s.records, (expected.to, reply), expected));
    if me in s.locks || !CanRecord(posted.records[(me, original)], Delivering(me, original, at, expected, Replied))
    then (posted, false) else (Marked(posted, (me, original), at), true)
  }

  /** Composing, step by step, ends where `Composition` says. */
  lemma PrepareAlone(s: State, pid: nat, me: Project, original: MessageId, at: string)
    requires pid !in s.jobs && me in s.registry
    ensures var entered := Go(s, pid, Preparing(me, original, at, s.registry[me], Entered));
            Finish(entered, pid) ==
              if CanCompose(s, me, original)
              then Finish(Go(s, pid, Delivering(me, original, at, Composition(s, me, original, at), Composed)), pid) else (s, false)
  {
    var key, job := (me, original), Preparing(me, original, at, s.registry[me], Entered);
    var entered := Go(s, pid, job);
    assert entered.jobs - {pid} == s.jobs;
    if Advance(entered, pid).Some? {
      var source := s.records[key].content;
      var first := Go(s, pid, WithReading(job, HasSource(source)));
      assert first.jobs == entered.jobs[pid := WithReading(job, HasSource(source))];
      FinishStep(entered, pid, first);
      ReadAlone(s, first, pid, job, source);
    }
  }

  lemma ReadAlone(s: State, first: State, pid: nat, job: Job, source: Content)
    requires pid !in s.jobs && job.me in s.registry && job == Preparing(job.me, job.original, job.at, s.registry[job.me], Entered)
    requires first == Go(s, pid, WithReading(job, HasSource(source))) && source.from != job.me
    requires SourceKey(job) in s.records && source == s.records[SourceKey(job)].content && source.to == job.me
    requires Parses(source) && Terminal(s.records[SourceKey(job)].processing) && s.records[SourceKey(job)].replyStatus != Final
    ensures Finish(first, pid) ==
              if CanCompose(s, job.me, job.original)
              then Finish(Go(s, pid, Delivering(job.me, job.original, job.at, Composition(s, job.me, job.original, job.at), Composed)), pid)
              else (s, false)
  {
    assert first.jobs - {pid} == s.jobs;
    if source.from in s.registry {
      var senderName := s.registry[source.from];
      var second := Go(s, pid, WithReading(job, HasSender(source, senderName)));
      assert second.jobs == first.jobs[pid := WithReading(job, HasSender(source, senderName))];
      FinishStep(first, pid, second);
      ComposeAlone(s, second, pid, second.jobs[pid], senderName);
    }
  }

  lemma ComposeAlone(s: State, second: State, pid: nat, job: Job, senderName: string)
    requires pid !in s.jobs && second == Go(s, pid, job) && job.Preparing? && job.reading.HasSender?
    requires SourceKey(job) in s.records && job.reading == HasSender(s.records[SourceKey(job)].content, senderName)
    requires job.me in s.registry && job.myName == s.registry[job.me]
    requires job.reading.source.from in s.registry && senderName == s.registry[job.reading.source.from]
    requires CanCompose(s, job.me, job.original) <==> SourceKey(job) in s.candidates && Trim(s.candidates[SourceKey(job)]) != ""
    ensures Finish(second, pid) ==
              if CanCompose(s, job.me, job.original)
              then Finish(Go(s, pid, Delivering(job.me, job.original, job.at, Composition(s, job.me, job.original, job.at), Composed)), pid)
              else (s, false)
  {
    assert second.jobs - {pid} == s.jobs;
    if CanCompose(s, job.me, job.original) {
      var third := Go(s, pid, Delivering(job.me, job.original, job.at, Composition(s, job.me, job.original, job.at), Composed));
      assert third.jobs == second.jobs[pid := third.jobs[pid]];
      FinishStep(second, pid, third);
    }
  }

  /** The steps of an undisturbed call add up to `Outcome`. */
  lemma CallIsOutcome(s: State, pid: nat, me: Project, original: MessageId, at: string)
    requires pid !in s.jobs && pid !in s.locks.Values
    ensures Call(s, pid, me, original, at) == Outcome(s, me, original, at)
  {
    if me in s.registry {
      PrepareAlone(s, pid, me, original, at);
      if CanCompose(s, me, original) {
        var job := Delivering(me, original, at, Composition(s, me, original, at), Composed);
        var composed := Go(s, pid, job);
        ComposedAlone(s, composed, pid, job);
      }
    }
  }

  lemma ComposedAlone(s: State, composed: State, pid: nat, job: Job)
    requires pid !in s.jobs && job.Delivering? && job.phase == Composed && composed == Go(s, pid, job)
    requires SourceKey(job) in s.records
    ensures var posted := WithRecords(s, Posted(s.records, ReplyKey(job), job.expected));
            Finish(composed, pid) ==
              if !CanPost(s, ReplyTo(job.original, job.me), job.expected) then (s, false)
              else if job.me in s.locks || !CanRecord(posted.records[SourceKey(job)], WithPhase(job, Replied)) then (posted, false)
              else (Marked(posted, SourceKey(job), job.at), true)
  {
    if CanPost(s, ReplyTo(job.original, job.me), job.expected) {
      ComposedPosts(s, composed, pid, job);
      RepliedAlone(s, WithRecords(s, Posted(s.records, ReplyKey(job), job.expected)), pid, WithPhase(job, Replied));
    } else {
      ComposedFails(s, composed, pid, job);
    }
  }

  lemma ComposedPosts(s: State, composed: State, pid: nat, job: Job)
    requires pid !in s.jobs && job.Delivering? && job.phase == Composed && composed == Go(s, pid, job)
    requires CanPost(s, ReplyTo(job.original, job.me), job.expected)
    ensures Finish(composed, pid) ==
            Finish(Go(WithRecords(s, Posted(s.records, ReplyKey(job), job.expected)), pid, WithPhase(job, Replied)), pid)
  {
    TargetAlone(composed, pid, job);
    assert Go(WithRecords(composed, Posted(s.records, ReplyKey(job), job.expected)), pid, WithPhase(job, Replied))
        == Go(WithRecords(s, Posted(s.records, ReplyKey(job), job.expected)), pid, WithPhase(job, Replied));
  }

  lemma ComposedFails(s: State, composed: State, pid: nat, job: Job)
    requires pid !in s.jobs && job.Delivering? && job.phase == Composed && composed == Go(s, pid, job)
    requires !CanPost(s, ReplyTo(job.original, job.me), job.expected)
    ensures Finish(composed, pid) == (s, false)
  {
    assert composed.jobs - {pid} == s.jobs;
    if job.expected.to !in s.locks { TargetAlone(composed, pid, job); }
  }

  lemma RepliedAlone(s: State, posted: State, pid: nat, job: Job)
    requires pid !in s.jobs && job.Delivering? && job.phase == Replied && SourceKey(job) in posted.records
    requires posted.jobs == s.jobs && posted.locks == s.locks
    ensures Finish(Go(posted, pid, job), pid) ==
            if job.me in s.locks || !CanRecord(posted.records[SourceKey(job)], job) then (posted, false)
            else (Marked(posted, SourceKey(job), job.at), true)
  {
    assert Go(posted, pid, job).jobs - {pid} == s.jobs;
    SourceAlone(Go(posted, pid, job), pid, job);
  }
}
