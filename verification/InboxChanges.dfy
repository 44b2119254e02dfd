/** What final-reply delivery (`engine/src/inbox.rs`) changes in the message files, field by field:
    in one call, and over whole runs of the system in `InboxDelivery`. */
module InboxChanges {
  import opened Text
  import opened InboxDelivery

  // ---------------------------------------------------------------------------------------
  // One call
  // ---------------------------------------------------------------------------------------

  /** `b` is the message `a` with the final reply recorded at `at`: the reply id and one remark are
      added, the recipient's own processing and task links stay. */
  predicate Finalizes(a: Record, b: Record, reply: MessageId, at: string) {
    && b.content == a.content && b.processing == a.processing && b.tasks == a.tasks
    && b.replyStatus == Final && b.updatedAt == at
    && b.replyIds == a.replyIds + multiset{reply} && b.remarks == a.remarks + [Sent(at, reply)]
  }

  /** Recording where the reply may have been recorded before: then nothing is added again. */
  predicate Finalized(a: Record, b: Record, reply: MessageId, at: string) {
    if reply !in a.replyIds then Finalizes(a, b, reply, at)
    else
      && b.content == a.content && b.processing == a.processing && b.tasks == a.tasks
      && b.replyStatus == Final && b.updatedAt == at && b.replyIds == a.replyIds && b.remarks == a.remarks
  }

  /** `t` is as much of `s` as fits into some UTF-16 units. */
  predicate FillsUp(s: string, t: string, room: nat) {
    && |t| <= |s| && t == s[..|t|] && Utf16Length(t) <= room
    && (|t| < |s| ==> Utf16Length(t) + Utf16Units(s[|t|]) > room)
  }

  /** A reply as it is first written: from the recipient of `source` to its sender, under the names
      they are registered by, unread and without links. */
  predicate IsNewReply(r: Record, source: Content, original: MessageId, me: Project, myName: string, senderName: string, body: string, at: string) {
    var c := r.content;
    && c.from == me && c.fromName == myName && c.to == source.from && c.toName == senderName
    && FillsUp("Re: " + source.subject, c.subject, MAX_SUBJECT) && c.body == body
    && c.kind == Reply && c.inReplyTo == Some(original) && c.release == None && c.dedupe == FINAL_KEY && c.createdAt == at
    && c.conversation == (if source.conversation.Some? then source.conversation else Some(original))
    && r.processing == New && r.replyStatus == NoReply && r.tasks == {} && r.replyIds == multiset{} && r.remarks == [] && r.updatedAt == at
  }

  lemma {:induction false} TruncateFills(s: string, room: nat)
    ensures FillsUp(s, Truncate(s, room), room)
  {
    if s != "" && Utf16Units(s[0]) <= room {
      var t := Truncate(s[1..], room - Utf16Units(s[0]));
      TruncateFills(s[1..], room - Utf16Units(s[0]));
      assert (s[..1] + t)[1..] == t;
    }
  }

  lemma NewReplyIs(source: Content, original: MessageId, me: Project, myName: string, senderName: string, body: string, at: string)
    ensures IsNewReply(NewRecord(NewReply(source, original, me, myName, senderName, body, at)), source, original, me, myName, senderName, body, at)
  {
    TruncateFills("Re: " + source.subject, MAX_SUBJECT);
  }

  /** The reply lies in the inbox `target`: written now, or there before with the same body. */
  predicate ReplyLies(s: State, t: State, target: Key, me: Project, original: MessageId, at: string)
    requires CanCompose(s, me, original)
  {
    var source, body := s.records[(me, original)].content, s.candidates[(me, original)];
    && target in t.records
    && if target in s.records then t.records[target] == s.records[target] && s.records[target].content.body == body
       else IsNewReply(t.records[target], source, original, me, s.registry[me], s.registry[source.from], body, at)
  }

  /** Everything but the message, the reply and the candidate is as it was. */
  predicate RestStays(s: State, t: State, key: Key, target: Key) {
    && t.records.Keys == s.records.Keys + {target} && (forall k | k in s.records && k != key && k != target :: t.records[k] == s.records[k])
    && t.locks == s.locks && t.jobs == s.jobs && t.registry == s.registry && t.inboxes == s.inboxes
  }

  /** `t` is `s` with the final reply to `original` delivered and recorded. */
  predicate Delivers(s: State, t: State, me: Project, original: MessageId, at: string)
    requires CanCompose(s, me, original)
  {
    var key := (me, original);
    var target := (s.records[key].content.from, ReplyTo(original, me));
    && RestStays(s, t, key, target) && ReplyLies(s, t, target, me, original, at)
    && Finalizes(s.records[key], t.records[key], ReplyTo(original, me), at)
    && t.candidates == s.candidates - {key}
  }

  /** `t` is `s` with the reply delivered and not recorded. */
  predicate DeliversOnly(s: State, t: State, me: Project, original: MessageId, at: string)
    requires CanCompose(s, me, original)
  {
    var key := (me, original);
    var target := (s.records[key].content.from, ReplyTo(original, me));
    && RestStays(s, t, key, target) && ReplyLies(s, t, target, me, original, at)
    && t.records[key] == s.records[key] && t.candidates == s.candidates
  }

  lemma RecordFinalIs(r: Record, reply: MessageId, at: string)
    ensures Finalized(r, RecordFinal(r, reply, at), reply, at)
  {}

  lemma PostedLies(s: State, me: Project, original: MessageId, at: string)
    requires CanCompose(s, me, original) && CanPost(s, ReplyTo(original, me), Composition(s, me, original, at))
    ensures var expected := Composition(s, me, original, at);
            var t := WithRecords(s, Posted(s.records, (expected.to, ReplyTo(original, me)), expected));
            DeliversOnly(s, t, me, original, at)
  {
    var source := s.records[(me, original)].content;
    NewReplyIs(source, original, me, s.registry[me], s.registry[source.from], s.candidates[(me, original)], at);
  }

  lemma MarkedDelivers(s: State, posted: State, me: Project, original: MessageId, at: string)
    requires CanCompose(s, me, original) && DeliversOnly(s, posted, me, original, at)
    requires ReplyTo(original, me) !in s.records[(me, original)].replyIds
    ensures Delivers(s, Marked(posted, (me, original), at), me, original, at)
  {
    RecordFinalIs(s.records[(me, original)], ReplyTo(original, me), at);
  }

  /** What an undisturbed call changes: all of a delivery when it succeeds, nothing when it is refused
      before the reply is out, and else the reply alone. */
  lemma CallChanges(s: State, pid: nat, me: Project, original: MessageId, at: string)
    requires pid !in s.jobs && pid !in s.locks.Values
    ensures var (t, ok) := Call(s, pid, me, original, at);
            && (ok ==> CanCompose(s, me, original) && Delivers(s, t, me, original, at))
            && (!ok ==> t == s || (CanCompose(s, me, original) && DeliversOnly(s, t, me, original, at)))
  {
    CallIsOutcome(s, pid, me, original, at);
    if CanCompose(s, me, original) && CanPost(s, ReplyTo(original, me), Composition(s, me, original, at)) {
      var expected, reply := Composition(s, me, original, at), ReplyTo(original, me);
      var posted := WithRecords(s, Posted(s.records, (expected.to, reply), expected));
      PostedLies(s, me, original, at);
      if me !in s.locks && CanRecord(posted.records[(me, original)], Delivering(me, original, at, expected, Replied)) {
        MarkedDelivers(s, posted, me, original, at);
      }
    }
  }

  // ---------------------------------------------------------------------------------------
  // Over whole runs
  // ---------------------------------------------------------------------------------------

  predicate Edits(e: Event, key: Key) { e.Edit? && (e.inbox, e.id) == key }

  /** What may happen to a message that is there: remarks and reply ids are only added to, its
      owner's fields are the owner's to change, and only a terminal message becomes final. */
  predicate Grows(a: Record, b: Record, edited: bool) {
    && a.remarks <= b.remarks && a.replyIds <= b.replyIds
    && (!edited ==> b.processing == a.processing && b.tasks == a.tasks)
    && (!edited && b.replyStatus != a.replyStatus ==> b.replyStatus == Final && Terminal(a.processing))
  }

  /** A delivery creates a reply that was missing, or records the final reply in its message. */
  ghost predicate DeliveryWrites(s: State, job: Job, t: State) {
    || t.records == s.records
    || (job.Delivering? && ReplyKey(job) !in s.records && t.records == s.records[ReplyKey(job) := NewRecord(job.expected)])
    || (SourceKey(job) in s.records && Terminal(s.records[SourceKey(job)].processing)
        && t.records == s.records[SourceKey(job) := RecordFinal(s.records[SourceKey(job)], ReplyTo(job.original, job.me), job.at)])
  }

  lemma ActWrites(s: State, pid: nat, t: State)
    requires Inv(s) && pid in s.jobs && Advance(s, pid) == Some(t)
    ensures DeliveryWrites(s, s.jobs[pid], t)
  {
    var job := s.jobs[pid];
    assert JobOk(s, pid);
    if job.Preparing? {
      PrepareJob(s, pid, t);
    } else {
      DeliverWrites(s, pid, job, t);
    }
  }

  lemma DeliverWrites(s: State, pid: nat, job: Job, t: State)
    requires pid in s.jobs && JobOk(s, pid) && NamesOk(s) && job == s.jobs[pid] && job.Delivering? && Deliver(s, pid, job) == Some(t)
    ensures DeliveryWrites(s, job, t)
  {
    if job.phase == TargetAbsent {
      CreatesIs(s, pid, job, t);
    } else if job.phase.SourceRead? {
      RecordsIs(s, pid, job, t);
    } else {
      DeliverMoves(s, pid, job, t);
    }
  }

  lemma CreatesIs(s: State, pid: nat, job: Job, t: State)
    requires job.Delivering? && job.phase == TargetAbsent && Deliver(s, pid, job) == Some(t)
    ensures t == CreateReply(s, pid, job)
  {}

  lemma StepGrows(s: State, e: Event, t: State, key: Key)
    requires Inv(s) && Next(s, e) == Some(t) && key in s.records
    ensures key in t.records && Grows(s.records[key], t.records[key], Edits(e, key))
  {
    if e.Act? {
      ActWrites(s, e.pid, t);
      DeliveryGrows(s, s.jobs[e.pid], t, key);
    } else {
      OtherGrows(s, e, t, key);
    }
  }

  lemma DeliveryGrows(s: State, job: Job, t: State, key: Key)
    requires DeliveryWrites(s, job, t) && key in s.records
    ensures key in t.records && Grows(s.records[key], t.records[key], false)
  {
    RecordFinalIs(s.records[key], ReplyTo(job.original, job.me), job.at);
  }

  lemma OtherGrows(s: State, e: Event, t: State, key: Key)
    requires Next(s, e) == Some(t) && !e.Act? && key in s.records
    ensures key in t.records && Grows(s.records[key], t.records[key], Edits(e, key))
  {
    if e.Edit? { EditWrites(s, e, t); }
  }

  /** Over every run a message's remarks and reply ids only grow, and unless its owner edits it, its
      processing and task links stay as they are. */
  lemma {:induction false} RunGrows(s: State, events: seq<Event>, t: State, key: Key)
    requires Inv(s) && Run(s, events) == Some(t) && key in s.records
    ensures key in t.records && Grows(s.records[key], t.records[key], exists e :: e in events && Edits(e, key))
    decreases |events|
  {
    if events != [] {
      var m := Next(s, events[0]).value;
      NextKeeps(s, events[0], m);
      StepGrows(s, events[0], m, key);
      RunGrows(m, events[1..], t, key);
      if Edits(events[0], key) { assert events[0] in events; }
      if exists e :: e in events[1..] && Edits(e, key) {
        var e :| e in events[1..] && Edits(e, key);
        assert e in events;
      }
    }
  }

  lemma MessagesOnlyGrow(s: State, events: seq<Event>, t: State, key: Key)
    requires Reachable(s) && Run(s, events) == Some(t) && key in s.records
    ensures key in t.records && Grows(s.records[key], t.records[key], exists e :: e in events && Edits(e, key))
  {
    ReachableInv(s);
    RunGrows(s, events, t, key);
  }
}
