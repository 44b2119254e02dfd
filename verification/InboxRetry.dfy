/** When a retry of a final-reply delivery succeeds, from `engine/src/inbox.rs`: after any run of
    the system in `InboxDelivery`, whatever crashed on the way. */
module InboxRetry {
  import opened Text
  import opened InboxDelivery
  import opened InboxChanges

  // ---------------------------------------------------------------------------------------
  // When a reply passes the message parser
  // ---------------------------------------------------------------------------------------

  lemma {:induction false} TruncateOk(s: string, room: nat)
    ensures Utf16Length(Truncate(s, room)) <= room && forall c | c in Truncate(s, room) :: c in s
  {
    if s != "" && Utf16Units(s[0]) <= room {
      TruncateOk(s[1..], room - Utf16Units(s[0]));
      var rest := Truncate(s[1..], room - Utf16Units(s[0]));
      assert (s[..1] + rest)[1..] == rest;
    }
  }

  lemma {:induction false} ReplySubjectOk(subject: string)
    requires NoControl(subject)
    ensures OkText(ReplySubject(subject), MAX_SUBJECT)
  {
    var whole := "Re: " + subject;
    TruncateOk(whole, MAX_SUBJECT);
    assert NoControl(whole) by {
      forall c | c in whole ensures !IsControl(c) { if c !in subject { assert c in "Re: "; } }
    }
    assert whole[0] == 'R';
    var cut := ReplySubject(subject);
    assert cut[0] == 'R' && TrimStart(cut) == cut;
    TrimEndVisible(cut);
  }

  predicate Visible(name: string) { Trim(name) != "" }

  /** An answer passes the parser exactly when both project names are visible and its body has
      no NUL: everything else is inherited from the message it answers. */
  lemma AnswerParses(c: Content, source: Content, me: Project, original: MessageId)
    requires Answers(c, source, me, original)
    ensures Parses(c) <==> Visible(c.fromName) && Visible(c.toName) && '\0' !in c.body
  {
    Utf16Fits(c.fromName);
    Utf16Fits(c.toName);
    ReplySubjectOk(source.subject);
  }

  // ---------------------------------------------------------------------------------------
  // When a retry succeeds
  // ---------------------------------------------------------------------------------------

  /** A reply already delivered can be reused: same body, and acceptable to the parser. */
  predicate Reusable(s: State, me: Project, original: MessageId)
    requires CanCompose(s, me, original)
  {
    var key := (me, original);
    var sender, body := s.records[key].content.from, s.candidates[key];
    var target := (sender, ReplyTo(original, me));
    target in s.records ==>
      var existing := s.records[target].content;
      && existing.body == body && '\0' !in body
      && Visible(existing.fromName) && Visible(existing.toName) && Visible(s.registry[me]) && Visible(s.registry[sender])
  }

  predicate Deliverable(s: State, me: Project, original: MessageId) {
    CanCompose(s, me, original) && s.records[(me, original)].content.from in s.inboxes && Reusable(s, me, original)
  }

  lemma PostWhen(s: State, me: Project, original: MessageId, at: string)
    requires Inv(s) && s.locks == map[] && CanCompose(s, me, original)
    ensures CanPost(s, ReplyTo(original, me), Composition(s, me, original, at))
            <==> s.records[(me, original)].content.from in s.inboxes && Reusable(s, me, original)
  {
    var source := s.records[(me, original)].content;
    var expected, target := Composition(s, me, original, at), (source.from, ReplyTo(original, me));
    NewReplyAnswers(source, original, me, s.registry[me], s.registry[source.from], s.candidates[(me, original)], at);
    AnswerParses(expected, source, me, original);
    if target in s.records {
      assert TargetOk(s, target);
      AnswerParses(s.records[target].content, source, me, original);
    }
  }

  /** After any run, with every lock released or cleared: a call that meets no interference ends
      with the message final, the reply in the sender's inbox and the candidate gone exactly
      when the call is allowed and a reply already delivered can be reused; otherwise it changes
      nothing. Of the message only what records the reply changes, no other message is touched,
      and a reply already delivered stays as it is. */
  lemma RetryEndsFinal(s: State, pid: nat, me: Project, original: MessageId, at: string)
    requires Reachable(s) && s.locks == map[] && pid !in s.jobs
    ensures var (t, ok) := Call(s, pid, me, original, at);
            && (ok <==> Deliverable(s, me, original))
            && (!ok ==> t == s)
            && (ok ==> Delivers(s, t, me, original, at))
  {
    ReachableInv(s);
    CallIsOutcome(s, pid, me, original, at);
    CallChanges(s, pid, me, original, at);
    if CanCompose(s, me, original) {
      PostWhen(s, me, original, at);
      assert SourceOk(s, (me, original));
    }
  }

  // ---------------------------------------------------------------------------------------
  // An unchanged candidate
  // ---------------------------------------------------------------------------------------

  /** The candidate of `key` is only ever offered with one body, and names are visible. */
  predicate SteadyEvent(e: Event, key: Key, body: string) {
    && (e.Offer? && e.key == key ==> e.body == body)
    && (e.Register? ==> Visible(e.name))
  }

  predicate SteadyContent(c: Content, body: string) { c.body == body && Visible(c.fromName) && Visible(c.toName) }

  predicate SteadyJob(job: Job, key: Key, body: string) {
    match job
    case Preparing(_, _, _, myName, reading) => Visible(myName) && (reading.HasSender? ==> Visible(reading.senderName))
    case Delivering(_, _, _, expected, _) => SourceKey(job) == key ==> SteadyContent(expected, body)
  }

  ghost predicate Steady(s: State, key: Key, body: string) {
    && (key in s.candidates ==> s.candidates[key] == body)
    && (forall p | p in s.registry :: Visible(s.registry[p]))
    && (forall k | k in s.records && k.1 == ReplyTo(key.1, key.0) :: SteadyContent(s.records[k].content, body))
    && (forall pid | pid in s.jobs :: SteadyJob(s.jobs[pid], key, body))
  }

  predicate SameOthers(s: State, t: State, pid: nat) {
    forall other | other in t.jobs && other != pid :: other in s.jobs && t.jobs[other] == s.jobs[other]
  }

  /** A delivery keeps the reply it composed, ... */
  lemma TargetJobs(s: State, pid: nat, job: Job, t: State)
    requires pid in s.jobs && s.jobs[pid] == job && job.Delivering? && Deliver(s, pid, job) == Some(t) && Rank(job) >= 6
    ensures SameOthers(s, t, pid) && (pid in t.jobs ==> SameWork(t.jobs[pid], job))
  {
    if job.phase == TargetHeld { LookTargetJobs(s, pid, job, t); }
  }

  lemma LookTargetJobs(s: State, pid: nat, job: Job, t: State)
    requires job.Delivering? && job.phase == TargetHeld && LookTarget(s, pid, job) == Some(t)
    ensures t == Go(s, pid, WithPhase(job, if ReplyKey(job) in s.records then TargetDone else TargetAbsent))
  {}

  lemma SourceJobs(s: State, pid: nat, job: Job, t: State)
    requires pid in s.jobs && s.jobs[pid] == job && job.Delivering? && Deliver(s, pid, job) == Some(t) && Rank(job) < 6
    ensures SameOthers(s, t, pid) && (pid in t.jobs ==> SameWork(t.jobs[pid], job))
  {}

  predicate SameWork(moved: Job, job: Job) {
    moved.Delivering? && job.Delivering? && SourceKey(moved) == SourceKey(job) && moved.expected == job.expected
  }

  lemma DeliverAside(s: State, pid: nat, job: Job, t: State)
    requires job.Delivering? && Deliver(s, pid, job) == Some(t)
    ensures t.registry == s.registry && (t.candidates == s.candidates || t.candidates == s.candidates - {SourceKey(job)})
  {
    if Rank(job) >= 6 { TargetAside(s, pid, job, t); } else { SourceAside(s, pid, job, t); }
  }

  lemma TargetAside(s: State, pid: nat, job: Job, t: State)
    requires job.Delivering? && Deliver(s, pid, job) == Some(t) && Rank(job) >= 6
    ensures t.registry == s.registry && t.candidates == s.candidates
  {}

  lemma SourceAside(s: State, pid: nat, job: Job, t: State)
    requires job.Delivering? && Deliver(s, pid, job) == Some(t) && Rank(job) < 6
    ensures t.registry == s.registry && (t.candidates == s.candidates || t.candidates == s.candidates - {SourceKey(job)})
  {
    match job.phase
    case SourceHeld => LookSourceAside(s, pid, job, t);
    case SourceRead(r) => RecordAside(s, pid, job, r, t);
    case _ =>
  }

  lemma LookSourceAside(s: State, pid: nat, job: Job, t: State)
    requires job.Delivering? && LookSource(s, pid, job) == Some(t)
    ensures t.registry == s.registry && t.candidates == s.candidates
  {}

  lemma RecordAside(s: State, pid: nat, job: Job, r: Record, t: State)
    requires job.Delivering? && t == RecordSource(s, pid, job, r)
    ensures t.registry == s.registry && t.candidates == s.candidates
  {}

  /** ... and what it writes is that reply or no new file. */
  lemma DeliverRecords(s: State, pid: nat, job: Job, t: State)
    requires job.Delivering? && Deliver(s, pid, job) == Some(t)
    ensures t.records.Keys <= s.records.Keys + (if job.phase == TargetAbsent then {ReplyKey(job)} else {SourceKey(job)})
    ensures job.phase == TargetAbsent ==> ReplyKey(job) in t.records && t.records[ReplyKey(job)].content == job.expected
  {}

  /** Files that were there keep their content, so only a new one has to be looked at. */
  lemma SteadyRecords(s: State, t: State, key: Key, body: string)
    requires Steady(s, key, body) && Keeps(s, t)
    requires forall k | k in t.records && k !in s.records && k.1 == ReplyTo(key.1, key.0) :: SteadyContent(t.records[k].content, body)
    ensures forall k | k in t.records && k.1 == ReplyTo(key.1, key.0) :: SteadyContent(t.records[k].content, body)
  {}

  lemma SteadyJobs(s: State, t: State, pid: nat, key: Key, body: string)
    requires Steady(s, key, body) && SameOthers(s, t, pid) && (pid in t.jobs ==> SteadyJob(t.jobs[pid], key, body))
    ensures forall p | p in t.jobs :: SteadyJob(t.jobs[p], key, body)
  {
    forall p | p in t.jobs && p != pid ensures SteadyJob(t.jobs[p], key, body) {
      assert SteadyJob(s.jobs[p], key, body);
    }
  }

  lemma SteadyDeliver(s: State, pid: nat, t: State, key: Key, body: string)
    requires Inv(s) && pid in s.jobs && s.jobs[pid].Delivering? && Deliver(s, pid, s.jobs[pid]) == Some(t)
    requires Steady(s, key, body) && Keeps(s, t)
    ensures Steady(t, key, body)
  {
    var job := s.jobs[pid];
    assert JobOk(s, pid) && SteadyJob(job, key, body);
    SameDelivery(s, pid, job, t);
    SteadyJobs(s, t, pid, key, body);
    DeliverAside(s, pid, job, t);
    SteadyWrites(s, pid, job, t, key, body);
  }

  lemma SameDelivery(s: State, pid: nat, job: Job, t: State)
    requires pid in s.jobs && s.jobs[pid] == job && job.Delivering? && Deliver(s, pid, job) == Some(t)
    ensures SameOthers(s, t, pid) && (pid in t.jobs ==> SameWork(t.jobs[pid], job))
  {
    if Rank(job) >= 6 { TargetJobs(s, pid, job, t); } else { SourceJobs(s, pid, job, t); }
  }

  lemma SteadyWrites(s: State, pid: nat, job: Job, t: State, key: Key, body: string)
    requires job.Delivering? && Deliver(s, pid, job) == Some(t) && PhaseOk(s, job) && SteadyJob(job, key, body)
    requires Steady(s, key, body) && Keeps(s, t)
    ensures forall k | k in t.records && k.1 == ReplyTo(key.1, key.0) :: SteadyContent(t.records[k].content, body)
  {
    DeliverRecords(s, pid, job, t);
    SteadyRecords(s, t, key, body);
  }

  lemma PrepareSteady(s: State, pid: nat, job: Job, t: State, key: Key, body: string)
    requires pid in s.jobs && job == s.jobs[pid] && job.Preparing? && Prepare(s, pid, job) == Some(t) && SteadyJob(job, key, body)
    requires (key in s.candidates ==> s.candidates[key] == body) && forall p | p in s.registry :: Visible(s.registry[p])
    ensures pid in t.jobs && SteadyJob(t.jobs[pid], key, body) && t == WithJobs(s, t.jobs) && SameOthers(s, t, pid)
  {
    if job.reading.HasSender? { ComposeSteady(s, pid, job, t, key, body); }
  }

  lemma ComposeSteady(s: State, pid: nat, job: Job, t: State, key: Key, body: string)
    requires job.Preparing? && job.reading.HasSender? && Prepare(s, pid, job) == Some(t) && SteadyJob(job, key, body)
    requires key in s.candidates ==> s.candidates[key] == body
    ensures pid in t.jobs && SteadyJob(t.jobs[pid], key, body) && t == Go(s, pid, t.jobs[pid])
  {}

  lemma SteadyPrepare(s: State, pid: nat, t: State, key: Key, body: string)
    requires pid in s.jobs && s.jobs[pid].Preparing? && Prepare(s, pid, s.jobs[pid]) == Some(t) && Steady(s, key, body)
    ensures Steady(t, key, body)
  {
    assert SteadyJob(s.jobs[pid], key, body);
    PrepareSteady(s, pid, s.jobs[pid], t, key, body);
    SteadyJobs(s, t, pid, key, body);
  }

  /** Nobody else writes under a reply id. */
  lemma SteadyOthers(s: State, e: Event, t: State, key: Key, body: string)
    requires Next(s, e) == Some(t) && !e.Act? && !e.Enter? && SteadyEvent(e, key, body) && Steady(s, key, body) && Keeps(s, t)
    ensures Steady(t, key, body)
  {
    SteadyRecords(s, t, key, body);
  }

  lemma SteadyNext(s: State, e: Event, t: State, key: Key, body: string)
    requires Inv(s) && Next(s, e) == Some(t) && SteadyEvent(e, key, body) && Steady(s, key, body) && Keeps(s, t)
    ensures Steady(t, key, body)
  {
    match e
    case Enter(pid, _, _, _) =>
      SteadyJobs(s, t, pid, key, body);
    case Act(pid) =>
      if s.jobs[pid].Preparing? {
        SteadyPrepare(s, pid, t, key, body);
      } else {
        SteadyDeliver(s, pid, t, key, body);
      }
    case _ => SteadyOthers(s, e, t, key, body);
  }

  lemma {:induction false} SteadyRun(s: State, events: seq<Event>, t: State, key: Key, body: string)
    requires Inv(s) && Run(s, events) == Some(t) && Steady(s, key, body)
    requires forall e | e in events :: SteadyEvent(e, key, body)
    ensures Inv(t) && Steady(t, key, body)
    decreases |events|
  {
    if events != [] {
      var m := Next(s, events[0]).value;
      NextKeeps(s, events[0], m);
      SteadyNext(s, events[0], m, key, body);
      SteadyRun(m, events[1..], t, key, body);
    }
  }

  /** From any crash point: if the candidate was only ever offered with one body without NUL, and
      project names were visible, an uninterrupted retry of a pending message ends final. */
  lemma UnchangedCandidateRetries(events: seq<Event>, s: State, pid: nat, me: Project, original: MessageId, body: string, at: string)
    requires Run(Start, events) == Some(s) && forall e | e in events :: SteadyEvent(e, (me, original), body)
    requires s.locks == map[] && pid !in s.jobs && '\0' !in body
    requires CanCompose(s, me, original) && s.records[(me, original)].content.from in s.inboxes
    ensures var (t, ok) := Call(s, pid, me, original, at);
            ok && Delivers(s, t, me, original, at)
  {
    assert Reachable(s);
    SteadyRun(Start, events, s, (me, original), body);
    RetryEndsFinal(s, pid, me, original, at);
  }

  // ---------------------------------------------------------------------------------------
  // A reply that no retry accepts
  // ---------------------------------------------------------------------------------------

  /** Where a call stands right after it created the reply, with nobody else acting. */
  function AfterCreating(s: State, pid: nat, me: Project, original: MessageId, at: string): State
    requires CanCompose(s, me, original)
  {
    var expected := Composition(s, me, original, at);
    State(s.records[(expected.to, ReplyTo(original, me)) := NewRecord(expected)], s.inboxes, s.registry, s.candidates,
          s.locks[expected.to := pid], s.jobs[pid := Delivering(me, original, at, expected, TargetDone)])
  }

  /** The first attempt at a reply is written unchecked. After a crash right behind the write no
      retry ever succeeds, although the first call would have, exactly if the body has a NUL or one
      of the two projects is registered under a name of blanks. */
  lemma StrandedWhen(s: State, pid: nat, me: Project, original: MessageId, at: string, later: nat, at2: string)
    requires Reachable(s) && s.locks == map[] && s.jobs == map[] && Deliverable(s, me, original)
    requires (s.records[(me, original)].content.from, ReplyTo(original, me)) !in s.records
    ensures Call(s, pid, me, original, at).1
    ensures var crashed := WithJobs(WithLocks(AfterCreating(s, pid, me, original, at), map[]), map[]);
            && Reachable(crashed) && (!Call(crashed, later, me, original, at2).1 <==> Unparseable(s, me, original))
            && (Unparseable(s, me, original) ==> Call(crashed, later, me, original, at2).0 == crashed)
  {
    RetryEndsFinal(s, pid, me, original, at);
    var crashed := WithJobs(WithLocks(AfterCreating(s, pid, me, original, at), map[]), map[]);
    CrashReachable(s, pid, me, original, at);
    RetryEndsFinal(crashed, later, me, original, at2);
  }

  /** The composed reply would not pass the message parser. */
  predicate Unparseable(s: State, me: Project, original: MessageId)
    requires CanCompose(s, me, original)
  {
    '\0' in s.candidates[(me, original)] || !Visible(s.registry[me]) || !Visible(s.registry[s.records[(me, original)].content.from])
  }

  /** Two projects, a message from the second to the first that is done with, and an answer to it. */
  function Example(name: string, body: string): State {
    State(map[("a", Given("m")) := ExampleMessage()], {"a", "b"}, map["a" := name, "b" := "B"], map[("a", Given("m")) := body], map[], map[])
  }

  function ExampleMessage(): Record {
    Record(Content("b", "B", "a", "A", "s", "q", Request, None, None, "d", None, "t"), Implemented, NoReply, {}, multiset{}, [], "t")
  }

  lemma ExampleParses()
    ensures Parses(ExampleMessage().content) && RegistryName("B")
  {
    assert OkText("B", MAX_NAME) && OkText("A", MAX_NAME) && OkText("s", MAX_SUBJECT) by {
      OneLetter("B");
      OneLetter("A");
      OneLetter("s");
    }
  }

  lemma OneLetter(s: string)
    requires |s| == 1 && 'A' <= s[0] <= 'z'
    ensures OkText(s, MAX_NAME) && OkText(s, MAX_SUBJECT) && RegistryName(s)
  {
    assert s[1..] == "" && s == [s[0]];
    TrimEndVisible(s);
  }

  lemma ExampleReachable(name: string, body: string)
    requires RegistryName(name) && Trim(body) != ""
    ensures Reachable(Example(name, body)) && Deliverable(Example(name, body), "a", Given("m"))
  {
    var key := ("a", Given("m"));
    ExampleParses();
    assert Run(Start, []) == Some(Start);
    var s1 := State(map[], {}, map["a" := name], map[], map[], map[]);
    OneMore(Start, Register("a", name), s1);
    var s2 := State(map[], {}, map["a" := name, "b" := "B"], map[], map[], map[]);
    OneMore(s1, Register("b", "B"), s2);
    ExampleOpened(s2, key, body);
  }

  lemma ExampleOpened(s: State, key: Key, body: string)
    requires Reachable(s) && s == State(map[], {}, s.registry, map[], map[], map[]) && key == ("a", Given("m"))
    ensures Reachable(State(map[key := ExampleMessage()], {"a", "b"}, s.registry, map[key := body], map[], map[]))
  {
    var s1 := State(map[], {"a"}, s.registry, map[], map[], map[]);
    assert {} + {"a"} == {"a"} && {"a"} + {"b"} == {"a", "b"};
    OneMore(s, Open("a"), s1);
    var s2 := State(map[], {"a", "b"}, s.registry, map[], map[], map[]);
    OneMore(s1, Open("b"), s2);
    var s3 := State(map[key := ExampleMessage()], {"a", "b"}, s.registry, map[], map[], map[]);
    OneMore(s2, Arrive("a", "m", ExampleMessage()), s3);
    OneMore(s3, Offer(key, body), State(map[key := ExampleMessage()], {"a", "b"}, s.registry, map[key := body], map[], map[]));
  }

  /** A body with a NUL strands every retry, ... */
  lemma NulStrandsRetries(later: nat, at: string)
    ensures var s := Example("A", "x\0");
            && Reachable(s) && Call(s, 1, "a", Given("m"), at).1 && CanCompose(s, "a", Given("m"))
            && var crashed := WithJobs(WithLocks(AfterCreating(s, 1, "a", Given("m"), at), map[]), map[]);
            Reachable(crashed) && Call(crashed, later, "a", Given("m"), at) == (crashed, false)
  {
    assert "x\0" == "x" + "\0" && "x\0"[1] == '\0';
    TrimEndVisible("x\0");
    OneLetter("A");
    ExampleReachable("A", "x\0");
    StrandedWhen(Example("A", "x\0"), 1, "a", Given("m"), at, later, at);
  }

  /** ... and so does a project registered under a blank. */
  lemma BlankNameStrandsRetries(later: nat, at: string)
    ensures var s := Example(" ", "x");
            && Reachable(s) && Call(s, 1, "a", Given("m"), at).1 && CanCompose(s, "a", Given("m"))
            && var crashed := WithJobs(WithLocks(AfterCreating(s, 1, "a", Given("m"), at), map[]), map[]);
            Reachable(crashed) && Call(crashed, later, "a", Given("m"), at) == (crashed, false)
  {
    assert " "[1..] == "" && !Visible(" ") && RegistryName(" ");
    TrimEndVisible("x");
    ExampleReachable(" ", "x");
    StrandedWhen(Example(" ", "x"), 1, "a", Given("m"), at, later, at);
  }

  lemma {:induction false} RunJoins(s: State, first: seq<Event>, m: State, second: seq<Event>, t: State)
    requires Run(s, first) == Some(m) && Run(m, second) == Some(t)
    ensures Run(s, first + second) == Some(t)
    decreases |first|
  {
    if first == [] {
      assert first + second == second;
    } else {
      assert (first + second)[1..] == first[1..] + second;
      RunJoins(Next(s, first[0]).value, first[1..], m, second, t);
    }
  }

  lemma CrashReachable(s: State, pid: nat, me: Project, original: MessageId, at: string)
    requires Reachable(s) && s.locks == map[] && s.jobs == map[] && Deliverable(s, me, original)
    requires (s.records[(me, original)].content.from, ReplyTo(original, me)) !in s.records
    ensures Reachable(WithJobs(WithLocks(AfterCreating(s, pid, me, original, at), map[]), map[]))
  {
    var source, name := s.records[(me, original)].content, s.registry[me];
    var expected := Composition(s, me, original, at);
    var s1 := Go(s, pid, Preparing(me, original, at, name, Entered));
    OneMore(s, Enter(pid, me, original, at), s1);
    var s2 := Go(s1, pid, Preparing(me, original, at, name, HasSource(source)));
    OneMore(s1, Act(pid), s2);
    var s3 := Go(s2, pid, Preparing(me, original, at, name, HasSender(source, s.registry[source.from])));
    OneMore(s2, Act(pid), s3);
    var s4 := Go(s3, pid, Delivering(me, original, at, expected, Composed));
    OneMore(s3, Act(pid), s4);
    CreateReachable(s4, pid, s4.jobs[pid]);
    assert WithJobs(WithLocks(AfterCreating(s, pid, me, original, at), map[]), map[]) ==
           WithJobs(WithLocks(WithRecords(s4, s4.records[(expected.to, ReplyTo(original, me)) := NewRecord(expected)]), map[]), map[]);
  }

  lemma CreateReachable(s4: State, pid: nat, job: Job)
    requires Reachable(s4) && s4.locks == map[] && pid in s4.jobs && s4.jobs - {pid} == map[] && job == s4.jobs[pid]
    requires job.Delivering? && job.phase == Composed && job.expected.to in s4.inboxes && ReplyKey(job) !in s4.records
    ensures Reachable(WithJobs(WithLocks(WithRecords(s4, s4.records[ReplyKey(job) := NewRecord(job.expected)]), map[]), map[]))
  {
    var s5 := Take(s4, pid, job.expected.to, WithPhase(job, TargetHeld)).value;
    OneMore(s4, Act(pid), s5);
    var s6 := Go(s5, pid, WithPhase(job, TargetAbsent));
    OneMore(s5, Act(pid), s6);
    var s7 := CreateReply(s6, pid, job);
    OneMore(s6, Act(pid), s7);
    var s8 := WithJobs(s7, s7.jobs - {pid});
    OneMore(s7, Crash(pid), s8);
    assert s8.jobs == s4.jobs - {pid};
    var s9 := WithLocks(s8, s8.locks - {job.expected.to});
    OneMore(s8, Clear(job.expected.to), s9);
    assert s9.locks == map[];
  }

  lemma OneMore(s: State, e: Event, t: State)
    requires Reachable(s) && Next(s, e) == Some(t)
    ensures Reachable(t)
  {
    var events :| Run(Start, events) == Some(s);
    assert Run(s, [e]) == Some(t);
    RunJoins(Start, events, s, [e], t);
  }
}
