/** One-time approvals, from `engine/src/approval.rs`: a record per request under a deterministic
    id, decided at most once and only before its deadline. Mutations are serialized by a lock. */
module Approval {
  import opened Text
  import opened StatusText

  const MAX_TIME: nat := 0xFFFF_FFFF_FFFF_FFFF

  datatype Decision = Approve | Reject

  datatype Request = Request(
    task: Option<string>, batch: Option<string>, reason: string, fingerprint: string, policy: string, now: nat, deadline: nat)

  /** The id is a hash of its preimage; two preimages are taken to have different ids. */
  datatype Id = Id(preimage: string)

  datatype Record = Record(
    id: Id, subject: string, reason: string, fingerprint: string, policy: string, createdAt: nat, deadlineAt: nat,
    notificationPending: bool, decision: Option<Decision>, decidedBy: Option<string>, decidedAt: Option<nat>, note: Option<string>)

  datatype Status = Approved | Pending(deadlineAt: nat) | Rejected | ExpiredTimeout | ExpiredStale | Missing

  datatype Error = Invalid | Corrupt | AlreadyDecided | Expired | NoRecord

  // ---------------------------------------------------------------------------------------
  // Validation and identity
  // ---------------------------------------------------------------------------------------

  predicate NoBreaks(s: string) { '\0' !in s && '\n' !in s && '\r' !in s && '|' !in s }

  predicate HasDots(s: string) { exists i :: 0 <= i < |s| - 1 && s[i] == '.' && s[i + 1] == '.' }

  /** `validate_subject_id`. */
  predicate OkSubjectId(s: string) { s != "" && NoBreaks(s) && !StartsWith(s, "-") && !HasDots(s) }

  /** `validate_text`. */
  predicate OkText(s: string) { Trim(s) != "" && NoBreaks(s) }

  /** `validate_identity`. */
  predicate OkIdentity(s: string) { |s| == 64 && forall c | c in s :: IsDigit(c) || 'a' <= c <= 'f' || 'A' <= c <= 'F' }

  predicate OkNote(note: Option<string>) { note.Some? ==> '\0' !in note.value && Utf8Length(note.value) <= 4096 }

  function OrEmpty(s: Option<string>): string { match s case Some(v) => v case None => "" }

  /** The parts of an approval's subject are valid, and at least one is there. */
  predicate OkSubject(r: Request) {
    var task, batch := OrEmpty(r.task), OrEmpty(r.batch);
    (task != "" || batch != "") && (task != "" ==> OkSubjectId(task)) && (batch != "" ==> OkSubjectId(batch))
  }

  predicate Accepted(r: Request) {
    r.deadline > 0 && OkText(r.reason) && OkIdentity(r.fingerprint) && OkIdentity(r.policy) && OkSubject(r)
  }

  /** `subject`. */
  function Subject(r: Request): string { "task:" + (OrEmpty(r.task) + ("|" + ("batch:" + OrEmpty(r.batch)))) }

  /** `approval_id`, before hashing. */
  function Preimage(subject: string, reason: string, fingerprint: string, policy: string): string {
    subject + ("|" + (reason + ("|" + (fingerprint + ("|" + policy)))))
  }

  function IdOf(r: Request): Id { Id(Preimage(Subject(r), r.reason, r.fingerprint, r.policy)) }

  function BarAt(s: string): (k: nat)
    ensures k <= |s|
  {
    if s == "" || s[0] == '|' then 0 else 1 + BarAt(s[1..])
  }

  lemma {:induction false} BarFirst(a: string, x: string)
    requires '|' !in a
    ensures BarAt(a + ("|" + x)) == |a|
  {
    var s := a + ("|" + x);
    if a != "" {
      assert s[0] == a[0] && a[0] in a && s[1..] == a[1..] + ("|" + x);
      BarFirst(a[1..], x);
    }
  }

  /** Texts without a bar are recovered from where the bar stands. */
  lemma BarSplits(a: string, x: string, b: string, y: string)
    requires '|' !in a && '|' !in b && a + ("|" + x) == b + ("|" + y)
    ensures a == b && x == y
  {
    var s := a + ("|" + x);
    BarFirst(a, x);
    BarFirst(b, y);
    assert s[..|a|] == a && s[|a| + 1..] == x;
    assert s == b + ("|" + y);
    assert s[..|b|] == b && s[|b| + 1..] == y;
  }

  /** Two accepted requests share an id only if they ask for the same thing: the same subject (a
      missing part being an empty one), reason, fingerprint and policy. */
  lemma IdIsInjective(r: Request, q: Request)
    requires Accepted(r) && Accepted(q) && IdOf(r) == IdOf(q)
    ensures OrEmpty(r.task) == OrEmpty(q.task) && OrEmpty(r.batch) == OrEmpty(q.batch)
    ensures r.reason == q.reason && r.fingerprint == q.fingerprint && r.policy == q.policy
  {
    var (a, b) := ("task:" + OrEmpty(r.task), "task:" + OrEmpty(q.task));
    var (c, d) := ("batch:" + OrEmpty(r.batch), "batch:" + OrEmpty(q.batch));
    var (x, y) := (Tail(r), Tail(q));
    PreimageParts(r, a, c, x);
    PreimageParts(q, b, d, y);
    NoBarParts(r);
    NoBarParts(q);
    BarSplits(a, c + ("|" + x), b, d + ("|" + y));
    BarSplits(c, x, d, y);
    BarSplits(r.reason, r.fingerprint + ("|" + r.policy), q.reason, q.fingerprint + ("|" + q.policy));
    BarSplits(r.fingerprint, r.policy, q.fingerprint, q.policy);
    assert a[5..] == OrEmpty(r.task) && b[5..] == OrEmpty(q.task);
    assert c[6..] == OrEmpty(r.batch) && d[6..] == OrEmpty(q.batch);
  }

  function Tail(r: Request): string { r.reason + ("|" + (r.fingerprint + ("|" + r.policy))) }

  lemma PreimageParts(r: Request, a: string, c: string, x: string)
    requires a == "task:" + OrEmpty(r.task) && c == "batch:" + OrEmpty(r.batch) && x == Tail(r)
    ensures IdOf(r).preimage == a + ("|" + (c + ("|" + x)))
  {
    Assoc("task:", OrEmpty(r.task), "|" + c);
    Assoc(a, "|" + c, "|" + x);
    Assoc("|", c, "|" + x);
    assert Subject(r) == a + ("|" + c);
  }

  lemma NoBarParts(r: Request)
    requires Accepted(r)
    ensures '|' !in "task:" + OrEmpty(r.task) && '|' !in "batch:" + OrEmpty(r.batch)
    ensures '|' !in r.reason && '|' !in r.fingerprint && '|' !in r.policy
  {}

  // ---------------------------------------------------------------------------------------
  // The store
  // ---------------------------------------------------------------------------------------

  type Store = map<Id, Record>

  /** `validate_record`. */
  predicate OkRecord(record: Record, id: Id) {
    && record.id == id && OkText(record.reason) && OkIdentity(record.fingerprint) && OkIdentity(record.policy)
    && record.createdAt <= record.deadlineAt
    && (record.decision.Some? ==> record.decidedBy.Some? && record.decidedBy.value != "" && record.decidedAt.Some?)
  }

  function DeadlineOf(r: Request): nat { if r.now + r.deadline > MAX_TIME then MAX_TIME else r.now + r.deadline }

  function NewRecord(r: Request): Record {
    Record(IdOf(r), Subject(r), r.reason, r.fingerprint, r.policy, r.now, DeadlineOf(r), true, None, None, None, None)
  }

  function Notified(record: Record): Record {
    Record(record.id, record.subject, record.reason, record.fingerprint, record.policy, record.createdAt, record.deadlineAt,
           false, record.decision, record.decidedBy, record.decidedAt, record.note)
  }

  datatype Event =
    | Ask(request: Request)
    | Decide(id: Id, decision: Decision, who: string, note: Option<string>, now: nat)
    | ClearNotification(id: Id)

  function Decided(record: Record, e: Event): Record
    requires e.Decide?
  {
    Record(record.id, record.subject, record.reason, record.fingerprint, record.policy, record.createdAt, record.deadlineAt,
           record.notificationPending, Some(e.decision), Some(e.who), Some(e.now), e.note)
  }

  /** What one mutation does: the new store, or why it is refused. */
  function Mutate(s: Store, e: Event): Result<Store, Error> {
    match e
    case Ask(r) =>
      if !Accepted(r) then Err(Invalid)
      else if IdOf(r) in s then if OkRecord(s[IdOf(r)], IdOf(r)) then Ok(s) else Err(Corrupt)
      else if !OkRecord(NewRecord(r), IdOf(r)) then Err(Corrupt)
      else Ok(s[IdOf(r) := NewRecord(r)])
    case Decide(id, decision, who, note, now) =>
      if !OkText(who) || !OkNote(note) then Err(Invalid)
      else if id !in s then Err(NoRecord)
      else if !OkRecord(s[id], id) then Err(Corrupt)
      else if s[id].decision.Some? then Err(AlreadyDecided)
      else if now > s[id].deadlineAt then Err(Expired)
      else Ok(s[id := Decided(s[id], e)])
    case ClearNotification(id) =>
      if id !in s then Err(NoRecord)
      else if !OkRecord(s[id], id) then Err(Corrupt)
      else if s[id].notificationPending then Ok(s[id := Notified(s[id])]) else Ok(s)
  }

  function After(s: Store, e: Event): Store { match Mutate(s, e) case Ok(t) => t case Err(_) => s }

  function Run(s: Store, events: seq<Event>): Store
    decreases |events|
  {
    if events == [] then s else Run(After(s, events[0]), events[1..])
  }

  /** `status`. */
  function StatusOf(s: Store, id: Id, fingerprint: string, policy: string, now: nat): Result<Status, Error> {
    if !OkIdentity(fingerprint) || !OkIdentity(policy) then Err(Invalid)
    else if id !in s then Ok(Missing)
    else if !OkRecord(s[id], id) then Err(Corrupt)
    else if s[id].fingerprint != fingerprint || s[id].policy != policy then Ok(ExpiredStale)
    else
      match s[id].decision
      case Some(Approve) => Ok(Approved)
      case Some(Reject) => Ok(Rejected)
      case None => if now > s[id].deadlineAt then Ok(ExpiredTimeout) else Ok(Pending(s[id].deadlineAt))
  }

  // ---------------------------------------------------------------------------------------
  // What one mutation does to the records
  // ---------------------------------------------------------------------------------------

  /** An open record of the request: all that it asks for, until its deadline is over or time ends,
      and still to be announced. */
  predicate Opens(record: Record, r: Request) {
    && record.id == IdOf(r) && record.subject == "task:" + OrEmpty(r.task) + "|batch:" + OrEmpty(r.batch)
    && record.reason == r.reason && record.fingerprint == r.fingerprint && record.policy == r.policy && record.createdAt == r.now
    && record.deadlineAt <= MAX_TIME && record.deadlineAt <= r.now + r.deadline
    && (record.deadlineAt == MAX_TIME || record.deadlineAt == r.now + r.deadline)
    && record.notificationPending && record.decision.None? && record.decidedBy.None? && record.decidedAt.None? && record.note.None?
  }

  /** The same request, with the same things said of its making. */
  predicate SameRequest(a: Record, b: Record) {
    && b.id == a.id && b.subject == a.subject && b.reason == a.reason && b.fingerprint == a.fingerprint && b.policy == a.policy
    && b.createdAt == a.createdAt && b.deadlineAt == a.deadlineAt
  }

  /** The record was open and not over time, and is decided as was said, by whom and when. */
  predicate Decides(a: Record, b: Record, decision: Decision, who: string, note: Option<string>, now: nat) {
    && SameRequest(a, b) && a.decision.None? && now <= a.deadlineAt && b.notificationPending == a.notificationPending
    && b.decision == Some(decision) && b.decidedBy == Some(who) && b.decidedAt == Some(now) && b.note == note
  }

  /** Nothing changed but that the record counts as announced. */
  predicate Announces(a: Record, b: Record) {
    && SameRequest(a, b) && !b.notificationPending
    && b.decision == a.decision && b.decidedBy == a.decidedBy && b.decidedAt == a.decidedAt && b.note == a.note
  }

  ghost predicate OthersStay(s: Store, t: Store, id: Id) {
    (forall k | k in s && k != id :: k in t && t[k] == s[k]) && forall k | k in t && k != id :: k in s
  }

  /** What an accepted mutation does to the store. */
  ghost predicate Does(s: Store, t: Store, e: Event) {
    match e
    case Ask(r) =>
      && Accepted(r) && IdOf(r) in t && OthersStay(s, t, IdOf(r))
      && if IdOf(r) in s then t[IdOf(r)] == s[IdOf(r)] else Opens(t[IdOf(r)], r)
    case Decide(id, decision, who, note, now) =>
      && OkText(who) && OkNote(note) && id in s && id in t && OthersStay(s, t, id)
      && Decides(s[id], t[id], decision, who, note, now)
    case ClearNotification(id) =>
      id in s && id in t && OthersStay(s, t, id) && Announces(s[id], t[id])
  }

  /** A mutation is refused for the first of these reasons that holds. */
  predicate RefusedFor(s: Store, e: Event, error: Error) {
    match e
    case Ask(r) =>
      if !Accepted(r) then error == Invalid
      else error == Corrupt && if IdOf(r) in s then !OkRecord(s[IdOf(r)], IdOf(r)) else r.now > MAX_TIME
    case Decide(id, _, who, note, now) =>
      if !OkText(who) || !OkNote(note) then error == Invalid
      else if id !in s then error == NoRecord
      else if !OkRecord(s[id], id) then error == Corrupt
      else if s[id].decision.Some? then error == AlreadyDecided
      else error == Expired && now > s[id].deadlineAt
    case ClearNotification(id) =>
      if id !in s then error == NoRecord else error == Corrupt && !OkRecord(s[id], id)
  }

  /** A mutation is refused for a reason, or does what it says. */
  lemma MutationIs(s: Store, e: Event)
    ensures match Mutate(s, e) case Ok(t) => Does(s, t, e) case Err(error) => RefusedFor(s, e, error)
  {
    if e.Ask? {
      var r := e.request;
      assert Subject(r) == "task:" + OrEmpty(r.task) + "|batch:" + OrEmpty(r.batch);
    }
  }

  /** Each status a caller can find, and what it is found for. */
  lemma StatusIs(s: Store, id: Id, fingerprint: string, policy: string, now: nat)
    requires OkIdentity(fingerprint) && OkIdentity(policy) && (id in s ==> OkRecord(s[id], id))
    ensures var found := StatusOf(s, id, fingerprint, policy, now);
            && found.Ok?
            && (found.value == Missing <==> id !in s)
            && (id in s ==>
                  var record := s[id];
                  var current := record.fingerprint == fingerprint && record.policy == policy;
                  && (found.value == ExpiredStale <==> !current)
                  && (found.value == Approved <==> current && record.decision == Some(Approve))
                  && (found.value == Rejected <==> current && record.decision == Some(Reject))
                  && (found.value == ExpiredTimeout <==> current && record.decision == None && record.deadlineAt < now)
                  && (found.value == Status.Pending(record.deadlineAt) <==> current && record.decision == None && now <= record.deadlineAt))
  {
    if id in s && s[id].decision.Some? { assert s[id].decision.value == Approve || s[id].decision.value == Reject; }
  }

  // ---------------------------------------------------------------------------------------
  // Over every run
  // ---------------------------------------------------------------------------------------

  /** Every record is valid, and filed under the id of what it asks for. */
  ghost predicate Filed(s: Store) { forall id | id in s :: FiledAs(s[id], id) }

  /** Nothing but an open decision and the notification marker ever changes. */
  ghost predicate Settled(s: Store, t: Store) { forall id | id in s :: id in t && SameCase(s[id], t[id]) }

  /** What one mutation may do to one record. */
  predicate SameCase(a: Record, b: Record) {
    && b.id == a.id && b.fingerprint == a.fingerprint && b.policy == a.policy && b.deadlineAt == a.deadlineAt
    && b.subject == a.subject && b.reason == a.reason && b.createdAt == a.createdAt
    && (a.decision.Some? ==> b.decision == a.decision && b.decidedBy == a.decidedBy && b.decidedAt == a.decidedAt && b.note == a.note)
  }

  predicate FiledAs(record: Record, id: Id) {
    OkRecord(record, id) && id == Id(Preimage(record.subject, record.reason, record.fingerprint, record.policy))
  }

  lemma StepSettles(s: Store, e: Event)
    requires Filed(s)
    ensures Filed(After(s, e)) && Settled(s, After(s, e))
  {
    if After(s, e) != s {
      match e
      case Ask(r) => AskSettles(s, e, r);
      case Decide(id, _, _, _, _) => DecideSettles(s, e, id);
      case ClearNotification(id) => ClearSettles(s, e, id);
    }
  }

  lemma AskSettles(s: Store, e: Event, r: Request)
    requires Filed(s) && e == Ask(r)
    ensures Filed(After(s, e)) && Settled(s, After(s, e))
  {
    if After(s, e) != s { assert FiledAs(NewRecord(r), IdOf(r)); }
  }

  lemma DecideSettles(s: Store, e: Event, id: Id)
    requires Filed(s) && e.Decide? && id == e.id && After(s, e) != s
    ensures Filed(After(s, e)) && Settled(s, After(s, e))
  {
    NotBlank(e.who);
    assert FiledAs(s[id], id) && FiledAs(Decided(s[id], e), id) && SameCase(s[id], Decided(s[id], e));
  }

  lemma ClearSettles(s: Store, e: Event, id: Id)
    requires Filed(s) && e.ClearNotification? && id == e.id && After(s, e) != s
    ensures Filed(After(s, e)) && Settled(s, After(s, e))
  {
    assert FiledAs(s[id], id) && FiledAs(Notified(s[id]), id) && SameCase(s[id], Notified(s[id]));
  }

  lemma NotBlank(s: string)
    requires OkText(s)
    ensures s != ""
  {}

  /** A decision, once set, never changes, nor does anything it rests on. */
  lemma {:induction false} DecisionsStand(s: Store, events: seq<Event>)
    requires Filed(s)
    ensures Filed(Run(s, events)) && Settled(s, Run(s, events))
    decreases |events|
  {
    if events != [] {
      StepSettles(s, events[0]);
      DecisionsStand(After(s, events[0]), events[1..]);
    }
  }

  /** Decisions are made no earlier than time `now`, in order of time. */
  predicate Clocked(events: seq<Event>, now: nat)
    decreases |events|
  {
    events == [] ||
    if events[0].Decide? then events[0].now >= now && Clocked(events[1..], events[0].now) else Clocked(events[1..], now)
  }

  /** What was approved for a fingerprint and a policy stays approved for them, at any later time;
      and what was rejected stays rejected. */
  lemma VerdictsStand(s: Store, events: seq<Event>, id: Id, fingerprint: string, policy: string, now: nat, later: nat)
    requires Filed(s)
    requires StatusOf(s, id, fingerprint, policy, now) == Ok(Approved) || StatusOf(s, id, fingerprint, policy, now) == Ok(Rejected)
    ensures StatusOf(Run(s, events), id, fingerprint, policy, later) == StatusOf(s, id, fingerprint, policy, now)
  {
    DecisionsStand(s, events);
  }

  lemma {:induction false} StaysOpen(s: Store, events: seq<Event>, id: Id, now: nat)
    requires Filed(s) && Clocked(events, now) && id in s && s[id].decision == None && now > s[id].deadlineAt
    ensures id in Run(s, events) && Run(s, events)[id].decision == None
    decreases |events|
  {
    if events != [] {
      StepSettles(s, events[0]);
      StaysOpen(After(s, events[0]), events[1..], id, if events[0].Decide? then events[0].now else now);
    }
  }

  /** A record seen as timed out is never approved or rejected later: with a clock that does not
      run backwards, it stays timed out. */
  lemma TimeoutsStand(s: Store, events: seq<Event>, id: Id, fingerprint: string, policy: string, now: nat, later: nat)
    requires Filed(s) && Clocked(events, now) && later >= now
    requires StatusOf(s, id, fingerprint, policy, now) == Ok(ExpiredTimeout)
    ensures StatusOf(Run(s, events), id, fingerprint, policy, later) == Ok(ExpiredTimeout)
  {
    DecisionsStand(s, events);
    StaysOpen(s, events, id, now);
  }

  /** The record asks for what the request asks for. */
  predicate AsksFor(record: Record, r: Request) {
    record.subject == Subject(r) && record.reason == r.reason && record.fingerprint == r.fingerprint && record.policy == r.policy
  }

  /** Event `i` of a run approves record `id`, open and in time. */
  predicate Approves(events: seq<Event>, i: nat, id: Id) {
    && i < |events| && events[i].Decide? && events[i].id == id && events[i].decision == Approve
    && var seen := Run(map[], events[..i]);
       id in seen && seen[id].decision == None && events[i].now <= seen[id].deadlineAt
  }

  /** An approval found for a request was given to a record, then open and within its deadline,
      that asks for exactly what the request asks for. */
  lemma ApprovedAsAsked(events: seq<Event>, r: Request, now: nat) returns (i: nat)
    requires Accepted(r) && StatusOf(Run(map[], events), IdOf(r), r.fingerprint, r.policy, now) == Ok(Approved)
    ensures Approves(events, i, IdOf(r))
    ensures AsksFor(Run(map[], events[..i])[IdOf(r)], r)
  {
    i := ApprovalHasCause(events, IdOf(r));
    RunAsked(events[..i], r);
  }

  lemma {:induction false} RunAppend(s: Store, events: seq<Event>, e: Event)
    ensures Run(s, events + [e]) == After(Run(s, events), e)
    decreases |events|
  {
    if events == [] {
      assert events + [e] == [e] && [e][1..] == [];
    } else {
      assert (events + [e])[1..] == events[1..] + [e];
      RunAppend(After(s, events[0]), events[1..], e);
    }
  }

  lemma {:induction false} ApprovalHasCause(events: seq<Event>, id: Id) returns (i: nat)
    requires id in Run(map[], events) && Run(map[], events)[id].decision == Some(Approve)
    ensures Approves(events, i, id)
    decreases |events|
  {
    var first, last := events[..|events| - 1], events[|events| - 1];
    assert events == first + [last];
    RunAppend(map[], first, last);
    var s := Run(map[], first);
    if id in s && s[id].decision == Some(Approve) {
      i := ApprovalHasCause(first, id);
      assert events[..i] == first[..i] && events[i] == first[i];
    } else {
      i := |events| - 1;
    }
  }

  /** The record under a request's id asks for what the request asks for. */
  lemma {:induction false} RunAsked(events: seq<Event>, r: Request)
    requires Accepted(r) && IdOf(r) in Run(map[], events)
    ensures AsksFor(Run(map[], events)[IdOf(r)], r)
    decreases |events|
  {
    var first, last := events[..|events| - 1], events[|events| - 1];
    assert events == first + [last];
    RunAppend(map[], first, last);
    if IdOf(r) in Run(map[], first) {
      RunAsked(first, r);
    } else {
      AskedNow(Run(map[], first), last, r);
    }
  }

  /** A record that appears is the one of a request with its id. */
  lemma AskedNow(s: Store, e: Event, r: Request)
    requires Accepted(r) && IdOf(r) !in s && IdOf(r) in After(s, e)
    ensures AsksFor(After(s, e)[IdOf(r)], r)
  {
    IdIsInjective(e.request, r);
    assert Subject(e.request) == Subject(r);
  }

  // ---------------------------------------------------------------------------------------
  // The store as it is updated
  // ---------------------------------------------------------------------------------------

  class ApprovalStore {
    var records: Store

    constructor ()
      ensures records == map[]
    {
      records := map[];
    }

    /** `request`: creates the record, or finds the one there is. */
    method MakeRequest(r: Request) returns (result: Result<Record, Error>)
      modifies this
      ensures match Mutate(old(records), Ask(r))
              case Ok(t) => records == t && IdOf(r) in t && result == Ok(t[IdOf(r)])
              case Err(e) => records == old(records) && result == Err(e)
      ensures if result.Ok? then Does(old(records), records, Ask(r)) else RefusedFor(old(records), Ask(r), result.error)
    {
      MutationIs(records, Ask(r));
      if !Accepted(r) { return Err(Invalid); }
      var id := IdOf(r);
      if id in records {
        return if OkRecord(records[id], id) then Ok(records[id]) else Err(Corrupt);
      }
      var record := NewRecord(r);
      if !OkRecord(record, id) { return Err(Corrupt); }
      records := records[id := record];
      return Ok(record);
    }

    /** `decide`: an open record, before its deadline, once. */
    method MakeDecision(id: Id, decision: Decision, who: string, note: Option<string>, now: nat) returns (result: Result<Record, Error>)
      modifies this
      ensures match Mutate(old(records), Decide(id, decision, who, note, now))
              case Ok(t) => records == t && id in t && result == Ok(t[id])
              case Err(e) => records == old(records) && result == Err(e)
      ensures var e := Decide(id, decision, who, note, now);
              if result.Ok? then Does(old(records), records, e) else RefusedFor(old(records), e, result.error)
    {
      MutationIs(records, Decide(id, decision, who, note, now));
      if !OkText(who) || !OkNote(note) { return Err(Invalid); }
      if id !in records { return Err(NoRecord); }
      var record := records[id];
      if !OkRecord(record, id) { return Err(Corrupt); }
      if record.decision.Some? { return Err(AlreadyDecided); }
      if now > record.deadlineAt { return Err(Expired); }
      record := Decided(record, Decide(id, decision, who, note, now));
      records := records[id := record];
      return Ok(record);
    }

    /** `clear_notification_pending`. */
    method ClearPending(id: Id) returns (result: Result<(), Error>)
      modifies this
      ensures match Mutate(old(records), ClearNotification(id))
              case Ok(t) => records == t && result == Ok(())
              case Err(e) => records == old(records) && result == Err(e)
      ensures if result.Ok? then Does(old(records), records, ClearNotification(id))
              else RefusedFor(old(records), ClearNotification(id), result.error)
    {
      MutationIs(records, ClearNotification(id));
      if id !in records { return Err(NoRecord); }
      var record := records[id];
      if !OkRecord(record, id) { return Err(Corrupt); }
      if record.notificationPending {
        records := records[id := Notified(record)];
      }
      return Ok(());
    }
  }
}
