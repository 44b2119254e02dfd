/** `deliver_final_reply` of `engine/src/inbox.rs` as it updates the shared files, one process
    running alone. Its effect is the run of single actions that `InboxDelivery.Call` makes. */
module InboxCall {
  import opened Text
  import opened InboxDelivery
  import opened InboxChanges

  /** The files and registry that the inboxes of all projects live in. */
  class Inboxes {
    var records: map<Key, Record>
    var inboxes: set<Project>
    var registry: map<Project, string>
    var candidates: map<Key, string>
    var locks: map<Project, nat>

    constructor (s: State)
      ensures View() == s.(jobs := map[])
    {
      records, inboxes, registry, candidates, locks := s.records, s.inboxes, s.registry, s.candidates, s.locks;
    }

    function View(): State
      reads this
    {
      State(records, inboxes, registry, candidates, locks, map[])
    }

    /** `InboxLock::acquire`, without the wait. */
    method Acquire(token: nat, inbox: Project) returns (ok: bool)
      modifies this`locks
      ensures ok == (inbox !in old(locks))
      ensures locks == if ok then old(locks)[inbox := token] else old(locks)
    {
      ok := inbox !in locks;
      if ok { locks := locks[inbox := token]; }
    }

    /** Dropping an `InboxLock`: the sentinel goes only if it still carries the token. */
    method Release(token: nat, inbox: Project)
      modifies this`locks
      ensures locks == if inbox in old(locks) && old(locks)[inbox] == token then old(locks) - {inbox} else old(locks)
    {
      if inbox in locks && locks[inbox] == token { locks := locks - {inbox}; }
    }

    /** Places `expected` in the inbox of its recipient, or finds it there already. */
    method Post(token: nat, reply: MessageId, expected: Content) returns (ok: bool)
      modifies this`records, this`locks
      ensures ok == CanPost(old(View()), reply, expected)
      ensures records == if ok then Posted(old(records), (expected.to, reply), expected) else old(records)
      ensures locks == old(locks)
    {
      if expected.to !in inboxes { return false; }
      var held := Acquire(token, expected.to);
      if !held { return false; }
      ok := true;
      if (expected.to, reply) in records {
        ok := CanReuse(records[(expected.to, reply)].content, expected);
      } else {
        records := records[(expected.to, reply) := NewRecord(expected)];
      }
      Release(token, expected.to);
      assert locks == old(locks);
    }

    /** Marks the source message final and drops the candidate. */
    method Mark(token: nat, me: Project, original: MessageId, expected: Content, at: string) returns (ok: bool)
      requires (me, original) in records
      modifies this`records, this`candidates, this`locks
      ensures ok == (me !in old(locks) && CanRecord(old(records[(me, original)]), Delivering(me, original, at, expected, Replied)))
      ensures View() == if ok then Marked(old(View()), (me, original), at) else old(View())
      ensures ok ==> Finalized(old(records[(me, original)]), records[(me, original)], ReplyTo(original, me), at)
      ensures forall k | k in old(records) && k != (me, original) :: k in records && records[k] == old(records[k])
    {
      var held := Acquire(token, me);
      if !held { return false; }
      var r, reply := records[(me, original)], ReplyTo(original, me);
      if !Parses(r.content) || !Terminal(r.processing) || r.content.to != me || (reply in r.replyIds && r.replyStatus != Final) {
        Release(token, me);
        assert locks == old(locks);
        return false;
      }
      if reply !in r.replyIds {
        r := r.(replyIds := r.replyIds + multiset{reply}, remarks := r.remarks + [Sent(at, reply)]);
      }
      r := r.(replyStatus := Final, updatedAt := at);
      records := records[(me, original) := r];
      candidates := candidates - {(me, original)};
      Release(token, me);
      assert locks == old(locks);
      return true;
    }

    /** `deliver_final_reply`: reads the message, the registry and the candidate, then updates the
        two inboxes in turn. */
    method DeliverFinalReply(token: nat, me: Project, original: MessageId, at: string) returns (ok: bool)
      requires token !in locks.Values
      modifies this
      ensures (View(), ok) == Call(old(View()), token, me, original, at)
      ensures ok ==> CanCompose(old(View()), me, original) && Delivers(old(View()), View(), me, original, at)
      ensures !ok ==> View() == old(View())
                      || (CanCompose(old(View()), me, original) && DeliversOnly(old(View()), View(), me, original, at))
    {
      CallChanges(View(), token, me, original, at);
      ok := Attempt(token, me, original, at);
    }

    method Attempt(token: nat, me: Project, original: MessageId, at: string) returns (ok: bool)
      requires token !in locks.Values
      modifies this
      ensures (View(), ok) == Call(old(View()), token, me, original, at)
    {
      ghost var start := View();
      CallIsOutcome(start, token, me, original, at);
      var key := (me, original);
      if me !in registry || key !in records { return false; }
      var source := records[key];
      if !Parses(source.content) || !Terminal(source.processing) || source.replyStatus == Final { return false; }
      if source.content.to != me || source.content.from !in registry || source.content.from == me { return false; }
      if key !in candidates || Trim(candidates[key]) == "" { return false; }
      var expected := NewReply(source.content, original, me, registry[me], registry[source.content.from], candidates[key], at);
      assert CanCompose(start, me, original) && expected == Composition(start, me, original, at);
      var posted := Post(token, ReplyTo(original, me), expected);
      if !posted { return false; }
      ok := Mark(token, me, original, expected, at);
    }
  }
}
