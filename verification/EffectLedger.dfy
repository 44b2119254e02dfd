/** The ledger of effects of `engine/src/runtime.rs`: which effects it holds, under which keys, and
    which command answers which of them. */
module EffectLedger {
  import opened Text

  // ---------------------------------------------------------------------------------------
  // Effects, commands and ledger keys
  // ---------------------------------------------------------------------------------------

  type TaskId = string

  datatype Leaf = Implement | Review | Fix

  /** `Named` stands for the effects of the whole cohort that need a typed result; `Bare` for the
      ones that need none. */
  datatype Effect =
    | PersistCheckpoint
    | WaitForOperator(reason: string)
    | Reconcile(task: TaskId)
    | EnsureTaskWorkspace(task: TaskId, branch: string)
    | PrepareTaskReview(task: TaskId)
    | PrepareTaskLeaf(task: TaskId, leaf: Leaf)
    | DispatchTask(task: TaskId, leaf: Leaf)
    | CommitTask(task: TaskId)
    | Named(name: string, detail: string)
    | Bare(name: string, detail: string)

  datatype Command =
    | WorkspaceReady(task: TaskId)
    | WorkspaceFailed(task: TaskId, reason: string)
    | TaskLeafPrepared(task: TaskId, outcome: int)
    | TaskLeaf(task: TaskId, outcome: int)
    | TaskCommitted(task: TaskId, commit: string)
    | TaskReviewPrepared(task: TaskId, outcome: int)
    | TaskReview(task: TaskId, outcome: int)
    | NamedResult(name: string, outcome: int)
    | Recover(present: set<TaskId>)
    | Unkeyed(detail: string)

  datatype Key =
    | ReconcileKey(task: TaskId)
    | WorkspaceKey(task: TaskId)
    | PrepareReviewKey(task: TaskId)
    | PrepareLeafKey(task: TaskId, leaf: Leaf)
    | DispatchKey(task: TaskId, leaf: Leaf)
    | CommitKey(task: TaskId)
    | NamedKey(name: string)
    | BareKey(name: string)

  datatype TaskPhase = Implementing | Fixing | OtherPhase

  /** The part of the reducer's state that decides which obligation a command discharges, and
      everything else. */
  datatype State = State(phases: map<TaskId, TaskPhase>, rest: int)

  /** `effect_key`. */
  function EffectKey(e: Effect): Option<Key> {
    match e
    case PersistCheckpoint | WaitForOperator(_) => None
    case Reconcile(task) => Some(ReconcileKey(task))
    case EnsureTaskWorkspace(task, _) => Some(WorkspaceKey(task))
    case PrepareTaskReview(task) => Some(PrepareReviewKey(task))
    case PrepareTaskLeaf(task, leaf) => Some(PrepareLeafKey(task, leaf))
    case DispatchTask(task, leaf) => Some(DispatchKey(task, leaf))
    case CommitTask(task) => Some(CommitKey(task))
    case Named(name, _) => Some(NamedKey(name))
    case Bare(name, _) => Some(BareKey(name))
  }

  function LeafOf(phase: TaskPhase): Option<Leaf> {
    match phase case Implementing => Some(Implement) case Fixing => Some(Fix) case OtherPhase => None
  }

  datatype Ack = MissingTask | NoKey | Acks(key: Key)

  /** `acknowledgement_key`: what a command discharges in the current state. */
  function AckOf(s: State, c: Command): Ack {
    match c
    case WorkspaceReady(task) => Acks(WorkspaceKey(task))
    case WorkspaceFailed(task, _) => Acks(WorkspaceKey(task))
    case TaskLeafPrepared(task, _) =>
      if task !in s.phases then MissingTask
      else if LeafOf(s.phases[task]).None? then NoKey
      else Acks(PrepareLeafKey(task, LeafOf(s.phases[task]).value))
    case TaskLeaf(task, _) =>
      if task !in s.phases then MissingTask
      else if LeafOf(s.phases[task]).None? then NoKey
      else Acks(DispatchKey(task, LeafOf(s.phases[task]).value))
    case TaskCommitted(task, _) => Acks(CommitKey(task))
    case TaskReviewPrepared(task, _) => Acks(PrepareReviewKey(task))
    case TaskReview(task, _) => Acks(DispatchKey(task, Review))
    case NamedResult(name, _) => Acks(NamedKey(name))
    case Recover(_) | Unkeyed(_) => NoKey
  }

  /** `is_task_leaf_effect`. */
  predicate IsLeaf(e: Effect) { e.PrepareTaskLeaf? || e.PrepareTaskReview? || e.DispatchTask? }

  /** `reconciliation_matches_task`. */
  predicate SameTask(e: Effect, c: Command) {
    && e.Reconcile?
    && (c.WorkspaceReady? || c.WorkspaceFailed? || c.TaskLeafPrepared? || c.TaskLeaf? || c.TaskCommitted?
        || c.TaskReviewPrepared? || c.TaskReview?)
    && c.task == e.task
  }

  /** Adding emitted effects to the ledger; `None` when a key would stand for two effects. */
  function Insert(pending: map<Key, Effect>, emitted: seq<Effect>): Option<map<Key, Effect>>
    decreases |emitted|
  {
    if emitted == [] then Some(pending)
    else
      match EffectKey(emitted[0])
      case None => Insert(pending, emitted[1..])
      case Some(k) =>
        if k in pending && pending[k] != emitted[0] then None else Insert(pending[k := emitted[0]], emitted[1..])
  }

  lemma {:induction false} InsertKeeps(pending: map<Key, Effect>, emitted: seq<Effect>)
    requires Insert(pending, emitted).Some?
    ensures var next := Insert(pending, emitted).value;
            && (forall k | k in pending :: k in next && next[k] == pending[k])
            && next.Keys == pending.Keys + KeysOf(emitted)
    decreases |emitted|
  {
    if emitted != [] {
      match EffectKey(emitted[0])
      case None => InsertKeeps(pending, emitted[1..]);
      case Some(k) => InsertKeeps(pending[k := emitted[0]], emitted[1..]);
    }
  }

  /** The obligations a queue of effects stands for. */
  function KeysOf(effects: seq<Effect>): set<Key> {
    if effects == [] then {} else (match EffectKey(effects[0]) case Some(k) => {k} case None => {}) + KeysOf(effects[1..])
  }

  lemma {:induction false} KeysOfJoin(a: seq<Effect>, b: seq<Effect>)
    ensures KeysOf(a + b) == KeysOf(a) + KeysOf(b)
  {
    if a == [] {
      assert a + b == b;
    } else {
      assert (a + b)[1..] == a[1..] + b;
      KeysOfJoin(a[1..], b);
    }
  }

  // ---------------------------------------------------------------------------------------
  // Obligations
  // ---------------------------------------------------------------------------------------

  /** Effects with an entry in the ledger; the others only mark a place in the queue. */
  predicate IsObligation(e: Effect) { !e.PersistCheckpoint? && !e.WaitForOperator? }

  /** Two effects stand for one obligation: to make one task's workspace on whatever branch, to get
      one named result, or else the same thing. */
  predicate SameObligation(e: Effect, f: Effect) {
    && IsObligation(e)
    && match e
       case EnsureTaskWorkspace(task, _) => f.EnsureTaskWorkspace? && f.task == task
       case Named(name, _) => f.Named? && f.name == name
       case Bare(name, _) => f.Bare? && f.name == name
       case _ => f == e
  }

  /** The key of an effect is the key of its obligation and of no other. */
  lemma KeysTellApart(e: Effect, f: Effect)
    ensures EffectKey(e).Some? <==> IsObligation(e)
    ensures SameObligation(e, f) <==> EffectKey(e).Some? && EffectKey(e) == EffectKey(f)
  {}

  predicate InPhase(s: State, task: TaskId, phase: TaskPhase) { task in s.phases && s.phases[task] == phase }

  /** The command is the answer to the effect: the result of an implementation while its task is being
      implemented, of a fix while it is being fixed, of a review whatever the task is at, and so on. */
  predicate Answers(s: State, e: Effect, c: Command) {
    match e
    case EnsureTaskWorkspace(task, _) => (c.WorkspaceReady? || c.WorkspaceFailed?) && c.task == task
    case PrepareTaskLeaf(task, Implement) => c.TaskLeafPrepared? && c.task == task && InPhase(s, task, Implementing)
    case PrepareTaskLeaf(task, Fix) => c.TaskLeafPrepared? && c.task == task && InPhase(s, task, Fixing)
    case DispatchTask(task, Implement) => c.TaskLeaf? && c.task == task && InPhase(s, task, Implementing)
    case DispatchTask(task, Fix) => c.TaskLeaf? && c.task == task && InPhase(s, task, Fixing)
    case DispatchTask(task, Review) => c.TaskReview? && c.task == task
    case PrepareTaskReview(task) => c.TaskReviewPrepared? && c.task == task
    case CommitTask(task) => c.TaskCommitted? && c.task == task
    case Named(name, _) => c.NamedResult? && c.name == name
    case _ => false
  }

  /** The key a command acknowledges is that of the effects it answers. */
  lemma AckIs(s: State, e: Effect, c: Command)
    ensures Answers(s, e, c) <==> EffectKey(e).Some? && AckOf(s, c) == Acks(EffectKey(e).value)
  {}

  /** An effect with that key. */
  function EffectOf(k: Key): (e: Effect)
    ensures EffectKey(e) == Some(k)
  {
    match k
    case ReconcileKey(t) => Reconcile(t)
    case WorkspaceKey(t) => EnsureTaskWorkspace(t, "")
    case PrepareReviewKey(t) => PrepareTaskReview(t)
    case PrepareLeafKey(t, leaf) => PrepareTaskLeaf(t, leaf)
    case DispatchKey(t, leaf) => DispatchTask(t, leaf)
    case CommitKey(t) => CommitTask(t)
    case NamedKey(name) => Named(name, "")
    case BareKey(name) => Bare(name, "")
  }

  /** A command that answers no effect is one of the operator's or of the recovery, or the result of
      a leaf for a task that runs none; and it is an error only for a task there is not. */
  lemma AnswersNothing(s: State, c: Command)
    ensures (forall e :: !Answers(s, e, c)) <==>
              || c.Recover? || c.Unkeyed?
              || ((c.TaskLeafPrepared? || c.TaskLeaf?) && !InPhase(s, c.task, Implementing) && !InPhase(s, c.task, Fixing))
    ensures AckOf(s, c).MissingTask? <==> (c.TaskLeafPrepared? || c.TaskLeaf?) && c.task !in s.phases
  {
    var ack := AckOf(s, c);
    if ack.Acks? {
      AckIs(s, EffectOf(ack.key), c);
    } else {
      forall e ensures !Answers(s, e, c) { AckIs(s, e, c); }
    }
  }

  /** The effect belongs to the task, and a command may answer it. */
  predicate OfTask(e: Effect, task: TaskId) {
    && (e.EnsureTaskWorkspace? || e.PrepareTaskLeaf? || e.DispatchTask? || e.PrepareTaskReview? || e.CommitTask?)
    && e.task == task
  }

  /** The commands an inspection of a task may bring are the answers to its own effects. */
  lemma SameTaskIs(s: State, e: Effect, x: Effect, c: Command)
    requires Answers(s, x, c)
    ensures SameTask(e, c) <==> e.Reconcile? && OfTask(x, e.task)
  {}

  // ---------------------------------------------------------------------------------------
  // The ledger as a set of effects
  // ---------------------------------------------------------------------------------------

  /** Every entry is under its effect's own key, as a resumed ledger is checked to be. */
  predicate Keyed(pending: map<Key, Effect>) { forall k | k in pending :: EffectKey(pending[k]) == Some(k) }

  predicate Owes(pending: map<Key, Effect>, e: Effect) { exists k | k in pending :: SameObligation(pending[k], e) }

  /** No obligation stands for two different effects. */
  ghost predicate Compatible(effects: iset<Effect>) {
    forall x, y | x in effects && y in effects && SameObligation(x, y) :: x == y
  }

  ghost function EffectsIn(pending: map<Key, Effect>): iset<Effect> { iset k | k in pending :: pending[k] }

  ghost function Emitted(emitted: seq<Effect>): iset<Effect> { iset e | e in emitted && IsObligation(e) }

  /** What is left without the obligation of `e`. */
  ghost function Without(effects: iset<Effect>, e: Effect): iset<Effect> { iset x | x in effects && !SameObligation(x, e) }

  lemma OwesAt(pending: map<Key, Effect>, e: Effect)
    requires Keyed(pending)
    ensures Owes(pending, e) <==> EffectKey(e).Some? && EffectKey(e).value in pending
  {
    forall k | k in pending ensures SameObligation(pending[k], e) <==> EffectKey(e) == Some(k) { KeysTellApart(pending[k], e); }
  }

  lemma WithoutAt(pending: map<Key, Effect>, e: Effect)
    requires Keyed(pending) && EffectKey(e).Some?
    ensures Keyed(pending - {EffectKey(e).value})
    ensures EffectsIn(pending - {EffectKey(e).value}) == Without(EffectsIn(pending), e)
  {
    var k := EffectKey(e).value;
    var less := pending - {k};
    forall x ensures x in EffectsIn(less) <==> x in Without(EffectsIn(pending), e) {
      if x in EffectsIn(less) {
        var j :| j in less && less[j] == x;
        assert j in pending && pending[j] == x;
        KeysTellApart(x, e);
      }
      if x in Without(EffectsIn(pending), e) {
        var j :| j in pending && pending[j] == x;
        KeysTellApart(x, e);
        assert j in less && less[j] == x;
      }
    }
  }

  /** Emitted effects come into the ledger exactly when no obligation would stand for two effects,
      and then the ledger holds what it held and these. */
  lemma {:induction false} InsertExactly(pending: map<Key, Effect>, emitted: seq<Effect>)
    requires Keyed(pending)
    ensures Insert(pending, emitted).Some? <==> Compatible(EffectsIn(pending) + Emitted(emitted))
    ensures Insert(pending, emitted).Some? ==>
              && Keyed(Insert(pending, emitted).value)
              && EffectsIn(Insert(pending, emitted).value) == EffectsIn(pending) + Emitted(emitted)
    decreases |emitted|
  {
    if emitted == [] {
      KeyedIsCompatible(pending);
      assert EffectsIn(pending) + Emitted(emitted) == EffectsIn(pending);
    } else {
      var e, rest := emitted[0], emitted[1..];
      assert emitted == [e] + rest;
      KeysTellApart(e, e);
      match EffectKey(e)
      case None =>
        InsertExactly(pending, rest);
        assert Emitted(emitted) == Emitted(rest);
      case Some(k) =>
        assert Emitted(emitted) == iset{e} + Emitted(rest);
        if k in pending && pending[k] != e {
          KeysTellApart(pending[k], e);
          assert pending[k] in EffectsIn(pending) && e in Emitted(emitted);
        } else {
          InsertExactly(pending[k := e], rest);
          OneMore(pending, k, e);
          assert EffectsIn(pending) + Emitted(emitted) == EffectsIn(pending[k := e]) + Emitted(rest);
        }
    }
  }

  lemma OneMore(pending: map<Key, Effect>, k: Key, e: Effect)
    requires k in pending ==> pending[k] == e
    ensures EffectsIn(pending[k := e]) == EffectsIn(pending) + iset{e}
  {
    var more := pending[k := e];
    forall x ensures x in EffectsIn(more) <==> x in EffectsIn(pending) + iset{e} {
      if x in EffectsIn(pending) {
        var j :| j in pending && pending[j] == x;
        assert j in more && more[j] == x;
      }
      if x == e { assert k in more && more[k] == x; }
    }
  }

  lemma KeyedIsCompatible(pending: map<Key, Effect>)
    requires Keyed(pending)
    ensures Compatible(EffectsIn(pending))
  {
    forall x, y | x in EffectsIn(pending) && y in EffectsIn(pending) && SameObligation(x, y) ensures x == y {
      var i :| i in pending && pending[i] == x;
      var j :| j in pending && pending[j] == y;
      KeysTellApart(x, y);
    }
  }
}
