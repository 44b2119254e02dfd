/** The effect driver of `engine/src/execution.rs` over the durable ledger of
    `engine/src/runtime.rs`: a queue of effects is handed to an executor, and each answer is
    turned into the removal of exactly one obligation from the ledger, or into a stop.

    The executor and the reducer are arbitrary functions (`World`); the executor also sees the
    number of calls made so far, so that it may answer differently each time. */
module Execution {
  import opened Text
  import opened EffectLedger
  import opened Sorting

  // ---------------------------------------------------------------------------------------
  // The runtime
  // ---------------------------------------------------------------------------------------

  datatype Resolution =
    | Submit(command: Command)
    | Reconciled(command: Command)
    | Acknowledge
    | Hold(reason: string)

  datatype Error = RuntimeError | ExecutorError | WrongAcknowledgement | InvalidResolution | BatchCount | StepLimit

  datatype World = World(
    execute: (nat, Effect, State) -> Option<Resolution>,
    executeBatch: (nat, seq<Effect>, State) -> Option<seq<Resolution>>,
    session: (nat, Effect, State) -> Option<State>,  // the leaf's conversation coordinate, recorded
    forget: (seq<Effect>, State) -> State,           // coordinates dropped after a failed turn
    reduce: (State, Command) -> Option<(State, seq<Effect>)>,
    retire: (State, Effect) -> Option<State>)

  /** Why an entry left the ledger. */
  datatype Removal =
    | ByOwnCommand(key: Key, effect: Effect, command: Command, state: State)
    | ByAcknowledgement(key: Key, effect: Effect)
    | ByReconciliation(key: Key, effect: Effect, command: Command, state: State)
    | ByInspection(key: Key, effect: Effect)

  /** The runtime, and the removals made so far. */
  datatype Runtime = Runtime(state: State, pending: map<Key, Effect>, log: seq<Removal>)

  /** `apply_internal`: the command's own entry goes, the emitted effects come. */
  function ApplyCommand(w: World, r: Runtime, c: Command): Option<(Runtime, seq<Effect>)> {
    var ack := AckOf(r.state, c);
    if ack.MissingTask? || (ack.Acks? && ack.key !in r.pending) || (ack.NoKey? && r.pending != map[] && !c.Recover?) then None
    else
      match w.reduce(r.state, c)
      case None => None
      case Some((state, emitted)) =>
        match Insert(if ack.Acks? then r.pending - {ack.key} else r.pending, emitted)
        case None => None
        case Some(pending) => Some((Runtime(state, pending, r.log), emitted))
  }

  /** `acknowledge_effect`. */
  function AcknowledgeEffect(w: World, r: Runtime, e: Effect): Option<Runtime> {
    match EffectKey(e)
    case None => None
    case Some(k) =>
      if k !in r.pending then None
      else match w.retire(r.state, r.pending[k]) case None => None case Some(state) => Some(Runtime(state, r.pending - {k}, r.log))
  }

  function WithState(r: Runtime, state: State): Runtime { Runtime(state, r.pending, r.log) }

  function Logged(r: Runtime, why: Removal): Runtime { Runtime(r.state, r.pending, r.log + [why]) }

  datatype Applied = Done(runtime: Runtime, emitted: seq<Effect>) | Held(runtime: Runtime, reason: string) | Failed(runtime: Runtime, emitted: seq<Effect>, error: Error)

  /** `apply_resolution`. */
  function ApplyResolution(w: World, r: Runtime, e: Effect, resolution: Resolution): Applied {
    match resolution
    case Submit(c) => ApplySubmit(w, r, e, c)
    case Reconciled(c) => ApplyReconciled(w, r, e, c)
    case Acknowledge => ApplyAcknowledge(w, r, e)
    case Hold(reason) => Held(r, reason)
  }

  /** `ensure_matching_command`, then the command. */
  function ApplySubmit(w: World, r: Runtime, e: Effect, c: Command): Applied {
    var ack := AckOf(r.state, c);
    if ack.MissingTask? then Failed(r, [], RuntimeError)
    else if EffectKey(e) != (if ack.Acks? then Some(ack.key) else None) then Failed(r, [], WrongAcknowledgement)
    else
      match ApplyCommand(w, r, c)
      case None => Failed(r, [], RuntimeError)
      case Some((next, emitted)) =>
        Done(if ack.Acks? then Logged(next, ByOwnCommand(ack.key, e, c, r.state)) else next, emitted)
  }

  function ApplyReconciled(w: World, r: Runtime, e: Effect, c: Command): Applied {
    var ack := AckOf(r.state, c);
    if !e.Reconcile? then Failed(r, [], InvalidResolution)
    else if ack.MissingTask? then Failed(r, [], RuntimeError)
    else if ack.NoKey? || !SameTask(e, c) then Failed(r, [], InvalidResolution)
    else
      match ApplyCommand(w, r, c)
      case None => Failed(r, [], RuntimeError)
      case Some((next, emitted)) =>
        var applied := Logged(next, ByReconciliation(ack.key, e, c, r.state));
        match AcknowledgeEffect(w, applied, e)
        case None => Failed(applied, emitted, RuntimeError)
        case Some(last) => Done(Logged(last, ByInspection(ReconcileKey(e.task), e)), emitted)
  }

  function ApplyAcknowledge(w: World, r: Runtime, e: Effect): Applied {
    if EffectKey(e).None? || !e.Bare? then Failed(r, [], InvalidResolution)
    else
      match AcknowledgeEffect(w, r, e)
      case None => Failed(r, [], RuntimeError)
      case Some(next) => Done(Logged(next, ByAcknowledgement(BareKey(e.name), e)), [])
  }

  // ---------------------------------------------------------------------------------------
  // Why ledger entries leave
  // ---------------------------------------------------------------------------------------

  /** An entry may leave by the command that answers its own effect, by the bare acknowledgement
      of an effect that needs no result, or by an inspection of the task it belongs to. */
  ghost predicate Justified(why: Removal) {
    match why
    case ByOwnCommand(k, e, c, s) => EffectKey(e) == Some(k) && Answers(s, e, c)
    case ByAcknowledgement(k, e) => EffectKey(e) == Some(k) && e.Bare?
    case ByReconciliation(k, e, c, s) => e.Reconcile? && exists x :: EffectKey(x) == Some(k) && Answers(s, x, c) && OfTask(x, e.task)
    case ByInspection(k, e) => EffectKey(e) == Some(k) && e.Reconcile?
  }

  function LoggedKeys(log: seq<Removal>): set<Key> { set why | why in log :: why.key }

  /** Between ledgers `p` and `q`: every removal is justified, and entries that were not removed
      are what they were. */
  ghost predicate Explains(p: map<Key, Effect>, q: map<Key, Effect>, removals: seq<Removal>) {
    && (forall why | why in removals :: Justified(why))
    && (forall k | k in p && k !in LoggedKeys(removals) :: k in q && q[k] == p[k])
  }

  /** From `r` to `t`, the removals logged explain how the ledger changed. */
  ghost predicate Accounts(r: Runtime, t: Runtime) {
    && |r.log| <= |t.log| && t.log[..|r.log|] == r.log
    && Explains(r.pending, t.pending, t.log[|r.log|..])
  }

  lemma ExplainsTransitive(p: map<Key, Effect>, q: map<Key, Effect>, s: map<Key, Effect>, a: seq<Removal>, b: seq<Removal>)
    requires Explains(p, q, a) && Explains(q, s, b)
    ensures Explains(p, s, a + b)
  {
    assert LoggedKeys(a + b) == LoggedKeys(a) + LoggedKeys(b);
  }

  lemma AccountsTransitive(r: Runtime, t: Runtime, u: Runtime)
    requires Accounts(r, t) && Accounts(t, u)
    ensures Accounts(r, u)
  {
    var a, b := t.log[|r.log|..], u.log[|t.log|..];
    assert u.log == r.log + (a + b);
    assert u.log[|r.log|..] == a + b;
    ExplainsTransitive(r.pending, t.pending, u.pending, a, b);
  }

  /** Taking one entry out, for a logged and justified reason, and adding new ones. */
  lemma OneRemoval(r: Runtime, t: Runtime, why: Removal)
    requires t.log == r.log + [why] && Justified(why)
    requires forall k | k in r.pending && k != why.key :: k in t.pending && t.pending[k] == r.pending[k]
    ensures Accounts(r, t)
  {
    assert t.log[|r.log|..] == [why];
    assert why.key in LoggedKeys([why]);
  }

  /** An acknowledged command takes its own entry out of the ledger and nothing else; what it
      emits comes in. */
  lemma CommandKeys(w: World, r: Runtime, c: Command)
    requires ApplyCommand(w, r, c).Some?
    ensures var (next, emitted) := ApplyCommand(w, r, c).value;
            var gone := if AckOf(r.state, c).Acks? then {AckOf(r.state, c).key} else {};
            && next.log == r.log && gone <= r.pending.Keys
            && next.pending.Keys == (r.pending.Keys - gone) + KeysOf(emitted)
            && forall k | k in r.pending && k !in gone :: k in next.pending && next.pending[k] == r.pending[k]
  {
    var ack := AckOf(r.state, c);
    InsertKeeps(if ack.Acks? then r.pending - {ack.key} else r.pending, w.reduce(r.state, c).value.1);
  }

  /** One obligation is traded for the ones emitted: the ledger holds the effects it held, but for
      those of the obligation of `e`, and the emitted ones. */
  ghost predicate Trades(r: Runtime, e: Effect, next: Runtime, emitted: seq<Effect>) {
    && Keyed(next.pending)
    && EffectsIn(next.pending) == Without(EffectsIn(r.pending), e) + Emitted(emitted)
  }

  /** The answer to an effect is accepted exactly when that is owed, the reducer takes the command,
      and what it emits is compatible with the rest; and then one is traded for the other. */
  lemma CommandServes(w: World, r: Runtime, e: Effect, c: Command)
    requires Keyed(r.pending) && Answers(r.state, e, c)
    ensures ApplyCommand(w, r, c).Some? <==>
              && Owes(r.pending, e) && w.reduce(r.state, c).Some?
              && Compatible(Without(EffectsIn(r.pending), e) + Emitted(w.reduce(r.state, c).value.1))
    ensures ApplyCommand(w, r, c).Some? ==>
              var (next, emitted) := ApplyCommand(w, r, c).value;
              w.reduce(r.state, c) == Some((next.state, emitted)) && next.log == r.log && Trades(r, e, next, emitted)
  {
    AckIs(r.state, e, c);
    OwesAt(r.pending, e);
    WithoutAt(r.pending, e);
    if w.reduce(r.state, c).Some? { InsertExactly(r.pending - {EffectKey(e).value}, w.reduce(r.state, c).value.1); }
  }

  ghost predicate AppliesFor(w: World, r: Runtime, e: Effect, c: Command) {
    match ApplyCommand(w, r, c) case None => true case Some((next, emitted)) => Trades(r, e, next, emitted)
  }

  /** A submitted result is accepted exactly when it answers the effect it was submitted for and the
      runtime accepts it, and then it discharges that effect; any other leaves the runtime as it is. */
  lemma SubmitServes(w: World, r: Runtime, e: Effect, c: Command)
    requires Keyed(r.pending) && IsObligation(e)
    ensures ApplySubmit(w, r, e, c).Done? <==>
              && Answers(r.state, e, c) && Owes(r.pending, e) && w.reduce(r.state, c).Some?
              && Compatible(Without(EffectsIn(r.pending), e) + Emitted(w.reduce(r.state, c).value.1))
    ensures match ApplySubmit(w, r, e, c)
            case Done(next, emitted) => w.reduce(r.state, c) == Some((next.state, emitted)) && Trades(r, e, next, emitted)
            case Held(_, _) => false
            case Failed(next, emitted, _) => next == r && emitted == []
  {
    AckIs(r.state, e, c);
    KeysTellApart(e, e);
    if Answers(r.state, e, c) { CommandServes(w, r, e, c); }
  }

  ghost predicate SubmitDone(r: Runtime, e: Effect, c: Command, next: Runtime, emitted: seq<Effect>) {
    Answers(r.state, e, c) && Owes(r.pending, e) && Trades(r, e, next, emitted)
  }

  lemma SubmitTrades(w: World, r: Runtime, e: Effect, c: Command)
    requires Keyed(r.pending) && IsObligation(e)
    ensures match ApplySubmit(w, r, e, c)
            case Done(next, emitted) => SubmitDone(r, e, c, next, emitted)
            case Held(_, _) => false
            case Failed(next, emitted, _) => next == r && emitted == []
  {
    SubmitServes(w, r, e, c);
  }

  /** An inspection of a task is done exactly when what it brings answers an owed effect `x` of that
      task, the runtime accepts that, and the inspection is owed as well; and then both are gone. */
  lemma ReconciledServes(w: World, r: Runtime, e: Effect, c: Command, x: Effect)
    requires Keyed(r.pending) && Answers(r.state, x, c)
    ensures match ApplyReconciled(w, r, e, c)
            case Done(last, emitted) =>
              && e.Reconcile? && OfTask(x, e.task) && ApplyCommand(w, r, c).Some? && ApplyCommand(w, r, c).value.1 == emitted
              && Owes(ApplyCommand(w, r, c).value.0.pending, e)
              && Trades(ApplyCommand(w, r, c).value.0, e, last, [])
            case Held(_, _) => false
            case Failed(next, emitted, error) =>
              || (next == r && emitted == [] && (error == InvalidResolution <==> !e.Reconcile? || !OfTask(x, e.task)))
              || (error == RuntimeError && ApplyCommand(w, r, c).Some? && next.pending == ApplyCommand(w, r, c).value.0.pending)
  {
    AckIs(r.state, x, c);
    SameTaskIs(r.state, e, x, c);
    if ApplyCommand(w, r, c).Some? {
      CommandServes(w, r, x, c);
      if e.Reconcile? {
        var next := ApplyCommand(w, r, c).value.0;
        OwesAt(next.pending, e);
        WithoutAt(next.pending, e);
        assert Emitted([]) == iset{};
      }
    }
  }

  /** A command that answers nothing is no answer from an inspection either. */
  lemma ReconciledNothing(w: World, r: Runtime, e: Effect, c: Command)
    requires forall x :: !Answers(r.state, x, c)
    ensures var a := ApplyReconciled(w, r, e, c); a.Failed? && a.runtime == r && a.emitted == []
  {
    if AckOf(r.state, c).Acks? { AckIs(r.state, EffectOf(AckOf(r.state, c).key), c); }
  }

  /** A bare acknowledgement is accepted exactly for an owed effect that needs no result, once the
      state has let it go; and then that one effect is gone. */
  lemma AcknowledgeServes(w: World, r: Runtime, e: Effect, x: Effect)
    requires Keyed(r.pending) && x in EffectsIn(r.pending) && SameObligation(x, e)
    ensures match ApplyAcknowledge(w, r, e)
            case Done(next, emitted) => e.Bare? && w.retire(r.state, x) == Some(next.state) && emitted == [] && Trades(r, e, next, [])
            case Held(_, _) => false
            case Failed(next, emitted, error) =>
              && next == r && emitted == [] && (error == InvalidResolution <==> !e.Bare?)
              && (e.Bare? ==> w.retire(r.state, x).None?)
  {
    KeysTellApart(x, e);
    OwesAt(r.pending, e);
    WithoutAt(r.pending, e);
    var k :| k in r.pending && r.pending[k] == x;
    assert Emitted([]) == iset{};
  }

  lemma AcknowledgeUnowed(w: World, r: Runtime, e: Effect)
    requires Keyed(r.pending) && !Owes(r.pending, e)
    ensures var a := ApplyAcknowledge(w, r, e); a.Failed? && a.runtime == r && a.emitted == []
  {
    OwesAt(r.pending, e);
  }

  function RuntimeOf(a: Applied): Runtime {
    match a case Done(r, _) => r case Held(r, _) => r case Failed(r, _, _) => r
  }

  lemma SubmitAccounts(w: World, r: Runtime, e: Effect, c: Command)
    ensures Accounts(r, RuntimeOf(ApplySubmit(w, r, e, c)))
  {
    if ApplySubmit(w, r, e, c).Done? && AckOf(r.state, c).Acks? {
      CommandKeys(w, r, c);
      AckIs(r.state, e, c);
      OneRemoval(r, RuntimeOf(ApplySubmit(w, r, e, c)), ByOwnCommand(AckOf(r.state, c).key, e, c, r.state));
    } else if ApplySubmit(w, r, e, c).Done? {
      CommandKeys(w, r, c);
    }
  }

  lemma ReconciledAccounts(w: World, r: Runtime, e: Effect, c: Command)
    ensures Accounts(r, RuntimeOf(ApplyReconciled(w, r, e, c)))
  {
    var ack := AckOf(r.state, c);
    if e.Reconcile? && ack.Acks? && SameTask(e, c) && ApplyCommand(w, r, c).Some? {
      CommandKeys(w, r, c);
      var why := ByReconciliation(ack.key, e, c, r.state);
      var applied := Logged(ApplyCommand(w, r, c).value.0, why);
      AckIs(r.state, EffectOf(ack.key), c);
      SameTaskIs(r.state, e, EffectOf(ack.key), c);
      OneRemoval(r, applied, why);
      if AcknowledgeEffect(w, applied, e).Some? {
        var last := Logged(AcknowledgeEffect(w, applied, e).value, ByInspection(ReconcileKey(e.task), e));
        OneRemoval(applied, last, ByInspection(ReconcileKey(e.task), e));
        AccountsTransitive(r, applied, last);
      }
    }
  }

  lemma ResolutionAccounts(w: World, r: Runtime, e: Effect, resolution: Resolution)
    ensures Accounts(r, RuntimeOf(ApplyResolution(w, r, e, resolution)))
  {
    match resolution
    case Submit(c) => SubmitAccounts(w, r, e, c);
    case Reconciled(c) => ReconciledAccounts(w, r, e, c);
    case Acknowledge =>
      if ApplyAcknowledge(w, r, e).Done? {
        OneRemoval(r, RuntimeOf(ApplyAcknowledge(w, r, e)), ByAcknowledgement(BareKey(e.name), e));
      }
    case Hold(_) =>
  }

  /** An effect that is done is discharged: its entry is gone, unless what it emitted put one
      there again. */
  lemma DoneDischarges(w: World, r: Runtime, e: Effect, resolution: Resolution)
    requires ApplyResolution(w, r, e, resolution).Done? && EffectKey(e).Some?
    ensures var a := ApplyResolution(w, r, e, resolution);
            a.runtime.pending.Keys <= (r.pending.Keys - {EffectKey(e).value}) + KeysOf(a.emitted)
  {
    match resolution
    case Submit(c) => CommandKeys(w, r, c);
    case Reconciled(c) => CommandKeys(w, r, c);
    case Acknowledge =>
  }

  // ---------------------------------------------------------------------------------------
  // The batch at the front of the queue
  // ---------------------------------------------------------------------------------------

  /** How many effects the batch takes: markers and leaves of tasks not seen so far. */
  function Front(queue: seq<Effect>, seen: set<TaskId>): (n: nat)
    ensures n <= |queue|
  {
    if queue == [] then 0
    else if queue[0].PersistCheckpoint? then 1 + Front(queue[1..], seen)
    else if IsLeaf(queue[0]) && queue[0].task !in seen then 1 + Front(queue[1..], seen + {queue[0].task})
    else 0
  }

  type LeafEffect = e: Effect | IsLeaf(e) witness PrepareTaskReview("")

  function Leaves(queue: seq<Effect>): (r: seq<LeafEffect>)
    ensures |r| <= |queue|
  {
    if queue == [] then [] else if IsLeaf(queue[0]) then [queue[0]] + Leaves(queue[1..]) else Leaves(queue[1..])
  }

  /** Stable insertion by task id. */
  function InsertByTask(e: LeafEffect, sorted: seq<LeafEffect>): (r: seq<LeafEffect>)
    ensures |r| == |sorted| + 1
  {
    if sorted == [] || StringLe(e.task, sorted[0].task) then [e] + sorted else [sorted[0]] + InsertByTask(e, sorted[1..])
  }

  function SortByTask(effects: seq<LeafEffect>): (r: seq<LeafEffect>)
    ensures |r| == |effects|
  {
    if effects == [] then [] else InsertByTask(effects[0], SortByTask(effects[1..]))
  }

  datatype Batch = Batch(effects: seq<LeafEffect>, consumed: nat, markers: nat)

  /** `task_batch_at_front`. */
  function BatchAtFront(queue: seq<Effect>): (b: Option<Batch>)
    ensures b.Some? ==> b.value.consumed == b.value.markers + |b.value.effects| <= |queue| && |b.value.effects| >= 2
  {
    var n := Front(queue, {});
    var effects := Leaves(queue[..n]);
    if |effects| >= 2 then Some(Batch(SortByTask(effects), n, n - |effects|)) else None
  }

  ghost predicate Distinct(effects: seq<LeafEffect>) {
    forall i, j | 0 <= i < j < |effects| :: effects[i].task != effects[j].task
  }

  ghost predicate ByTask(effects: seq<LeafEffect>) {
    forall i, j | 0 <= i < j < |effects| :: StringLe(effects[i].task, effects[j].task)
  }

  lemma {:induction false} InsertSorted(e: LeafEffect, sorted: seq<LeafEffect>)
    requires ByTask(sorted)
    ensures ByTask(InsertByTask(e, sorted)) && multiset(InsertByTask(e, sorted)) == multiset{e} + multiset(sorted)
  {
    if sorted == [] {
    } else if StringLe(e.task, sorted[0].task) {
      forall j | 0 <= j < |sorted| ensures StringLe(e.task, sorted[j].task) {
        if j > 0 { StringLeTransitive(e.task, sorted[0].task, sorted[j].task); }
      }
    } else {
      var rest := InsertByTask(e, sorted[1..]);
      InsertSorted(e, sorted[1..]);
      assert sorted == [sorted[0]] + sorted[1..];
      StringLeTotal(e.task, sorted[0].task);
      forall j | 0 <= j < |rest| ensures StringLe(sorted[0].task, rest[j].task) {
        assert rest[j] in multiset(rest);
        if rest[j] != e {
          assert rest[j] in sorted[1..];
        }
      }
    }
  }

  lemma {:induction false} SortSorts(effects: seq<LeafEffect>)
    ensures ByTask(SortByTask(effects)) && multiset(SortByTask(effects)) == multiset(effects)
  {
    if effects != [] {
      SortSorts(effects[1..]);
      InsertSorted(effects[0], SortByTask(effects[1..]));
      assert effects == [effects[0]] + effects[1..];
    }
  }

  /** The prefix `Front` measures: markers and leaves of pairwise different tasks, ending where the
      next effect is another kind of effect or repeats a task. */
  lemma {:induction false} FrontMaximal(queue: seq<Effect>, seen: set<TaskId>)
    ensures var n := Front(queue, seen);
            && (forall i | 0 <= i < n :: queue[i].PersistCheckpoint? || IsLeaf(queue[i]))
            && Distinct(Leaves(queue[..n])) && (forall e | e in Leaves(queue[..n]) :: e.task !in seen)
            && (n < |queue| ==>
                  !queue[n].PersistCheckpoint? &&
                  (IsLeaf(queue[n]) ==> queue[n].task in seen || exists e :: e in Leaves(queue[..n]) && e.task == queue[n].task))
  {
    var n := Front(queue, seen);
    if queue != [] && n > 0 {
      var first, rest := queue[0], queue[1..];
      assert queue[..n][1..] == rest[..n - 1] && queue[..n][0] == first;
      if first.PersistCheckpoint? {
        FrontMaximal(rest, seen);
      } else {
        FrontMaximal(rest, seen + {first.task});
        assert Leaves(queue[..n]) == [first] + Leaves(rest[..n - 1]);
        if n < |queue| && IsLeaf(queue[n]) && queue[n].task == first.task { assert first in Leaves(queue[..n]); }
      }
    }
  }

  /** A batch is the longest front run of markers and leaves of different tasks; its effects are
      exactly the leaves of that run, in rising order of task id. */
  lemma BatchIsSortedFront(queue: seq<Effect>)
    ensures var n := Front(queue, {});
            && (BatchAtFront(queue).Some? <==> |Leaves(queue[..n])| >= 2)
            && (BatchAtFront(queue).Some? ==>
                  var b := BatchAtFront(queue).value;
                  && b.consumed == n && multiset(b.effects) == multiset(Leaves(queue[..n]))
                  && ByTask(b.effects) && Distinct(b.effects))
  {
    var effects := Leaves(queue[..Front(queue, {})]);
    FrontMaximal(queue, {});
    SortSorts(effects);
    SortDistinct(effects);
  }

  lemma {:induction false} InsertDistinct(e: LeafEffect, sorted: seq<LeafEffect>)
    requires Distinct(sorted) && forall x | x in sorted :: x.task != e.task
    ensures Distinct(InsertByTask(e, sorted)) && forall x | x in InsertByTask(e, sorted) :: x == e || x in sorted
  {
    if sorted != [] && !StringLe(e.task, sorted[0].task) {
      InsertDistinct(e, sorted[1..]);
      forall x | x in sorted[1..] ensures x.task != sorted[0].task {
        var i :| 0 <= i < |sorted[1..]| && sorted[1..][i] == x;
        assert sorted[i + 1] == x;
      }
    }
  }

  lemma {:induction false} SortDistinct(effects: seq<LeafEffect>)
    requires Distinct(effects)
    ensures Distinct(SortByTask(effects)) && forall x | x in SortByTask(effects) :: x in effects
  {
    if effects != [] {
      SortDistinct(effects[1..]);
      forall x | x in SortByTask(effects[1..]) ensures x.task != effects[0].task {
        var i :| 0 <= i < |effects[1..]| && effects[1..][i] == x;
        assert effects[i + 1] == x;
      }
      InsertDistinct(effects[0], SortByTask(effects[1..]));
    }
  }

  // ---------------------------------------------------------------------------------------
  // Driving the queue
  // ---------------------------------------------------------------------------------------

  datatype Machine = Machine(runtime: Runtime, queue: seq<Effect>, completed: nat, calls: nat)

  /** More to do (or, with an empty queue, quiescent), a deliberate stop, or an error. */
  datatype Turn = More(m: Machine) | Stopped(m: Machine, reason: string) | Broken(m: Machine, error: Error)

  /** `record_leaf_session`. */
  function RecordSession(w: World, m: Machine, e: Effect): Option<Machine> {
    if !IsLeaf(e) then Some(m)
    else
      match w.session(m.calls, e, m.runtime.state)
      case None => None
      case Some(state) => Some(Machine(WithState(m.runtime, state), m.queue, m.completed, m.calls))
  }

  /** One result, after its session coordinate. */
  function ApplyOne(w: World, m: Machine, e: Effect, resolution: Resolution): Turn {
    match RecordSession(w, m, e)
    case None => Broken(m, RuntimeError)
    case Some(recorded) =>
      Landed(recorded, ApplyResolution(w, recorded.runtime, e, resolution))
  }

  /** The conversation coordinate of a leaf is recorded before its result is looked at, and stays when
      the result holds; other effects have none. */
  lemma SessionFirst(w: World, m: Machine, e: Effect, reason: string)
    ensures var t := ApplyOne(w, m, e, Hold(reason));
            && t.m.runtime.pending == m.runtime.pending && t.m.queue == m.queue && t.m.completed == m.completed && t.m.calls == m.calls
            && (IsLeaf(e) ==>
                  match w.session(m.calls, e, m.runtime.state)
                  case None => t.Broken? && t.m.runtime == m.runtime
                  case Some(state) => t.Stopped? && t.reason == reason && t.m.runtime.state == state)
            && (!IsLeaf(e) ==> t.Stopped? && t.reason == reason && t.m.runtime.state == m.runtime.state)
  {}

  function Landed(m: Machine, a: Applied): Turn {
    match a
    case Done(r, emitted) => More(Machine(r, m.queue + emitted, m.completed, m.calls))
    case Held(r, reason) => Stopped(Machine(r, m.queue, m.completed, m.calls), reason)
    case Failed(r, emitted, error) => Broken(Machine(r, m.queue + emitted, m.completed, m.calls), error)
  }

  function Counted(m: Machine): Machine { Machine(m.runtime, m.queue, m.completed + 1, m.calls) }

  /** The results of a batch, in its order. */
  function ApplyBatch(w: World, m: Machine, effects: seq<LeafEffect>, resolutions: seq<Resolution>): Turn
    requires |effects| == |resolutions|
    decreases |effects|
  {
    if effects == [] then More(m)
    else
      match ApplyOne(w, m, effects[0], resolutions[0])
      case More(next) => ApplyBatch(w, Counted(next), effects[1..], resolutions[1..])
      case Stopped(next, reason) => Stopped(Counted(next), reason)
      case Broken(next, error) => Broken(next, error)
  }

  function RunBatch(w: World, m: Machine, b: Batch, max: nat): Turn
    requires b.consumed <= |m.queue|
  {
    if m.completed + b.consumed > max then Broken(m, StepLimit) else
    var called := Machine(m.runtime, m.queue[b.consumed..], m.completed, m.calls + 1);
    match w.executeBatch(m.calls, b.effects, m.runtime.state)
    case None => Broken(Machine(WithState(m.runtime, w.forget(b.effects, m.runtime.state)), called.queue, m.completed, called.calls), ExecutorError)
    case Some(resolutions) =>
      if |resolutions| != |b.effects| then Broken(called, BatchCount)
      else ApplyBatch(w, Machine(m.runtime, called.queue, m.completed + b.markers, called.calls), b.effects, resolutions)
  }

  function RunSingle(w: World, m: Machine): Turn
    requires m.queue != []
  {
    var e, left := m.queue[0], Machine(m.runtime, m.queue[1..], m.completed, m.calls);
    match e
    case PersistCheckpoint => More(Counted(left))
    case WaitForOperator(reason) => Stopped(left, reason)
    case _ =>
      var called := Machine(m.runtime, left.queue, m.completed, m.calls + 1);
      match w.execute(m.calls, e, m.runtime.state)
      case None => Broken(Machine(WithState(m.runtime, w.forget([e], m.runtime.state)), called.queue, m.completed, called.calls), ExecutorError)
      case Some(resolution) =>
        match ApplyOne(w, called, e, resolution)
        case More(next) => More(Counted(next))
        case Stopped(next, reason) => Stopped(next, reason)
        case Broken(next, error) => Broken(next, error)
  }

  /** One round of `drive`. */
  function Round(w: World, m: Machine, max: nat): Turn
    requires m.queue != []
  {
    if m.completed >= max then Broken(m, StepLimit)
    else if IsLeaf(m.queue[0]) && BatchAtFront(m.queue).Some? then RunBatch(w, m, BatchAtFront(m.queue).value, max)
    else RunSingle(w, m)
  }

  /** A result of a batch counts as a step, unless it is an error. */
  function CountedTurn(turn: Turn): Turn {
    match turn case More(m) => More(Counted(m)) case Stopped(m, reason) => Stopped(Counted(m), reason) case Broken(m, error) => Broken(m, error)
  }

  lemma BatchStep(w: World, m: Machine, effects: seq<LeafEffect>, resolutions: seq<Resolution>, i: nat)
    requires i < |effects| == |resolutions|
    ensures ApplyBatch(w, m, effects[i..], resolutions[i..]) ==
            var turn := CountedTurn(ApplyOne(w, m, effects[i], resolutions[i]));
            if turn.More? then ApplyBatch(w, turn.m, effects[i + 1..], resolutions[i + 1..]) else turn
  {
    assert effects[i..][1..] == effects[i + 1..] && resolutions[i..][1..] == resolutions[i + 1..];
  }

  /** The markers of a batch count as steps. */
  function Marked(m: Machine, markers: nat): Machine { Machine(m.runtime, m.queue, m.completed + markers, m.calls) }

  /** Where a drive stands when a batch has been handed to the executor. */
  function Called(m: Machine, b: Batch): Machine
    requires b.consumed <= |m.queue|
  {
    Machine(m.runtime, m.queue[b.consumed..], m.completed, m.calls + 1)
  }

  /** A batch whose results have come. */
  lemma BatchServed(w: World, m: Machine, b: Batch, max: nat, resolutions: seq<Resolution>)
    requires m.completed + b.consumed <= max && b.consumed <= |m.queue| && |resolutions| == |b.effects|
    requires w.executeBatch(m.calls, b.effects, m.runtime.state) == Some(resolutions)
    ensures RunBatch(w, m, b, max) == ApplyBatch(w, Marked(Called(m, b), b.markers), b.effects, resolutions)
  {}

  /** A batch that is not served. */
  lemma BatchLimit(w: World, m: Machine, b: Batch, max: nat)
    requires b.consumed <= |m.queue| && m.completed + b.consumed > max
    ensures RunBatch(w, m, b, max) == Broken(m, StepLimit)
  {}

  function Forgotten(m: Machine, state: State): Machine { Machine(WithState(m.runtime, state), m.queue, m.completed, m.calls) }

  lemma BatchUnserved(w: World, m: Machine, b: Batch, max: nat)
    requires b.consumed <= |m.queue| && m.completed + b.consumed <= max
    requires var results := w.executeBatch(m.calls, b.effects, m.runtime.state); results.None? || |results.value| != |b.effects|
    ensures var failed := w.executeBatch(m.calls, b.effects, m.runtime.state).None?;
            RunBatch(w, m, b, max) ==
              Broken(if failed then Forgotten(Called(m, b), w.forget(b.effects, m.runtime.state)) else Called(m, b),
                     if failed then ExecutorError else BatchCount)
  {}

  lemma BatchRefused(w: World, m: Machine, b: Batch, max: nat)
    requires b.consumed <= |m.queue|
    requires var results := w.executeBatch(m.calls, b.effects, m.runtime.state);
             m.completed + b.consumed > max || results.None? || |results.value| != |b.effects|
    ensures var t := RunBatch(w, m, b, max);
            t.Broken? && t.m.completed == m.completed && t.m.runtime.pending == m.runtime.pending && t.m.runtime.log == m.runtime.log
  {
    if m.completed + b.consumed > max { BatchLimit(w, m, b, max); } else { BatchUnserved(w, m, b, max); }
  }

  lemma {:induction false} ApplyBatchCounts(w: World, m: Machine, effects: seq<LeafEffect>, resolutions: seq<Resolution>)
    requires |effects| == |resolutions|
    ensures var t := ApplyBatch(w, m, effects, resolutions);
            && m.completed <= t.m.completed <= m.completed + |effects|
            && (t.More? ==> t.m.completed == m.completed + |effects|)
            && (t.Stopped? ==> m.completed < t.m.completed)
    decreases |effects|
  {
    if effects != [] {
      match ApplyOne(w, m, effects[0], resolutions[0])
      case More(next) => ApplyBatchCounts(w, Counted(next), effects[1..], resolutions[1..]);
      case Stopped(next, reason) =>
      case Broken(next, error) =>
    }
  }

  lemma RunBatchCounts(w: World, m: Machine, b: Batch, max: nat)
    requires m.completed <= max && b.consumed == b.markers + |b.effects| <= |m.queue| && b.consumed > 0
    ensures var t := RunBatch(w, m, b, max);
            m.completed <= t.m.completed <= max && (t.More? ==> m.completed < t.m.completed)
  {
    var results := w.executeBatch(m.calls, b.effects, m.runtime.state);
    if m.completed + b.consumed <= max && results.Some? && |results.value| == |b.effects| {
      BatchServed(w, m, b, max, results.value);
      ApplyBatchCounts(w, Marked(Called(m, b), b.markers), b.effects, results.value);
    } else {
      BatchRefused(w, m, b, max);
    }
  }

  /** Every round makes progress and never runs past the limit. */
  lemma RoundCounts(w: World, m: Machine, max: nat)
    requires m.queue != [] && m.completed <= max
    ensures var t := Round(w, m, max);
            m.completed <= t.m.completed <= max && (t.More? ==> m.completed < t.m.completed)
  {
    if m.completed < max && IsLeaf(m.queue[0]) && BatchAtFront(m.queue).Some? {
      RunBatchCounts(w, m, BatchAtFront(m.queue).value, max);
    }
  }

  /** `drive`, from any point on. */
  function DriveFrom(w: World, m: Machine, max: nat): Turn
    requires m.completed <= max
    decreases max - m.completed
  {
    if m.queue == [] then More(m) else
    RoundCounts(w, m, max);
    match Round(w, m, max)
    case More(next) => DriveFrom(w, next, max)
    case Stopped(next, reason) => Stopped(next, reason)
    case Broken(next, error) => Broken(next, error)
  }

  // ---------------------------------------------------------------------------------------
  // What a whole drive does to the ledger
  // ---------------------------------------------------------------------------------------

  lemma OneAccounts(w: World, m: Machine, e: Effect, resolution: Resolution)
    ensures Accounts(m.runtime, ApplyOne(w, m, e, resolution).m.runtime)
  {
    match RecordSession(w, m, e)
    case None =>
    case Some(recorded) => ResolutionAccounts(w, recorded.runtime, e, resolution);
  }

  lemma {:induction false} BatchAccounts(w: World, m: Machine, effects: seq<LeafEffect>, resolutions: seq<Resolution>)
    requires |effects| == |resolutions|
    ensures Accounts(m.runtime, ApplyBatch(w, m, effects, resolutions).m.runtime)
    decreases |effects|
  {
    if effects != [] {
      OneAccounts(w, m, effects[0], resolutions[0]);
      match ApplyOne(w, m, effects[0], resolutions[0])
      case More(next) =>
        BatchAccounts(w, Counted(next), effects[1..], resolutions[1..]);
        AccountsTransitive(m.runtime, next.runtime, ApplyBatch(w, m, effects, resolutions).m.runtime);
      case Stopped(next, reason) =>
      case Broken(next, error) =>
    }
  }

  lemma RunBatchAccounts(w: World, m: Machine, b: Batch, max: nat)
    requires b.consumed <= |m.queue|
    ensures Accounts(m.runtime, RunBatch(w, m, b, max).m.runtime)
  {
    var results := w.executeBatch(m.calls, b.effects, m.runtime.state);
    if m.completed + b.consumed <= max && results.Some? && |results.value| == |b.effects| {
      BatchServed(w, m, b, max, results.value);
      BatchAccounts(w, Marked(Called(m, b), b.markers), b.effects, results.value);
    } else {
      BatchRefused(w, m, b, max);
    }
  }

  lemma RoundAccounts(w: World, m: Machine, max: nat)
    requires m.queue != []
    ensures Accounts(m.runtime, Round(w, m, max).m.runtime)
  {
    if m.completed < max && IsLeaf(m.queue[0]) && BatchAtFront(m.queue).Some? {
      RunBatchAccounts(w, m, BatchAtFront(m.queue).value, max);
    } else if m.completed < max {
      RunSingleAccounts(w, m);
    }
  }

  lemma RunSingleAccounts(w: World, m: Machine)
    requires m.queue != []
    ensures Accounts(m.runtime, RunSingle(w, m).m.runtime)
  {
    var e := m.queue[0];
    var resolution := w.execute(m.calls, e, m.runtime.state);
    if !e.PersistCheckpoint? && !e.WaitForOperator? && resolution.Some? {
      var called := Machine(m.runtime, m.queue[1..], m.completed, m.calls + 1);
      OneAccounts(w, called, e, resolution.value);
      SingleServed(w, m, resolution.value);
    } else {
      SingleFails(w, m);
    }
  }

  lemma SingleServed(w: World, m: Machine, resolution: Resolution)
    requires m.queue != [] && !m.queue[0].PersistCheckpoint? && !m.queue[0].WaitForOperator?
    requires w.execute(m.calls, m.queue[0], m.runtime.state) == Some(resolution)
    ensures RunSingle(w, m).m.runtime ==
            ApplyOne(w, Machine(m.runtime, m.queue[1..], m.completed, m.calls + 1), m.queue[0], resolution).m.runtime
  {}

  /** A call that fails leaves the ledger as it is, and the conversation of its leaf is forgotten. */
  lemma SingleFails(w: World, m: Machine)
    requires m.queue != []
    ensures var t, e := RunSingle(w, m).m.runtime, m.queue[0];
            e.PersistCheckpoint? || e.WaitForOperator? || w.execute(m.calls, e, m.runtime.state).None? ==>
              && t.pending == m.runtime.pending && t.log == m.runtime.log
              && t.state == if e.PersistCheckpoint? || e.WaitForOperator? then m.runtime.state else w.forget([e], m.runtime.state)
  {}

  /** However a drive ends, it has done at most `max` steps, and every entry that left the ledger
      left for a justified reason. */
  lemma {:induction false} DriveAccounts(w: World, m: Machine, max: nat)
    requires m.completed <= max
    ensures DriveFrom(w, m, max).m.completed <= max
    ensures Accounts(m.runtime, DriveFrom(w, m, max).m.runtime)
    decreases max - m.completed
  {
    if m.queue != [] {
      RoundCounts(w, m, max);
      RoundAccounts(w, m, max);
      match Round(w, m, max)
      case More(next) =>
        DriveAccounts(w, next, max);
        AccountsTransitive(m.runtime, next.runtime, DriveFrom(w, m, max).m.runtime);
      case Stopped(next, reason) =>
      case Broken(next, error) =>
    }
  }

  // ---------------------------------------------------------------------------------------
  // Every entry stays under its own key
  // ---------------------------------------------------------------------------------------

  lemma CommandKeyed(w: World, r: Runtime, c: Command)
    requires Keyed(r.pending) && ApplyCommand(w, r, c).Some?
    ensures Keyed(ApplyCommand(w, r, c).value.0.pending)
  {
    var ack := AckOf(r.state, c);
    InsertExactly(if ack.Acks? then r.pending - {ack.key} else r.pending, w.reduce(r.state, c).value.1);
  }

  lemma OneKeyed(w: World, m: Machine, e: Effect, resolution: Resolution)
    requires Keyed(m.runtime.pending)
    ensures Keyed(ApplyOne(w, m, e, resolution).m.runtime.pending)
  {
    if RecordSession(w, m, e).Some? && (resolution.Submit? || resolution.Reconciled?) {
      var r := RecordSession(w, m, e).value.runtime;
      if ApplyCommand(w, r, resolution.command).Some? { CommandKeyed(w, r, resolution.command); }
    }
  }

  lemma {:induction false} BatchKeyed(w: World, m: Machine, effects: seq<LeafEffect>, resolutions: seq<Resolution>)
    requires |effects| == |resolutions| && Keyed(m.runtime.pending)
    ensures Keyed(ApplyBatch(w, m, effects, resolutions).m.runtime.pending)
    decreases |effects|
  {
    if effects != [] {
      OneKeyed(w, m, effects[0], resolutions[0]);
      match ApplyOne(w, m, effects[0], resolutions[0])
      case More(next) => BatchKeyed(w, Counted(next), effects[1..], resolutions[1..]);
      case Stopped(next, reason) =>
      case Broken(next, error) =>
    }
  }

  lemma RoundKeyed(w: World, m: Machine, max: nat)
    requires m.queue != [] && Keyed(m.runtime.pending)
    ensures Keyed(Round(w, m, max).m.runtime.pending)
  {
    var e := m.queue[0];
    if m.completed < max && IsLeaf(e) && BatchAtFront(m.queue).Some? {
      var b := BatchAtFront(m.queue).value;
      var results := w.executeBatch(m.calls, b.effects, m.runtime.state);
      if m.completed + b.consumed <= max && results.Some? && |results.value| == |b.effects| {
        BatchServed(w, m, b, max, results.value);
        BatchKeyed(w, Marked(Called(m, b), b.markers), b.effects, results.value);
      } else {
        BatchRefused(w, m, b, max);
      }
    } else if m.completed < max {
      var resolution := w.execute(m.calls, e, m.runtime.state);
      if !e.PersistCheckpoint? && !e.WaitForOperator? && resolution.Some? {
        OneKeyed(w, Machine(m.runtime, m.queue[1..], m.completed, m.calls + 1), e, resolution.value);
        SingleServed(w, m, resolution.value);
      } else {
        SingleFails(w, m);
      }
    }
  }

  lemma {:induction false} DriveKeyed(w: World, m: Machine, max: nat)
    requires m.completed <= max && Keyed(m.runtime.pending)
    ensures Keyed(DriveFrom(w, m, max).m.runtime.pending)
    decreases max - m.completed
  {
    if m.queue != [] {
      RoundCounts(w, m, max);
      RoundKeyed(w, m, max);
      match Round(w, m, max)
      case More(next) => DriveKeyed(w, next, max);
      case Stopped(next, reason) =>
      case Broken(next, error) =>
    }
  }

  // ---------------------------------------------------------------------------------------
  // First in, first out
  // ---------------------------------------------------------------------------------------

  /** `n` effects were taken from the front of the queue, `emitted` having come to its end; a step
      was counted for each, unless the drive stopped. */
  predicate Took(m: Machine, t: Turn, n: nat, emitted: seq<Effect>) {
    && n <= |m.queue + emitted| && t.m.queue == (m.queue + emitted)[n..]
    && m.completed <= t.m.completed <= m.completed + n && (t.More? ==> t.m.completed == m.completed + n)
  }

  lemma OneAppends(w: World, m: Machine, e: Effect, resolution: Resolution)
    ensures m.queue <= ApplyOne(w, m, e, resolution).m.queue && ApplyOne(w, m, e, resolution).m.completed == m.completed
  {}

  lemma {:induction false} BatchAppends(w: World, m: Machine, effects: seq<LeafEffect>, resolutions: seq<Resolution>)
    requires |effects| == |resolutions|
    ensures m.queue <= ApplyBatch(w, m, effects, resolutions).m.queue
    decreases |effects|
  {
    if effects != [] {
      OneAppends(w, m, effects[0], resolutions[0]);
      match ApplyOne(w, m, effects[0], resolutions[0])
      case More(next) => BatchAppends(w, Counted(next), effects[1..], resolutions[1..]);
      case Stopped(next, reason) =>
      case Broken(next, error) =>
    }
  }

  lemma SplitAppended(queue: seq<Effect>, n: nat, whole: seq<Effect>) returns (emitted: seq<Effect>)
    requires n <= |queue| && queue[n..] <= whole
    ensures whole == (queue + emitted)[n..]
  {
    emitted := whole[|queue| - n..];
    assert (queue + emitted)[n..] == queue[n..] + emitted;
  }

  lemma RunBatchTakes(w: World, m: Machine, b: Batch, max: nat) returns (n: nat, emitted: seq<Effect>)
    requires b.consumed == b.markers + |b.effects| <= |m.queue|
    ensures Took(m, RunBatch(w, m, b, max), n, emitted) && n <= |m.queue|
  {
    emitted := [];
    var results := w.executeBatch(m.calls, b.effects, m.runtime.state);
    if m.completed + b.consumed > max {
      n := 0;
      BatchLimit(w, m, b, max);
      assert (m.queue + [])[0..] == m.queue;
    } else if results.Some? && |results.value| == |b.effects| {
      n := b.consumed;
      BatchServed(w, m, b, max, results.value);
      var called := Marked(Called(m, b), b.markers);
      BatchAppends(w, called, b.effects, results.value);
      emitted := SplitAppended(m.queue, n, ApplyBatch(w, called, b.effects, results.value).m.queue);
      ApplyBatchCounts(w, called, b.effects, results.value);
    } else {
      n := b.consumed;
      BatchUnserved(w, m, b, max);
      assert m.queue + [] == m.queue;
    }
  }

  lemma RunSingleTakes(w: World, m: Machine) returns (emitted: seq<Effect>)
    requires m.queue != []
    ensures Took(m, RunSingle(w, m), 1, emitted)
  {
    emitted := [];
    var e := m.queue[0];
    var resolution := w.execute(m.calls, e, m.runtime.state);
    if !e.PersistCheckpoint? && !e.WaitForOperator? && resolution.Some? {
      OneAppends(w, Machine(m.runtime, m.queue[1..], m.completed, m.calls + 1), e, resolution.value);
      emitted := SplitAppended(m.queue, 1, RunSingle(w, m).m.queue);
    } else {
      assert m.queue + [] == m.queue;
    }
  }

  lemma RoundTakes(w: World, m: Machine, max: nat) returns (n: nat, emitted: seq<Effect>)
    requires m.queue != []
    ensures Took(m, Round(w, m, max), n, emitted)
  {
    if m.completed >= max {
      n, emitted := 0, [];
      assert (m.queue + [])[0..] == m.queue;
    } else if IsLeaf(m.queue[0]) && BatchAtFront(m.queue).Some? {
      n, emitted := RunBatchTakes(w, m, BatchAtFront(m.queue).value, max);
    } else {
      emitted := RunSingleTakes(w, m);
      n := 1;
    }
  }

  /** A drive serves effects in the order in which they were queued, each emitted one behind all that
      were queued before; and it takes one step for each, unless it stops. */
  lemma {:induction false} DriveTakes(w: World, m: Machine, max: nat) returns (n: nat, emitted: seq<Effect>)
    requires m.completed <= max
    ensures Took(m, DriveFrom(w, m, max), n, emitted)
    decreases max - m.completed
  {
    if m.queue == [] {
      n, emitted := 0, [];
    } else {
      RoundCounts(w, m, max);
      n, emitted := RoundTakes(w, m, max);
      match Round(w, m, max) {
        case More(next) =>
          var n2, more := DriveTakes(w, next, max);
          TookBoth(m.queue, emitted, n, more, n2);
          n, emitted := n + n2, emitted + more;
        case Stopped(next, reason) =>
        case Broken(next, error) =>
      }
    }
  }

  lemma TookBoth(queue: seq<Effect>, a: seq<Effect>, n: nat, b: seq<Effect>, k: nat)
    requires n <= |queue + a| && k <= |(queue + a)[n..] + b|
    ensures n + k <= |queue + (a + b)| && ((queue + a)[n..] + b)[k..] == (queue + (a + b))[n + k..]
  {
    assert queue + (a + b) == queue + a + b;
    assert (queue + a + b)[n..] == (queue + a)[n..] + b;
  }

  // ---------------------------------------------------------------------------------------
  // A quiescent drive has discharged what it was given
  // ---------------------------------------------------------------------------------------

  lemma {:induction false} KeysOfMember(effects: seq<Effect>, k: Key)
    ensures k in KeysOf(effects) <==> exists e :: e in effects && EffectKey(e) == Some(k)
  {
    if effects != [] {
      KeysOfMember(effects[1..], k);
      assert effects == [effects[0]] + effects[1..];
    }
  }

  lemma KeysOfPermutes(a: seq<Effect>, b: seq<Effect>)
    requires multiset(a) == multiset(b)
    ensures KeysOf(a) == KeysOf(b)
  {
    forall k ensures k in KeysOf(a) <==> k in KeysOf(b) {
      KeysOfMember(a, k);
      KeysOfMember(b, k);
      assert forall e :: e in a <==> e in multiset(a);
      assert forall e :: e in b <==> e in multiset(b);
    }
  }

  lemma {:induction false} KeysOfLeaves(queue: seq<Effect>)
    requires forall e | e in queue :: e.PersistCheckpoint? || IsLeaf(e)
    ensures KeysOf(queue) == KeysOf(Leaves(queue))
  {
    if queue != [] {
      KeysOfLeaves(queue[1..]);
      if IsLeaf(queue[0]) { assert Leaves(queue)[1..] == Leaves(queue[1..]); }
    }
  }

  /** Serving one effect trades its entry for the entries of what it emitted. */
  lemma OneDischarges(w: World, m: Machine, e: Effect, resolution: Resolution)
    requires EffectKey(e).Some? && ApplyOne(w, m, e, resolution).More?
    ensures var next := ApplyOne(w, m, e, resolution).m;
            && next.completed == m.completed
            && next.runtime.pending.Keys - KeysOf(next.queue) <= m.runtime.pending.Keys - {EffectKey(e).value} - KeysOf(m.queue)
  {
    var recorded := RecordSession(w, m, e).value;
    var a := ApplyResolution(w, recorded.runtime, e, resolution);
    DoneDischarges(w, recorded.runtime, e, resolution);
    KeysOfJoin(m.queue, a.emitted);
  }

  lemma {:induction false} BatchDischarges(w: World, m: Machine, effects: seq<LeafEffect>, resolutions: seq<Resolution>)
    requires |effects| == |resolutions| && ApplyBatch(w, m, effects, resolutions).More?
    ensures var next := ApplyBatch(w, m, effects, resolutions).m;
            next.runtime.pending.Keys - KeysOf(next.queue) <= m.runtime.pending.Keys - KeysOf(effects) - KeysOf(m.queue)
    decreases |effects|
  {
    if effects != [] {
      OneDischarges(w, m, effects[0], resolutions[0]);
      BatchDischarges(w, Counted(ApplyOne(w, m, effects[0], resolutions[0]).m), effects[1..], resolutions[1..]);
    } else {
      assert KeysOf(effects) == {};
    }
  }

  lemma BatchKeys(queue: seq<Effect>)
    requires BatchAtFront(queue).Some?
    ensures var b := BatchAtFront(queue).value; KeysOf(queue) == KeysOf(b.effects) + KeysOf(queue[b.consumed..])
  {
    var b := BatchAtFront(queue).value;
    BatchIsSortedFront(queue);
    FrontMaximal(queue, {});
    KeysOfLeaves(queue[..b.consumed]);
    KeysOfPermutes(b.effects, Leaves(queue[..b.consumed]));
    KeysOfJoin(queue[..b.consumed], queue[b.consumed..]);
    assert queue == queue[..b.consumed] + queue[b.consumed..];
  }

  lemma RunBatchDischarges(w: World, m: Machine, b: Batch, max: nat)
    requires BatchAtFront(m.queue) == Some(b) && RunBatch(w, m, b, max).More?
    ensures var next := RunBatch(w, m, b, max).m;
            next.runtime.pending.Keys - KeysOf(next.queue) <= m.runtime.pending.Keys - KeysOf(m.queue)
  {
    BatchKeys(m.queue);
    var called := Machine(m.runtime, m.queue[b.consumed..], m.completed, m.calls + 1);
    BatchDischarges(w, Machine(m.runtime, called.queue, m.completed + b.markers, called.calls), b.effects, w.executeBatch(m.calls, b.effects, m.runtime.state).value);
  }

  /** No round adds to the entries that nothing queued stands for. */
  lemma RoundDischarges(w: World, m: Machine, max: nat)
    requires m.queue != [] && Round(w, m, max).More?
    ensures var next := Round(w, m, max).m;
            next.runtime.pending.Keys - KeysOf(next.queue) <= m.runtime.pending.Keys - KeysOf(m.queue)
  {
    if IsLeaf(m.queue[0]) && BatchAtFront(m.queue).Some? {
      RunBatchDischarges(w, m, BatchAtFront(m.queue).value, max);
    } else if !m.queue[0].PersistCheckpoint? {
      var called := Machine(m.runtime, m.queue[1..], m.completed, m.calls + 1);
      OneDischarges(w, called, m.queue[0], w.execute(m.calls, m.queue[0], m.runtime.state).value);
    }
  }

  /** When a drive comes to rest, nothing it was given and nothing emitted on the way is left in
      the ledger: only entries that were there before and were not queued. */
  lemma {:induction false} QuiescentDischarges(w: World, m: Machine, max: nat)
    requires m.completed <= max && DriveFrom(w, m, max).More?
    ensures var last := DriveFrom(w, m, max).m;
            last.queue == [] && last.runtime.pending.Keys <= m.runtime.pending.Keys - KeysOf(m.queue)
    decreases max - m.completed
  {
    if m.queue != [] {
      RoundCounts(w, m, max);
      RoundDischarges(w, m, max);
      QuiescentDischarges(w, Round(w, m, max).m, max);
    }
  }

  // ---------------------------------------------------------------------------------------
  // What a stopped batch leaves pending
  // ---------------------------------------------------------------------------------------

  /** A task leaf only ever discharges itself. */
  lemma LeafKeepsOthers(w: World, m: Machine, e: LeafEffect, resolution: Resolution, k: Key)
    requires k in m.runtime.pending && (k != EffectKey(e).value || !ApplyOne(w, m, e, resolution).More?)
    ensures var t := ApplyOne(w, m, e, resolution).m;
            t.completed == m.completed && k in t.runtime.pending && t.runtime.pending[k] == m.runtime.pending[k]
  {
    if RecordSession(w, m, e).Some? && resolution.Submit? {
      var recorded := RecordSession(w, m, e).value;
      if ApplySubmit(w, recorded.runtime, e, resolution.command).Done? {
        CommandKeys(w, recorded.runtime, resolution.command);
      }
    }
  }

  /** How many results of a batch were applied before it stopped. */
  function Served(m: Machine, t: Turn): int { t.m.completed - m.completed - if t.Stopped? then 1 else 0 }

  /** When a batch stops on a hold or an error, the effect it stopped at and every later one keep
      their entries. */
  lemma {:induction false} UnservedStay(w: World, m: Machine, effects: seq<LeafEffect>, resolutions: seq<Resolution>, j: nat)
    requires |effects| == |resolutions| && Distinct(effects) && !ApplyBatch(w, m, effects, resolutions).More?
    requires Served(m, ApplyBatch(w, m, effects, resolutions)) <= j < |effects|
    requires EffectKey(effects[j]).value in m.runtime.pending
    ensures var t, k := ApplyBatch(w, m, effects, resolutions), EffectKey(effects[j]).value;
            k in t.m.runtime.pending && t.m.runtime.pending[k] == m.runtime.pending[k]
    decreases |effects|
  {
    var k := EffectKey(effects[j]).value;
    match ApplyOne(w, m, effects[0], resolutions[0])
    case More(next) =>
      ApplyBatchCounts(w, Counted(next), effects[1..], resolutions[1..]);
      ServedRest(w, m, effects, resolutions, next);
      LeafKeepsOthers(w, m, effects[0], resolutions[0], k);
      UnservedStay(w, Counted(next), effects[1..], resolutions[1..], j - 1);
    case _ => LeafKeepsOthers(w, m, effects[0], resolutions[0], k);
  }

  lemma ServedRest(w: World, m: Machine, effects: seq<LeafEffect>, resolutions: seq<Resolution>, next: Machine)
    requires |effects| == |resolutions| > 0 && ApplyOne(w, m, effects[0], resolutions[0]) == More(next)
    requires !ApplyBatch(w, m, effects, resolutions).More?
    ensures Served(Counted(next), ApplyBatch(w, Counted(next), effects[1..], resolutions[1..])) ==
            Served(m, ApplyBatch(w, m, effects, resolutions)) - 1
    ensures Served(Counted(next), ApplyBatch(w, Counted(next), effects[1..], resolutions[1..])) >= 0
  {
    ApplyBatchCounts(w, Counted(next), effects[1..], resolutions[1..]);
  }

  // ---------------------------------------------------------------------------------------
  // The driver as it updates the runtime
  // ---------------------------------------------------------------------------------------

  /** `task_batch_at_front`, one effect at a time. */
  method CollectBatch(queue: seq<Effect>) returns (b: Option<Batch>)
    ensures b == BatchAtFront(queue)
  {
    var effects: seq<LeafEffect>, ids: set<TaskId>, consumed, markers := [], {}, 0, 0;
    while consumed < |queue| && (queue[consumed].PersistCheckpoint? || (IsLeaf(queue[consumed]) && queue[consumed].task !in ids))
      invariant consumed <= |queue| && markers + |effects| == consumed
      invariant Front(queue, {}) == consumed + Front(queue[consumed..], ids)
      invariant Leaves(queue[..consumed]) == effects
    {
      var e := queue[consumed];
      CollectStep(queue, consumed, ids);
      if e.PersistCheckpoint? {
        markers := markers + 1;
      } else {
        ids := ids + {e.task};
        effects := effects + [e];
      }
      consumed := consumed + 1;
    }
    return if |effects| >= 2 then Some(Batch(SortByTask(effects), consumed, markers)) else None;
  }

  /** One more effect of the front run. */
  lemma CollectStep(queue: seq<Effect>, i: nat, ids: set<TaskId>)
    requires i < |queue| && (queue[i].PersistCheckpoint? || (IsLeaf(queue[i]) && queue[i].task !in ids))
    ensures Front(queue[i..], ids) == 1 + Front(queue[i + 1..], if queue[i].PersistCheckpoint? then ids else ids + {queue[i].task})
    ensures Leaves(queue[..i + 1]) == if queue[i].PersistCheckpoint? then Leaves(queue[..i]) else Leaves(queue[..i]) + [queue[i]]
  {
    assert queue[i..][1..] == queue[i + 1..];
    assert queue[..i + 1] == queue[..i] + [queue[i]];
    LeavesAppend(queue[..i], queue[i]);
  }

  lemma {:induction false} LeavesAppend(queue: seq<Effect>, e: Effect)
    ensures Leaves(queue + [e]) == if IsLeaf(e) then Leaves(queue) + [e] else Leaves(queue)
  {
    if queue == [] {
      assert queue + [e] == [e] && [e][1..] == [];
    } else {
      assert (queue + [e])[1..] == queue[1..] + [e];
      LeavesAppend(queue[1..], e);
    }
  }

  datatype Stop = Going | Halt(reason: string) | Fault(error: Error)

  function Ended(stop: Stop, m: Machine): Turn {
    match stop case Going => More(m) case Halt(reason) => Stopped(m, reason) case Fault(error) => Broken(m, error)
  }

  /** The running processor: its reducer state, its durable ledger and the queue of one turn. */
  class Driver {
    const world: World
    var state: State
    var pending: map<Key, Effect>
    var queue: seq<Effect>
    var completed: nat
    var calls: nat
    ghost var log: seq<Removal>

    constructor (w: World, r: Runtime)
      ensures world == w && Now() == Machine(r, [], 0, 0)
    {
      world, state, pending, log := w, r.state, r.pending, r.log;
      queue, completed, calls := [], 0, 0;
    }

    ghost function Now(): Machine
      reads this
    {
      Machine(Runtime(state, pending, log), queue, completed, calls)
    }

    /** `drive`: serves the effects, and what they emit, until nothing is left, an adapter holds, or
        something fails. */
    method Drive(initial: seq<Effect>, max: nat) returns (stop: Stop)
      modifies this
      ensures Ended(stop, Now()) == DriveFrom(world, Machine(old(Now()).runtime, initial, 0, old(calls)), max)
      ensures Accounts(old(Now()).runtime, Now().runtime) && completed <= max
      ensures stop.Going? ==> pending.Keys <= old(pending).Keys - KeysOf(initial)
      ensures Keyed(old(pending)) ==> Keyed(pending)
    {
      queue, completed, stop := initial, 0, Going;
      ghost var start := Now();
      DriveAccounts(world, start, max);
      if Keyed(start.runtime.pending) { DriveKeyed(world, start, max); }
      if DriveFrom(world, start, max).More? { QuiescentDischarges(world, start, max); }
      while queue != []
        invariant completed <= max && DriveFrom(world, Now(), max) == DriveFrom(world, start, max)
        invariant stop == Going
        decreases max - completed
      {
        RoundCounts(world, Now(), max);
        stop := OneRound(max);
        if stop != Going { return; }
      }
    }

    method OneRound(max: nat) returns (stop: Stop)
      requires queue != []
      modifies this
      ensures Ended(stop, Now()) == Round(world, old(Now()), max)
    {
      if completed >= max { return Fault(StepLimit); }
      if IsLeaf(queue[0]) {
        var batch := CollectBatch(queue);
        if batch.Some? {
          stop := ServeBatch(batch.value, max);
          return;
        }
      }
      stop := ServeOne();
    }

    method ServeOne() returns (stop: Stop)
      requires queue != []
      modifies this
      ensures Ended(stop, Now()) == RunSingle(world, old(Now()))
    {
      var e := queue[0];
      queue := queue[1..];
      match e {
        case PersistCheckpoint => completed := completed + 1; return Going;
        case WaitForOperator(reason) => return Halt(reason);
        case _ =>
      }
      calls := calls + 1;
      var resolution := world.execute(calls - 1, e, state);
      if resolution.None? {
        state := world.forget([e], state);
        return Fault(ExecutorError);
      }
      stop := Apply(e, resolution.value);
      if stop == Going { completed := completed + 1; }
    }

    method ServeBatch(b: Batch, max: nat) returns (stop: Stop)
      requires b.consumed <= |queue|
      modifies this
      ensures Ended(stop, Now()) == RunBatch(world, old(Now()), b, max)
    {
      if completed + b.consumed > max {
        BatchLimit(world, Now(), b, max);
        return Fault(StepLimit);
      }
      stop := CallAndApply(b, max);
    }

    method CallAndApply(b: Batch, max: nat) returns (stop: Stop)
      requires b.consumed <= |queue| && completed + b.consumed <= max
      modifies this
      ensures Ended(stop, Now()) == RunBatch(world, old(Now()), b, max)
    {
      ghost var start := Now();
      var resolutions := CallBatch(b);
      if resolutions.Some? && |resolutions.value| == |b.effects| {
        BatchServed(world, start, b, max, resolutions.value);
        stop := ApplyMarked(b, resolutions.value);
      } else {
        BatchUnserved(world, start, b, max);
        stop := Fault(if resolutions.None? then ExecutorError else BatchCount);
      }
    }

    /** The call of the executor for a batch; if it fails, what the runtime remembers of its effects goes. */
    method CallBatch(b: Batch) returns (resolutions: Option<seq<Resolution>>)
      requires b.consumed <= |queue|
      modifies this
      ensures var m := old(Now());
              && resolutions == world.executeBatch(m.calls, b.effects, m.runtime.state)
              && Now() == if resolutions.None? then Forgotten(Called(m, b), world.forget(b.effects, m.runtime.state)) else Called(m, b)
    {
      queue := queue[b.consumed..];
      calls := calls + 1;
      resolutions := world.executeBatch(calls - 1, b.effects, state);
      if resolutions.None? { state := world.forget(b.effects, state); }
    }

    /** The markers of a batch count as steps, and then its results are applied. */
    method ApplyMarked(b: Batch, resolutions: seq<Resolution>) returns (stop: Stop)
      requires |b.effects| == |resolutions|
      modifies this
      ensures Ended(stop, Now()) == ApplyBatch(world, Marked(old(Now()), b.markers), b.effects, resolutions)
    {
      completed := completed + b.markers;
      stop := ApplyAll(b.effects, resolutions);
    }

    method ApplyAll(effects: seq<LeafEffect>, resolutions: seq<Resolution>) returns (stop: Stop)
      requires |effects| == |resolutions|
      modifies this
      ensures Ended(stop, Now()) == ApplyBatch(world, old(Now()), effects, resolutions)
    {
      ghost var whole := ApplyBatch(world, Now(), effects, resolutions);
      stop := Going;
      assert effects[0..] == effects && resolutions[0..] == resolutions;
      var i := 0;
      while i < |effects|
        invariant i <= |effects| && stop == Going
        invariant ApplyBatch(world, Now(), effects[i..], resolutions[i..]) == whole
      {
        BatchStep(world, Now(), effects, resolutions, i);
        stop := ApplyNext(effects[i], resolutions[i]);
        if stop != Going { return; }
        i := i + 1;
      }
    }

    /** One result of a batch, counted. */
    method ApplyNext(e: Effect, resolution: Resolution) returns (stop: Stop)
      modifies this
      ensures Ended(stop, Now()) == CountedTurn(ApplyOne(world, old(Now()), e, resolution))
    {
      stop := Apply(e, resolution);
      if !stop.Fault? { completed := completed + 1; }
    }

    /** `record_leaf_session` and `apply_resolution`: one result goes into the ledger. */
    method Apply(e: Effect, resolution: Resolution) returns (stop: Stop)
      modifies this
      ensures Ended(stop, Now()) == ApplyOne(world, old(Now()), e, resolution)
    {
      if IsLeaf(e) {
        var recorded := world.session(calls, e, state);
        if recorded.None? { return Fault(RuntimeError); }
        state := recorded.value;
      }
      match resolution {
        case Hold(reason) => return Halt(reason);
        case Acknowledge => stop := ApplyBare(e);
        case Submit(c) => stop := ApplyOwn(e, c);
        case Reconciled(c) => stop := ApplyInspected(e, c);
      }
    }

    method ApplyBare(e: Effect) returns (stop: Stop)
      modifies this
      ensures Ended(stop, Now()) == Landed(old(Now()), ApplyAcknowledge(world, old(Now()).runtime, e))
    {
      if EffectKey(e).None? || !e.Bare? { return Fault(InvalidResolution); }
      var ok := Discharge(e);
      if !ok { return Fault(RuntimeError); }
      log := log + [ByAcknowledgement(BareKey(e.name), e)];
      return Going;
    }

    method ApplyOwn(e: Effect, c: Command) returns (stop: Stop)
      modifies this
      ensures Ended(stop, Now()) == Landed(old(Now()), ApplySubmit(world, old(Now()).runtime, e, c))
      ensures Keyed(old(pending)) && IsObligation(e) ==>
                if stop == Going then |old(queue)| <= |queue| && SubmitDone(old(Now().runtime), e, c, Now().runtime, queue[|old(queue)|..])
                else pending == old(pending) && queue == old(queue)
    {
      ghost var start := Now().runtime;
      if Keyed(pending) && IsObligation(e) { SubmitTrades(world, start, e, c); }
      var ack := AckOf(state, c);
      if ack.MissingTask? { return Fault(RuntimeError); }
      if EffectKey(e) != (if ack.Acks? then Some(ack.key) else None) { return Fault(WrongAcknowledgement); }
      ghost var before := state;
      var ok := ApplyAt(c);
      if !ok { return Fault(RuntimeError); }
      log := if ack.Acks? then log + [ByOwnCommand(ack.key, e, c, before)] else log;
      return Going;
    }

    method ApplyInspected(e: Effect, c: Command) returns (stop: Stop)
      modifies this
      ensures Ended(stop, Now()) == Landed(old(Now()), ApplyReconciled(world, old(Now()).runtime, e, c))
    {
      if !e.Reconcile? { return Fault(InvalidResolution); }
      var ack := AckOf(state, c);
      if ack.MissingTask? { return Fault(RuntimeError); }
      if ack.NoKey? || !SameTask(e, c) { return Fault(InvalidResolution); }
      ghost var before := state;
      var ok := ApplyAt(c);
      if !ok { return Fault(RuntimeError); }
      log := log + [ByReconciliation(ack.key, e, c, before)];
      ok := Discharge(e);
      if !ok { return Fault(RuntimeError); }
      log := log + [ByInspection(ReconcileKey(e.task), e)];
      return Going;
    }

    /** `apply_at`: the reducer decides, then the ledger and the queue follow. */
    method ApplyAt(c: Command) returns (ok: bool)
      modifies this
      ensures log == old(log) && completed == old(completed) && calls == old(calls)
      ensures match ApplyCommand(world, old(Now().runtime), c)
              case None => !ok && Now() == old(Now())
              case Some((r, emitted)) => ok && Now().runtime == r && queue == old(queue) + emitted
      ensures forall e | Keyed(old(pending)) && Answers(old(state), e, c) ::
                if ok then Trades(old(Now().runtime), e, Now().runtime, queue[|old(queue)|..]) else pending == old(pending)
    {
      ghost var start := Now().runtime;
      forall e | Keyed(pending) && Answers(state, e, c) ensures AppliesFor(world, start, e, c) { CommandServes(world, start, e, c); }
      var ack := AckOf(state, c);
      if ack.MissingTask? || (ack.Acks? && ack.key !in pending) || (ack.NoKey? && pending != map[] && !c.Recover?) { return false; }
      var reduced := world.reduce(state, c);
      if reduced.None? { return false; }
      var inserted := Insert(if ack.Acks? then pending - {ack.key} else pending, reduced.value.1);
      if inserted.None? { return false; }
      state, pending, queue := reduced.value.0, inserted.value, queue + reduced.value.1;
      return true;
    }

    /** `acknowledge_effect`. */
    method Discharge(e: Effect) returns (ok: bool)
      modifies this`state, this`pending
      ensures match AcknowledgeEffect(world, old(Now().runtime), e)
              case None => !ok && Now() == old(Now())
              case Some(r) => ok && Now() == Machine(r, old(queue), old(completed), old(calls))
    {
      var key := EffectKey(e);
      if key.None? || key.value !in pending { return false; }
      var retired := world.retire(state, pending[key.value]);
      if retired.None? { return false; }
      state, pending := retired.value, pending - {key.value};
      return true;
    }
  }
}
