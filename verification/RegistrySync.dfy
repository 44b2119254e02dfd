/** Concurrent syncs of candidates into the shared registry, from `engine/src/dependency_graph.rs`.
    A sync takes the registry lock, compares generations, replaces the registry file and removes
    the candidate; it may die or fail between any two of these actions. */
module RegistrySync {
  import opened Text
  import opened Registry

  // ---------------------------------------------------------------------------------------
  // One sync
  // ---------------------------------------------------------------------------------------

  datatype Request = Request(project: string, base: nat, path: string)

  /** What a sync decides under the lock: an error, nothing to change, or a file to write. */
  datatype Verdict = Refused | Unchanged | Changed(next: File)

  function IndexOfId(ps: seq<Stored>, id: string): (i: nat)
    ensures i <= |ps| && (i < |ps| ==> ps[i].id == id) && forall j | 0 <= j < i :: ps[j].id != id
  {
    if ps == [] || ps[0].id == id then 0 else 1 + IndexOfId(ps[1..], id)
  }

  /** The comparison and swap of `sync_with_cancellation`, on the files as read. */
  function Decide(f: File, candidate: Option<Candidate>, r: Request, at: string): Verdict {
    var i := IndexOfId(f.projects, r.project);
    if Read(f) == None || i == |f.projects| || f.projects[i].generation != r.base || candidate == None then Refused
    else DecideFor(f, i, candidate.value, r, at)
  }

  function DecideFor(f: File, i: nat, c: Candidate, r: Request, at: string): Verdict
    requires i < |f.projects| && Read(f).Some?
  {
    var ps, ds := Products(c.products), Dependencies(c.dependencies);
    if ps == None || ds == None || c.base != r.base || !OkEdges(r.project, c.dependencies, Read(f).value.Keys) then Refused
    else if Products(f.projects[i].products) == ps && Dependencies(f.projects[i].dependencies) == ds then Unchanged
    else match Apply(f, i, ps.value, ds.value, at) case None => Refused case Some(next) => Changed(next)
  }

  /** The candidate may be compared with the project as the registry has it: same generation on all
      sides, valid lists, and edges to other projects of the registry. */
  ghost predicate Comparable(f: File, c: Candidate, r: Request) {
    && Read(f).Some? && r.project in Read(f).value && Read(f).value[r.project].generation == r.base == c.base
    && Products(c.products).Some? && Dependencies(c.dependencies).Some? && OkEdges(r.project, c.dependencies, Read(f).value.Keys)
  }

  /** The registry already says of the project what the candidate says. */
  ghost predicate SaysSame(f: File, c: Candidate, r: Request)
    requires Comparable(f, c, r)
  {
    && Read(f).value[r.project].products == Products(c.products).value
    && Read(f).value[r.project].dependencies == Dependencies(c.dependencies).value
  }

  /** Exactly when a sync is refused, changes nothing, or writes; a registry that has come to its last
      generation is not written. */
  lemma DecideIs(f: File, c: Candidate, r: Request, at: string)
    ensures Decide(f, None, r, at) == Refused
    ensures Decide(f, Some(c), r, at) == Unchanged <==> Comparable(f, c, r) && SaysSame(f, c, r)
    ensures Decide(f, Some(c), r, at).Changed? <==> Comparable(f, c, r) && !SaysSame(f, c, r) && f.generation != MAX_U64
  {
    var i := IndexOfId(f.projects, r.project);
    if i < |f.projects| && Read(f).Some? {
      ReadAt(f, i);
      AppliedFor(f, i, c, at);
    } else if Read(f).Some? {
      ReadIs(f);
      NotThere(f, r.project, i);
    }
  }

  /** The slice of the project at place `i` is what is stored there. */
  lemma ReadAt(f: File, i: nat)
    requires Read(f).Some? && i < |f.projects|
    ensures var p, m := f.projects[i], Read(f).value;
            && p.id in m && m[p.id].generation == p.generation
            && Products(p.products) == Some(m[p.id].products) && Dependencies(p.dependencies) == Some(m[p.id].dependencies)
  {
    ReadIs(f);
    assert f.projects[i] in f.projects;
    ReadAs(f.projects[i]);
  }

  lemma AppliedFor(f: File, i: nat, c: Candidate, at: string)
    requires i < |f.projects|
    ensures Products(c.products).Some? && Dependencies(c.dependencies).Some? ==>
              (Apply(f, i, Products(c.products).value, Dependencies(c.dependencies).value, at) == None <==> f.generation == MAX_U64)
  {}

  /** What is written: the project's record with the candidate's lists, one generation on. */
  lemma ChangeStores(f: File, c: Candidate, r: Request, at: string)
    requires Decide(f, Some(c), r, at).Changed?
    ensures exists i, q :: 0 <= i < |f.projects| && f.projects[i].id == r.project
              && Advanced(f.projects[i], q, Products(c.products).value, Dependencies(c.dependencies).value, at)
              && Stores(f, i, q, at, Decide(f, Some(c), r, at).next)
  {
    var i := IndexOfId(f.projects, r.project);
    var ps, ds, next := Products(c.products).value, Dependencies(c.dependencies).value, Decide(f, Some(c), r, at).next;
    AppliedIs(f, i, ps, ds, at);
    var q :| Advanced(f.projects[i], q, ps, ds, at) && multiset(next.projects) == multiset(f.projects[i := q]);
    assert Stores(f, i, q, at, next);
  }

  lemma NotThere(f: File, id: string, i: nat)
    requires i == IndexOfId(f.projects, id) == |f.projects|
    ensures id !in IdsOf(f.projects)
  {}

  /** The registry with record `q` at place `i`, one generation on and in order. */
  ghost predicate Stores(f: File, i: nat, q: Stored, at: string, t: File) {
    && i < |f.projects| && t.generation == f.generation + 1 && t.updatedAt == at && InOrder(t.projects)
    && multiset(t.projects) == multiset(f.projects[i := q])
  }

  // ---------------------------------------------------------------------------------------
  // The system
  // ---------------------------------------------------------------------------------------

  datatype Phase = Asked | Locked | Decided(from: File, verdict: Verdict) | Written | Cleaned

  datatype Job = Job(request: Request, at: string, phase: Phase)

  datatype System = System(registry: File, candidates: map<string, Candidate>, lock: Option<nat>, jobs: map<nat, Job>)

  datatype Event =
    | Begin(pid: nat, request: Request, at: string)
    | Lock(pid: nat)
    | Look(pid: nat)
    | Write(pid: nat)
    | Clean(pid: nat)
    | Finish(pid: nat)
    | Crash(pid: nat)
    | Clear
    | Offer(path: string, candidate: Candidate)

  function Moved(s: System, pid: nat, phase: Phase): map<nat, Job>
    requires pid in s.jobs
  {
    s.jobs[pid := Job(s.jobs[pid].request, s.jobs[pid].at, phase)]
  }

  function Dropped(s: System, pid: nat): Option<nat> { if s.lock == Some(pid) then None else s.lock }

  /** One action. `Finish` is a return, successful or with an error, at any point. */
  function Next(s: System, e: Event): Option<System> {
    match e
    case Begin(pid, r, at) =>
      if pid in s.jobs || s.lock == Some(pid) then None else Some(System(s.registry, s.candidates, s.lock, s.jobs[pid := Job(r, at, Asked)]))
    case Lock(pid) =>
      if pid !in s.jobs || s.jobs[pid].phase != Asked || s.lock.Some? then None
      else Some(System(s.registry, s.candidates, Some(pid), Moved(s, pid, Locked)))
    case Look(pid) =>
      if pid !in s.jobs || s.jobs[pid].phase != Locked then None
      else
        var job := s.jobs[pid];
        var candidate := if job.request.path in s.candidates then Some(s.candidates[job.request.path]) else None;
        Some(System(s.registry, s.candidates, s.lock, Moved(s, pid, Decided(s.registry, Decide(s.registry, candidate, job.request, job.at)))))
    case Write(pid) =>
      if pid !in s.jobs || !s.jobs[pid].phase.Decided? || !s.jobs[pid].phase.verdict.Changed? then None
      else Some(System(s.jobs[pid].phase.verdict.next, s.candidates, s.lock, Moved(s, pid, Written)))
    case Clean(pid) =>
      if pid !in s.jobs || !(s.jobs[pid].phase == Written || (s.jobs[pid].phase.Decided? && s.jobs[pid].phase.verdict == Unchanged)) then None
      else Some(System(s.registry, s.candidates - {s.jobs[pid].request.path}, s.lock, Moved(s, pid, Cleaned)))
    case Finish(pid) => if pid !in s.jobs then None else Some(System(s.registry, s.candidates, Dropped(s, pid), s.jobs - {pid}))
    case Crash(pid) => if pid !in s.jobs then None else Some(System(s.registry, s.candidates, s.lock, s.jobs - {pid}))
    case Clear => if s.lock.Some? && s.lock.value !in s.jobs then Some(System(s.registry, s.candidates, None, s.jobs)) else None
    case Offer(path, c) => Some(System(s.registry, s.candidates[path := c], s.lock, s.jobs))
  }

  function Run(s: System, events: seq<Event>): Option<System>
    decreases |events|
  {
    if events == [] then Some(s) else match Next(s, events[0]) case Some(t) => Run(t, events[1..]) case None => None
  }

  // ---------------------------------------------------------------------------------------
  // The lock makes the comparison hold until the write
  // ---------------------------------------------------------------------------------------

  predicate Held(phase: Phase) { phase != Asked }

  /** A verdict about to be carried out was reached on the registry as it still is. */
  ghost predicate JobOk(s: System, pid: nat)
    requires pid in s.jobs
  {
    var job := s.jobs[pid];
    && (Held(job.phase) ==> s.lock == Some(pid))
    && (job.phase.Decided? ==>
          && job.phase.from == s.registry
          && (job.phase.verdict.Changed? ==> exists c :: job.phase.verdict == Decide(s.registry, Some(c), job.request, job.at)))
  }

  ghost predicate Inv(s: System) { forall pid | pid in s.jobs :: JobOk(s, pid) }

  lemma Alone(s: System, pid: nat)
    requires Inv(s) && pid in s.jobs && Held(s.jobs[pid].phase)
    ensures forall other | other in s.jobs && other != pid :: !Held(s.jobs[other].phase)
  {
    forall other | other in s.jobs && other != pid ensures !Held(s.jobs[other].phase) {
      assert JobOk(s, other) && JobOk(s, pid);
    }
  }

  lemma NextKeeps(s: System, e: Event, t: System)
    requires Inv(s) && Next(s, e) == Some(t)
    ensures Inv(t)
  {
    if e.Look? || e.Write? || e.Clean? {
      assert JobOk(s, e.pid);
      Alone(s, e.pid);
    }
    forall pid | pid in t.jobs ensures JobOk(t, pid) {
      if pid in s.jobs { assert JobOk(s, pid); }
    }
  }

  /** What a registry file says about a project's generation: a candidate based on `g` can no
      longer be applied, because the file cannot be read or the project has moved on. */
  predicate Spent(f: File, project: string, g: nat) {
    match Read(f) case None => true case Some(m) => project in m && m[project].generation > g
  }

  /** A sync changes the registry only while the stored generation is its base, adds one to that
      generation and to the registry's, and leaves every other project as it was. What it leaves
      can be read again exactly when no product of the candidate has a name that starts with a
      colon. */
  lemma ChangeIsSwap(f: File, c: Candidate, r: Request, at: string, next: File)
    requires Decide(f, Some(c), r, at) == Changed(next)
    ensures Read(f).Some? && r.project in Read(f).value && Read(f).value[r.project].generation == r.base && c.base == r.base
    ensures next.generation == f.generation + 1 && Spent(next, r.project, r.base)
    ensures Products(c.products).Some? && Dependencies(c.dependencies).Some?
    ensures Read(next) == Replaced(Read(f).value, r.project, Synced(Read(f).value[r.project], c))
  {
    var i := IndexOfId(f.projects, r.project);
    var ps, ds := SwapParts(f, i, c, r, at, next);
    SyncedIs(f.projects[i], Read(f).value[r.project], c, ps, ds);
    ReplacedSpends(f, next, r.project, Synced(Read(f).value[r.project], c), r.base);
  }

  /** A project's slice once the candidate is in, if it can be read. */
  function Synced(slice: Slice, c: Candidate): Option<Slice>
    requires Products(c.products).Some? && Dependencies(c.dependencies).Some?
  {
    if AnyColonName(c.products) || !NoColonNames(c.dependencies) then None
    else Some(Slice(slice.name, Products(c.products).value, Dependencies(c.dependencies).value, slice.generation + 1))
  }

  lemma SwapParts(f: File, i: nat, c: Candidate, r: Request, at: string, next: File) returns (ps: seq<string>, ds: seq<Dependency>)
    requires i < |f.projects| && Read(f).Some? && f.projects[i].id == r.project && DecideFor(f, i, c, r, at) == Changed(next)
    ensures next.generation == f.generation + 1 && c.base == r.base
    ensures Products(c.products) == Some(ps) && Dependencies(c.dependencies) == Some(ds)
    ensures r.project in Read(f).value
    ensures Read(f).value[r.project].name == f.projects[i].name && Read(f).value[r.project].generation == f.projects[i].generation
    ensures Read(next) == Replaced(Read(f).value, r.project, ReadBack(f.projects[i], c, ps, ds))
  {
    ps, ds := Products(c.products).value, Dependencies(c.dependencies).value;
    AppliedReads(f, i, c, at, ps, ds, next);
  }

  lemma SyncedIs(p: Stored, slice: Slice, c: Candidate, ps: seq<string>, ds: seq<Dependency>)
    requires Products(c.products) == Some(ps) && Dependencies(c.dependencies) == Some(ds)
    requires slice.name == p.name && slice.generation == p.generation
    ensures Synced(slice, c) == ReadBack(p, c, ps, ds)
  {}

  lemma ReplacedSpends(f: File, next: File, id: string, slice: Option<Slice>, base: nat)
    requires Read(f).Some? && Read(next) == Replaced(Read(f).value, id, slice) && (slice.Some? ==> slice.value.generation == base + 1)
    ensures Spent(next, id, base)
  {}

  /** Whether an event replaces the registry on behalf of a candidate for `project` based on `g`. */
  predicate Replaces(s: System, e: Event, project: string, g: nat) {
    e.Write? && e.pid in s.jobs && s.jobs[e.pid].request.project == project && s.jobs[e.pid].request.base == g
  }

  function Replacements(s: System, events: seq<Event>, project: string, g: nat): nat
    decreases |events|
  {
    if events == [] then 0
    else
      (if Replaces(s, events[0], project, g) then 1 else 0)
      + match Next(s, events[0]) case Some(t) => Replacements(t, events[1..], project, g) case None => 0
  }

  /** What one step does to the registry: nothing, or the swap of the one process that holds the
      lock. */
  lemma StepSwaps(s: System, e: Event, t: System, project: string, g: nat)
    requires Inv(s) && Next(s, e) == Some(t)
    ensures Replaces(s, e, project, g) ==> !Spent(s.registry, project, g) && Spent(t.registry, project, g)
    ensures Spent(s.registry, project, g) ==> Spent(t.registry, project, g)
    ensures t.registry != s.registry ==> e.Write? && t.registry.generation == s.registry.generation + 1
  {
    if e.Write? {
      assert JobOk(s, e.pid);
      var job := s.jobs[e.pid];
      var c :| job.phase.verdict == Decide(s.registry, Some(c), job.request, job.at);
      ChangeIsSwap(s.registry, c, job.request, job.at, t.registry);
    }
  }

  /** Over every run of syncs, crashes and failures, a candidate based on generation `g` changes the
      registry at most once, and never once the project is past `g`. */
  lemma {:induction false} AtMostOnce(s: System, events: seq<Event>, t: System, project: string, g: nat)
    requires Inv(s) && Run(s, events) == Some(t)
    ensures Replacements(s, events, project, g) <= (if Spent(s.registry, project, g) then 0 else 1)
    decreases |events|
  {
    if events != [] {
      var m := Next(s, events[0]).value;
      NextKeeps(s, events[0], m);
      StepSwaps(s, events[0], m, project, g);
      AtMostOnce(m, events[1..], t, project, g);
    }
  }

  function Writes(events: seq<Event>): nat {
    if events == [] then 0 else (if events[0].Write? then 1 else 0) + Writes(events[1..])
  }

  /** The registry's own generation counts the replacements of a run. */
  lemma {:induction false} GenerationCounts(s: System, events: seq<Event>, t: System)
    requires Inv(s) && Run(s, events) == Some(t)
    ensures t.registry.generation == s.registry.generation + Writes(events)
    decreases |events|
  {
    if events != [] {
      var m := Next(s, events[0]).value;
      NextKeeps(s, events[0], m);
      if events[0].Write? {
        var job := s.jobs[events[0].pid];
        assert JobOk(s, events[0].pid);
        var c :| job.phase.verdict == Decide(s.registry, Some(c), job.request, job.at);
        ChangeIsSwap(s.registry, c, job.request, job.at, m.registry);
      }
      GenerationCounts(m, events[1..], t);
    }
  }

  // ---------------------------------------------------------------------------------------
  // A sync as it updates the files
  // ---------------------------------------------------------------------------------------

  datatype Outcome = Done(changed: bool) | Busy | Failed

  /** The files one host shares: the registry, its lock and the candidates. */
  class Host {
    var registry: File
    var lock: Option<nat>
    var candidates: map<string, Candidate>

    constructor (f: File)
      ensures registry == f && lock == None && candidates == map[]
    {
      registry, lock, candidates := f, None, map[];
    }

    /** `sync`: compare and swap under the lock, then drop the candidate. */
    method Sync(token: nat, r: Request, at: string) returns (outcome: Outcome)
      requires lock != Some(token)
      modifies this
      ensures lock == old(lock)
      ensures outcome == Busy <==> old(lock).Some?
      ensures outcome == Busy || outcome == Failed ==> registry == old(registry) && candidates == old(candidates)
      ensures outcome.Done? ==> r.path in old(candidates) && candidates == old(candidates) - {r.path}
      ensures outcome == Done(false) ==>
        registry == old(registry) && Decide(registry, Some(old(candidates)[r.path]), r, at) == Unchanged
      ensures outcome == Done(true) ==>
        Decide(old(registry), Some(old(candidates)[r.path]), r, at) == Changed(registry)
      ensures outcome == Failed ==>
        Decide(registry, if r.path in candidates then Some(candidates[r.path]) else None, r, at) == Refused
      ensures old(lock).None? ==>
        (outcome.Done? <==>
           && r.path in old(candidates) && Comparable(old(registry), old(candidates)[r.path], r)
           && (SaysSame(old(registry), old(candidates)[r.path], r) || old(registry).generation != MAX_U64))
      ensures outcome.Done? ==> (outcome.changed <==> !SaysSame(old(registry), old(candidates)[r.path], r))
    {
      if r.path in candidates { DecideIs(registry, candidates[r.path], r, at); }
      if lock.Some? { return Busy; }
      lock := Some(token);
      var candidate := if r.path in candidates then Some(candidates[r.path]) else None;
      var verdict := Decide(registry, candidate, r, at);
      match verdict {
        case Refused =>
          lock := None;
          return Failed;
        case Unchanged =>
        case Changed(next) => registry := next;
      }
      candidates := candidates - {r.path};
      if lock == Some(token) { lock := None; }
      return Done(verdict.Changed?);
    }
  }
}
