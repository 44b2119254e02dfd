/** The scheduler of `engine/src/native_loop.rs`: cohorts in a wave, waves in a watching run, and
    the bounded wait between waves. What the environment answers is a finite script, so a result
    of `None` stands for a run that is still going; every run is covered by its prefixes. */
module WatchLoop {
  import opened Text
  import opened StatusText

  // ---------------------------------------------------------------------------------------
  // Waiting
  // ---------------------------------------------------------------------------------------

  datatype Readiness = Pending | Exhausted(escalated: nat)

  /** What one poll finds: the lease still held, the stop marker (none when it cannot be observed),
      the pause marker, and the queue. */
  datatype Observation = Observation(lease: bool, stop: Option<bool>, pause: bool, queue: Readiness)

  datatype Action = CheckLease | CheckStop | CheckPause | Sleep(interval: nat) | ReadQueue

  /** Why a run ends. */
  datatype Halt = Stopped | Held | Escalates(count: nat) | Failed

  datatype Wakeup = Work | Halts(halt: Halt)

  function Min(a: nat, b: nat): nat { if a < b then a else b }
  function Max(a: nat, b: nat): nat { if a < b then b else a }

  function Power(k: nat): (p: nat)
    ensures p >= 1
  {
    if k == 0 then 1 else 2 * Power(k - 1)
  }

  /** The interval of the `k`-th wait in a row. */
  function Interval(initial: nat, max: nat, k: nat): nat { Min(initial * Power(k), max) }

  lemma IntervalDoubles(initial: nat, max: nat, k: nat)
    ensures Interval(initial, max, k + 1) == Min(Interval(initial, max, k) * 2, max)
  {
    assert Power(k + 1) == 2 * Power(k);
    assert initial * (2 * Power(k)) == initial * Power(k) * 2;
  }

  /** The observation lets the wait go on to its sleep. */
  predicate Clear(o: Observation) { o.lease && o.stop == Some(false) && !o.pause }

  /** The poll finds the lane empty, and nothing to stop for. */
  predicate Idle(o: Observation) { Clear(o) && o.queue == Exhausted(0) }

  /** How a poll may end the wait. */
  predicate Wakes(o: Observation, wakeup: Wakeup) {
    match wakeup
    case Work => Clear(o) && o.queue == Pending
    case Halts(Failed) => !o.lease || o.stop.None?
    case Halts(Stopped) => o.lease && o.stop.Some? && o.stop.value
    case Halts(Held) => o.lease && o.stop == Some(false) && o.pause
    case Halts(Escalates(n)) => Clear(o) && n > 0 && o.queue == Exhausted(n)
  }

  /** A poll leaves the wait going or ends it in one way. */
  lemma WakesOnce(o: Observation, wakeup: Wakeup, other: Wakeup)
    ensures Wakes(o, wakeup) ==> !Idle(o) && (Wakes(o, other) ==> wakeup == other)
  {}

  /** The `n` polls ahead of one found nothing. */
  predicate IdleUntil(polls: seq<Observation>, n: nat) { n <= |polls| && forall k | 0 <= k < n :: Idle(polls[k]) }

  /** What the wait does at its step `i`, five steps making one whole poll. */
  function ActionAt(initial: nat, max: nat, i: nat): Action {
    match i % 5
    case 0 => CheckLease
    case 1 => CheckStop
    case 2 => CheckPause
    case 3 => Sleep(Interval(initial, max, i / 5))
    case _ => ReadQueue
  }

  /** A wait as far as it has gone. */
  predicate Steps(actions: seq<Action>, initial: nat, max: nat) {
    forall i | 0 <= i < |actions| :: actions[i] == ActionAt(initial, max, i)
  }

  /** How many steps the poll takes that ends the wait. */
  function LastSteps(o: Observation): nat { if !o.lease then 1 else if o.stop != Some(false) then 2 else if o.pause then 3 else 5 }

  /** Each queue read comes right after the lease, stop and pause checks of its own poll and one
      sleep, and the `k`-th sleep has the length of the `k`-th interval. */
  predicate Guarded(actions: seq<Action>, initial: nat, max: nat) {
    forall i | 0 <= i < |actions| ::
      && (actions[i] == ReadQueue ==> i >= 4 && actions[i - 1].Sleep?)
      && (actions[i].Sleep? ==> i >= 3 && actions[i - 3..i] == [CheckLease, CheckStop, CheckPause]
                                && actions[i] == Sleep(Interval(initial, max, i / 5)))
  }

  lemma StepsGuarded(actions: seq<Action>, initial: nat, max: nat)
    requires Steps(actions, initial, max)
    ensures Guarded(actions, initial, max)
  {
    forall i | 0 <= i < |actions| && actions[i].Sleep?
      ensures i >= 3 && actions[i - 3..i] == [CheckLease, CheckStop, CheckPause] && actions[i] == Sleep(Interval(initial, max, i / 5))
    {
      assert actions[i] == ActionAt(initial, max, i) && i % 5 == 3;
      assert actions[i - 3] == ActionAt(initial, max, i - 3) && actions[i - 2] == ActionAt(initial, max, i - 2) && actions[i - 1] == ActionAt(initial, max, i - 1);
    }
    forall i | 0 <= i < |actions| && actions[i] == ReadQueue ensures i >= 4 && actions[i - 1].Sleep? {
      assert actions[i] == ActionAt(initial, max, i) && i % 5 == 4;
      assert actions[i - 1] == ActionAt(initial, max, i - 1);
    }
  }

  lemma OnePoll(actions: seq<Action>, initial: nat, max: nat, n: nat)
    requires Steps(actions, initial, max) && |actions| == 5 * n
    ensures Steps(actions + [CheckLease], initial, max)
    ensures Steps(actions + [CheckLease, CheckStop], initial, max)
    ensures Steps(actions + [CheckLease, CheckStop, CheckPause], initial, max)
    ensures Steps(actions + [CheckLease, CheckStop, CheckPause, Sleep(Interval(initial, max, n)), ReadQueue], initial, max)
  {
    assert (5 * n + 3) / 5 == n && (5 * n + 3) % 5 == 3 && (5 * n) % 5 == 0 && (5 * n + 4) % 5 == 4;
    assert (5 * n + 1) % 5 == 1 && (5 * n + 2) % 5 == 2;
  }

  /** `wait_for_current_lane_work`: each queue read comes after the lease, stop and pause checks of
      its own poll and after one spent interval; the `k`-th wait is the bounded doubling of the
      first; and only a clear poll that found work wakes up to work. */
  method WaitForWork(polls: seq<Observation>, initial: nat, max: nat) returns (wakeup: Option<Wakeup>, actions: seq<Action>, n: nat)
    requires initial <= max
    ensures IdleUntil(polls, n) && Guarded(actions, initial, max)
    ensures n == |polls| ==> wakeup == None && |actions| == 5 * n
    ensures n < |polls| ==> wakeup.Some? && Wakes(polls[n], wakeup.value) && |actions| == 5 * n + LastSteps(polls[n])
  {
    wakeup, actions, n := StepByStep(polls, initial, max);
    StepsGuarded(actions, initial, max);
  }

  /** The wait, with each of its steps. */
  method StepByStep(polls: seq<Observation>, initial: nat, max: nat) returns (wakeup: Option<Wakeup>, actions: seq<Action>, n: nat)
    requires initial <= max
    ensures IdleUntil(polls, n) && Steps(actions, initial, max)
    ensures n == |polls| ==> wakeup == None && |actions| == 5 * n
    ensures n < |polls| ==> wakeup.Some? && Wakes(polls[n], wakeup.value) && |actions| == 5 * n + LastSteps(polls[n])
  {
    var interval := initial;
    actions, n := [], 0;
    while n < |polls|
      invariant IdleUntil(polls, n) && |actions| == 5 * n
      invariant interval == Interval(initial, max, n) && Steps(actions, initial, max)
    {
      var o := polls[n];
      OnePoll(actions, initial, max, n);
      if !o.lease { return Some(Halts(Failed)), actions + [CheckLease], n; }
      if o.stop != Some(false) {
        return Some(Halts(if o.stop.None? then Failed else Stopped)), actions + [CheckLease, CheckStop], n;
      }
      if o.pause { return Some(Halts(Held)), actions + [CheckLease, CheckStop, CheckPause], n; }
      actions := actions + [CheckLease, CheckStop, CheckPause, Sleep(interval), ReadQueue];
      match o.queue {
        case Pending => return Some(Work), actions, n;
        case Exhausted(count) => if count > 0 { return Some(Halts(Escalates(count))), actions, n; }
      }
      IntervalDoubles(initial, max, n);
      interval := Min(interval * 2, max);
      n := n + 1;
    }
    return None, actions, n;
  }

  // ---------------------------------------------------------------------------------------
  // Batch ids
  // ---------------------------------------------------------------------------------------

  /** The batch id of wave `w` of a run, and of cohort `c` in a wave. */
  function WaveId(first: string, w: nat): string { if w == 1 then first else first + ("-w" + PrintNat(w)) }

  function CohortId(wave: string, c: nat): string { if c == 1 then wave else wave + ("-" + PrintNat(c)) }

  function BatchId(first: string, w: nat, c: nat): string { CohortId(WaveId(first, w), c) }

  /** The part of a batch id behind the first one. */
  function Suffix(w: nat, c: nat): string {
    (if w == 1 then "" else "-w" + PrintNat(w)) + (if c == 1 then "" else "-" + PrintNat(c))
  }

  lemma IdIsSuffixed(first: string, w: nat, c: nat)
    ensures BatchId(first, w, c) == first + Suffix(w, c)
  {
    var a, b := if w == 1 then "" else "-w" + PrintNat(w), if c == 1 then "" else "-" + PrintNat(c);
    Assoc(first, a, b);
    assert first + "" == first && a + "" == a && first + a + "" == first + a;
  }

  lemma DigitsOnly(n: nat)
    ensures '-' !in PrintNat(n) && 'w' !in PrintNat(n) && PrintNat(n) != ""
  {
    assert forall c | c in PrintNat(n) :: IsDigit(c);
  }

  lemma PrintInjective(a: nat, b: nat)
    requires PrintNat(a) == PrintNat(b)
    ensures a == b
  {
    PrintedValue(a);
    PrintedValue(b);
  }

  /** How a suffix splits at its dashes. */
  lemma SuffixParts(w: nat, c: nat)
    ensures Split(Suffix(w, c), '-') ==
            [""] + (if w == 1 then [] else ["w" + PrintNat(w)]) + (if c == 1 then [] else [PrintNat(c)])
  {
    DigitsOnly(w);
    DigitsOnly(c);
    var cohort := if c == 1 then "" else "-" + PrintNat(c);
    CohortParts(c, cohort);
    if w == 1 {
      assert Suffix(w, c) == cohort && [""] + [] == [""];
    } else {
      WaveParts(w, cohort);
      assert Suffix(w, c) == "-w" + PrintNat(w) + cohort;
    }
  }

  lemma CohortParts(c: nat, cohort: string)
    requires cohort == (if c == 1 then "" else "-" + PrintNat(c))
    ensures Split(cohort, '-') == [""] + (if c == 1 then [] else [PrintNat(c)])
  {
    DigitsOnly(c);
    if c != 1 {
      SplitNowhere(PrintNat(c), '-');
      assert "" + (['-'] + PrintNat(c)) == cohort;
      SplitAt("", PrintNat(c), '-');
    }
  }

  lemma WaveParts(w: nat, cohort: string)
    requires cohort == "" || cohort[0] == '-'
    ensures Split("-w" + PrintNat(w) + cohort, '-') == ["", "w" + PrintNat(w)] + Split(cohort, '-')[1..]
  {
    DigitsOnly(w);
    var word := "w" + PrintNat(w);
    assert '-' !in word;
    assert "-w" + PrintNat(w) + cohort == "" + (['-'] + (word + cohort));
    SplitAt("", word + cohort, '-');
    if cohort == "" {
      assert word + cohort == word;
      SplitNowhere(word, '-');
    } else {
      assert word + cohort == word + (['-'] + cohort[1..]);
      SplitAt(word, cohort[1..], '-');
      assert cohort == "" + (['-'] + cohort[1..]);
      SplitAt("", cohort[1..], '-');
    }
  }

  /** No two cohorts of a run share a batch id. */
  lemma BatchIdsAreDistinct(first: string, w: nat, c: nat, w2: nat, c2: nat)
    requires BatchId(first, w, c) == BatchId(first, w2, c2)
    ensures w == w2 && c == c2
  {
    IdIsSuffixed(first, w, c);
    IdIsSuffixed(first, w2, c2);
    assert (first + Suffix(w, c))[|first|..] == Suffix(w, c) && (first + Suffix(w2, c2))[|first|..] == Suffix(w2, c2);
    SuffixParts(w, c);
    SuffixParts(w2, c2);
    DigitsOnly(c);
    DigitsOnly(c2);
    SamePartsSameNumbers(w, c, w2, c2, Split(Suffix(w, c), '-'));
  }

  lemma SamePartsSameNumbers(w: nat, c: nat, w2: nat, c2: nat, parts: seq<string>)
    requires parts == [""] + (if w == 1 then [] else ["w" + PrintNat(w)]) + (if c == 1 then [] else [PrintNat(c)])
    requires parts == [""] + (if w2 == 1 then [] else ["w" + PrintNat(w2)]) + (if c2 == 1 then [] else [PrintNat(c2)])
    ensures w == w2 && c == c2
  {
    DigitsOnly(c);
    DigitsOnly(c2);
    if w != 1 { WordNumber(w, parts[1]); }
    if w2 != 1 { WordNumber(w2, parts[1]); }
    if c != 1 && w == 1 { assert parts[1] == PrintNat(c) && parts[1][0] in PrintNat(c); }
    if c2 != 1 && w2 == 1 { assert parts[1] == PrintNat(c2) && parts[1][0] in PrintNat(c2); }
    if w != 1 && w2 != 1 { PrintInjective(w, w2); }
    if c != 1 && c2 != 1 && (w == 1 <==> w2 == 1) {
      assert parts[|parts| - 1] == PrintNat(c) && parts[|parts| - 1] == PrintNat(c2);
      PrintInjective(c, c2);
    }
  }

  lemma WordNumber(w: nat, word: string)
    requires word == "w" + PrintNat(w)
    ensures word != "" && word[0] == 'w' && word[1..] == PrintNat(w)
  {}

  // ---------------------------------------------------------------------------------------
  // Cohorts and waves
  // ---------------------------------------------------------------------------------------

  const MAX_WAVES: nat := 4294967295

  /** How one cohort ended: completed, with what the queue says next and whether it was a fresh
      cohort that admitted nothing; or not. */
  datatype Cohort = Completed(queue: Readiness, stuck: bool) | NothingToDo | Stops(halt: Halt)

  datatype WaveEnd = Drained | Nothing | Ended(halt: Halt)

  /** The cohort got on with the queue, and more is waiting: the only one another may follow. */
  predicate GoesOn(cohort: Cohort) { cohort == Completed(Pending, false) }

  /** The cohort left the lane empty. */
  predicate Empties(cohort: Cohort) { cohort.Completed? && cohort.queue == Exhausted(0) }

  /** The cohort ends the run: as it was stopped itself, for entries that need an operator, or on
      hold since it was a fresh one that admitted none of the waiting tasks. */
  predicate HaltsWith(cohort: Cohort, halt: Halt) {
    || cohort == Stops(halt)
    || (cohort == Completed(Pending, true) && halt == Held)
    || (cohort.Completed? && halt.Escalates? && halt.count > 0 && cohort.queue == Exhausted(halt.count))
  }

  /** A wave runs exactly its first `n` cohorts, and ends as the last of them says; or it is still
      going. */
  predicate RanCohorts(cohorts: seq<Cohort>, n: nat, end: Option<WaveEnd>) {
    && n <= |cohorts| && (forall k | 0 <= k < n - 1 :: GoesOn(cohorts[k]))
    && match end
       case None => n == |cohorts| && (n > 0 ==> GoesOn(cohorts[n - 1]))
       case Some(Nothing) => n == 1 && cohorts[0] == NothingToDo
       case Some(Drained) => (n > 0 && Empties(cohorts[n - 1])) || (n > 1 && cohorts[n - 1] == NothingToDo)
       case Some(Ended(halt)) => n > 0 && HaltsWith(cohorts[n - 1], halt)
  }

  /** The cohorts of a wave determine how many of them run and how the wave ends. */
  lemma WaveEndsOnce(cohorts: seq<Cohort>, n: nat, end: Option<WaveEnd>, n2: nat, end2: Option<WaveEnd>)
    requires RanCohorts(cohorts, n, end) && RanCohorts(cohorts, n2, end2)
    ensures n == n2 && end == end2
  {}

  ghost predicate Ran(cohorts: seq<Cohort>, n: nat) { exists end :: RanCohorts(cohorts, n, end) }

  /** The wave left the lane empty. */
  predicate Drains(cohorts: seq<Cohort>, n: nat) {
    RanCohorts(cohorts, n, Some(Drained)) || RanCohorts(cohorts, n, Some(Nothing))
  }

  /** The batch ids of the first `n` cohorts of a wave. */
  function CohortIds(wave: string, n: nat): (ids: seq<string>)
    ensures |ids| == n && forall k | 0 <= k < n :: ids[k] == CohortId(wave, k + 1)
  {
    if n == 0 then [] else CohortIds(wave, n - 1) + [CohortId(wave, n)]
  }

  /** `run_until_queue_exhausted`: cohorts follow one another, each under its own id, until the lane
      is drained or something stops it. */
  method RunUntilExhausted(wave: string, cohorts: seq<Cohort>) returns (end: Option<WaveEnd>, begun: seq<string>)
    requires |cohorts| < MAX_WAVES
    ensures RanCohorts(cohorts, |begun|, end) && begun == CohortIds(wave, |begun|)
  {
    var batch, completed := wave, 0;
    begun := [];
    while completed < |cohorts|
      invariant completed <= |cohorts| && |begun| == completed && batch == CohortId(wave, completed + 1)
      invariant forall k | 0 <= k < completed :: GoesOn(cohorts[k])
      invariant begun == CohortIds(wave, completed)
    {
      begun := begun + [batch];
      match cohorts[completed] {
        case NothingToDo => return Some(if completed == 0 then Nothing else Drained), begun;
        case Stops(halt) => return Some(Ended(halt)), begun;
        case Completed(queue, stuck) =>
          match queue {
            case Exhausted(n) => return Some(if n == 0 then Drained else Ended(Escalates(n))), begun;
            case Pending =>
          }
          if stuck { return Some(Ended(Held)), begun; }
      }
      completed := completed + 1;
      batch := wave + ("-" + PrintNat(Min(completed + 1, MAX_WAVES)));
    }
    return None, begun;
  }

  /** What the environment does in one wave and in the wait after it. */
  datatype Wave = Wave(cohorts: seq<Cohort>, polls: seq<Observation>)

  /** The ids of all cohorts of the first waves, wave `w` having run `counts[w - 1]` of them. */
  function AllIds(first: string, counts: seq<nat>): seq<string> {
    if counts == [] then []
    else AllIds(first, counts[..|counts| - 1]) + CohortIds(WaveId(first, |counts|), counts[|counts| - 1])
  }

  /** A batch id of some cohort of the first waves. */
  ghost predicate IsIdOf(id: string, first: string, counts: seq<nat>) {
    exists w: nat, c: nat :: 1 <= w <= |counts| && 1 <= c <= counts[w - 1] && id == BatchId(first, w, c)
  }

  ghost predicate Distinct(ids: seq<string>) { forall i, j | 0 <= i < j < |ids| :: ids[i] != ids[j] }

  lemma {:induction false} CohortIdsAre(first: string, w: nat, n: nat)
    ensures forall i | 0 <= i < n :: CohortIds(WaveId(first, w), n)[i] == BatchId(first, w, i + 1)
    ensures Distinct(CohortIds(WaveId(first, w), n))
  {
    if n > 0 { CohortIdsAre(first, w, n - 1); }
    forall i, j | 0 <= i < j < n ensures CohortIds(WaveId(first, w), n)[i] != CohortIds(WaveId(first, w), n)[j] {
      if BatchId(first, w, i + 1) == BatchId(first, w, j + 1) { BatchIdsAreDistinct(first, w, i + 1, w, j + 1); }
    }
  }

  /** All batch ids opened in a run, over all its cohorts and waves, are different. */
  lemma {:induction false} AllIdsAreDistinct(first: string, counts: seq<nat>)
    ensures Distinct(AllIds(first, counts)) && forall id | id in AllIds(first, counts) :: IsIdOf(id, first, counts)
    decreases |counts|
  {
    if counts != [] {
      var init, w, n := counts[..|counts| - 1], |counts|, counts[|counts| - 1];
      var before, own := AllIds(first, init), CohortIds(WaveId(first, w), n);
      AllIdsAreDistinct(first, init);
      CohortIdsAre(first, w, n);
      forall id | id in before ensures IsIdOf(id, first, counts) && id !in own { EarlierId(id, first, counts); }
      DistinctJoin(before, own);
      forall id | id in own ensures IsIdOf(id, first, counts) {
        var i :| 0 <= i < n && own[i] == id;
        assert 1 <= w <= |counts| && 1 <= i + 1 <= counts[w - 1] && id == BatchId(first, w, i + 1);
      }
    }
  }

  lemma DistinctJoin(a: seq<string>, b: seq<string>)
    requires Distinct(a) && Distinct(b) && forall id | id in a :: id !in b
    ensures Distinct(a + b)
  {
    var all := a + b;
    forall i, j | 0 <= i < j < |all| ensures all[i] != all[j] {
      if i < |a| <= j { assert all[i] in a && all[j] in b; }
    }
  }

  lemma EarlierId(id: string, first: string, counts: seq<nat>)
    requires counts != [] && IsIdOf(id, first, counts[..|counts| - 1])
    ensures IsIdOf(id, first, counts) && id !in CohortIds(WaveId(first, |counts|), counts[|counts| - 1])
  {
    var init, w, n := counts[..|counts| - 1], |counts|, counts[|counts| - 1];
    var w2: nat, c2: nat :| 1 <= w2 <= |init| && 1 <= c2 <= init[w2 - 1] && id == BatchId(first, w2, c2);
    assert 1 <= w2 <= |counts| && 1 <= c2 <= counts[w2 - 1];
    CohortIdsAre(first, w, n);
    var own := CohortIds(WaveId(first, w), n);
    if id in own {
      var i :| 0 <= i < n && own[i] == id;
      BatchIdsAreDistinct(first, w, i + 1, w2, c2);
    }
  }

  const MIN_INTERVAL: nat := 50

  /** The waves that were run, each with the number of its cohorts: every wave but the last drained
      its lane, and the wait after it ended in a clear poll that found work. */
  ghost predicate RanWaves(waves: seq<Wave>, counts: seq<nat>) {
    && |counts| <= |waves|
    && (forall w | 0 <= w < |counts| :: Ran(waves[w].cohorts, counts[w]))
    && (forall w | 0 <= w < |counts| - 1 :: Drains(waves[w].cohorts, counts[w]) && Woken(waves[w].polls))
  }

  /** The first poll that does not leave the wait going ends it in this way. */
  ghost predicate WaitEnds(polls: seq<Observation>, wakeup: Wakeup) {
    exists n: nat :: n < |polls| && IdleUntil(polls, n) && Wakes(polls[n], wakeup)
  }

  ghost predicate Woken(polls: seq<Observation>) { WaitEnds(polls, Work) }

  /** What a run comes to in its last wave: what stopped that wave or the wait after it, or nothing
      while either is still going; `last` tells that no wave was to follow. */
  ghost predicate Concludes(wave: Wave, n: nat, last: bool, outcome: Option<Halt>) {
    match outcome
    case Some(halt) =>
      || RanCohorts(wave.cohorts, n, Some(Ended(halt)))
      || (Drains(wave.cohorts, n) && WaitEnds(wave.polls, Halts(halt)))
    case None =>
      || RanCohorts(wave.cohorts, n, None)
      || (Drains(wave.cohorts, n) && (IdleUntil(wave.polls, |wave.polls|) || (last && Woken(wave.polls))))
  }

  /** The waits of a run: their intervals start at the configured one and double up to the largest,
      and neither is below the least interval there is. */
  predicate Paced(waits: seq<seq<Action>>, initial: nat, max: nat) {
    forall wait | wait in waits :: Guarded(wait, Max(initial, MIN_INTERVAL), Max(max, Max(initial, MIN_INTERVAL)))
  }

  lemma MoreWaits(waits: seq<seq<Action>>, more: seq<seq<Action>>, initial: nat, max: nat)
    requires Paced(waits, initial, max) && Paced(more, initial, max)
    ensures Paced(waits + more, initial, max)
  {}

  /** What holds of a run whose waves so far began `begun` and waited `waits`. */
  ghost predicate SoFar(first: string, waves: seq<Wave>, counts: seq<nat>, begun: seq<string>, waits: seq<seq<Action>>, initial: nat, max: nat) {
    RanWaves(waves, counts) && begun == AllIds(first, counts) && Distinct(begun) && Paced(waits, initial, max)
  }

  /** The run ends as the last wave that opened, or the wait behind it, says. */
  ghost predicate EndsWith(waves: seq<Wave>, counts: seq<nat>, outcome: Option<Halt>) {
    && |counts| <= |waves|
    && if counts == [] then waves == [] && outcome == None
       else Concludes(waves[|counts| - 1], counts[|counts| - 1], |counts| == |waves|, outcome)
  }

  lemma StopsBehind(waves: seq<Wave>, counts: seq<nat>, outcome: Option<Halt>)
    requires 0 < |counts| <= |waves| && Concludes(waves[|counts| - 1], counts[|counts| - 1], false, outcome)
    ensures EndsWith(waves, counts, outcome)
  {}

  lemma RunsOut(waves: seq<Wave>, counts: seq<nat>)
    requires |counts| == |waves| && (counts != [] ==> Reopens(waves[|counts| - 1], counts[|counts| - 1]))
    ensures EndsWith(waves, counts, None)
  {}

  lemma OneMore(first: string, waves: seq<Wave>, counts: seq<nat>, begun: seq<string>, waits: seq<seq<Action>>,
                ids: seq<string>, wait: seq<seq<Action>>, initial: nat, max: nat)
    requires SoFar(first, waves, counts, begun, waits, initial, max) && |counts| < |waves|
    requires Ran(waves[|counts|].cohorts, |ids|) && ids == CohortIds(WaveId(first, |counts| + 1), |ids|)
    requires counts != [] ==> Reopens(waves[|counts| - 1], counts[|counts| - 1])
    requires Paced(wait, initial, max)
    ensures SoFar(first, waves, counts + [|ids|], begun + ids, waits + wait, initial, max)
  {
    MoreWaves(waves, counts, |ids|);
    MoreIds(first, counts, |ids|);
    MoreWaits(waits, wait, initial, max);
    NoTwoAlike(first, counts + [|ids|]);
  }

  lemma NoTwoAlike(first: string, counts: seq<nat>)
    ensures Distinct(AllIds(first, counts))
  {
    AllIdsAreDistinct(first, counts);
  }

  /** `run_watching`: waves of cohorts and waits. Every cohort of the run has an id of its own;
      after the first no wave opens but behind a drained lane and a poll that found the lease held,
      no stop, no pause, and work; and the run ends as its last wave or wait says. */
  method RunWatching(first: string, waves: seq<Wave>, initial: nat, max: nat)
    returns (outcome: Option<Halt>, begun: seq<string>, counts: seq<nat>, waits: seq<seq<Action>>)
    requires |waves| < MAX_WAVES && forall wave | wave in waves :: |wave.cohorts| < MAX_WAVES
    ensures RanWaves(waves, counts) && begun == AllIds(first, counts) && Distinct(begun)
    ensures EndsWith(waves, counts, outcome)
    ensures |waits| <= |counts| <= |waits| + 1 && Paced(waits, initial, max)
  {
    var batch, i := first, 0;
    outcome, begun, counts, waits := None, [], [], [];
    while i < |waves|
      invariant i <= |waves| && |counts| == i && |waits| == i && batch == WaveId(first, i + 1)
      invariant SoFar(first, waves, counts, begun, waits, initial, max)
      invariant i > 0 ==> Reopens(waves[i - 1], counts[i - 1])
      invariant EndsWith(waves, counts, None) || i < |waves|
    {
      var over, ids, wait := RunWave(batch, waves[i], initial, max);
      OneMore(first, waves, counts, begun, waits, ids, wait, initial, max);
      counts, begun, waits := counts + [|ids|], begun + ids, waits + wait;
      if over.Some? {
        StopsBehind(waves, counts, over.value);
        return over.value, begun, counts, waits;
      }
      if |counts| == |waves| { RunsOut(waves, counts); }
      i := i + 1;
      batch := first + ("-w" + PrintNat(Min(i + 1, MAX_WAVES)));
    }
  }

  /** One turn of `run_watching`: a wave and, behind a drained lane, the wait for the next. */
  method RunWave(batch: string, wave: Wave, initial: nat, max: nat)
    returns (over: Option<Option<Halt>>, ids: seq<string>, wait: seq<seq<Action>>)
    requires |wave.cohorts| < MAX_WAVES
    ensures Ran(wave.cohorts, |ids|) && ids == CohortIds(batch, |ids|)
    ensures |wait| <= 1 && Paced(wait, initial, max)
    ensures match over case Some(outcome) => Concludes(wave, |ids|, false, outcome) case None => Reopens(wave, |ids|) && |wait| == 1
  {
    var end;
    end, ids := RunUntilExhausted(batch, wave.cohorts);
    wait := [];
    if end.None? || end.value.Ended? { return Some(if end.None? then None else Some(end.value.halt)), ids, wait; }
    var from := Max(initial, MIN_INTERVAL);
    var wakeup, actions, polled := WaitForWork(wave.polls, from, Max(max, from));
    wait := [actions];
    if wakeup != Some(Work) { return Some(if wakeup.None? then None else Some(wakeup.value.halt)), ids, wait; }
    return None, ids, wait;
  }

  /** A wave after which another one opens. */
  ghost predicate Reopens(wave: Wave, n: nat) { Drains(wave.cohorts, n) && Woken(wave.polls) }

  lemma MoreWaves(waves: seq<Wave>, counts: seq<nat>, n: nat)
    requires RanWaves(waves, counts) && |counts| < |waves| && Ran(waves[|counts|].cohorts, n)
    requires counts != [] ==> Reopens(waves[|counts| - 1], counts[|counts| - 1])
    ensures RanWaves(waves, counts + [n])
  {}

  lemma MoreIds(first: string, counts: seq<nat>, n: nat)
    ensures AllIds(first, counts + [n]) == AllIds(first, counts) + CohortIds(WaveId(first, |counts| + 1), n)
  {
    assert (counts + [n])[..|counts|] == counts;
  }
}
