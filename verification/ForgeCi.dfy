/** The CI gate of `engine/src/forge_ci.rs`: a pass needs a positive result for every selected check
    of the published commit, on a page that is the whole list; everything unproven is pending. */
module ForgeCi {
  import opened Text
  import CommandLine

  // ---------------------------------------------------------------------------------------
  // Verdicts
  // ---------------------------------------------------------------------------------------

  datatype Verdict = Success | Failure | Unsettled

  /** A check as reported: GitLab's name or Gitea's context, and its raw state. */
  datatype Check = Check(id: nat, name: string, state: string, sha: string, allowFailure: bool)

  datatype Poll = Passing | Pending | Failing(check: Check)

  datatype Forge = GitLab | Gitea

  function Normal(state: string): string { CommandLine.Lower(Trim(state)) }

  /** `gitlab_verdict` and `gitea_verdict`. */
  function VerdictOf(forge: Forge, state: string): Verdict {
    if state == "success" || state == "skipped" then Success
    else if forge == GitLab && state in {"failed", "canceled", "cancelled", "canceling", "cancelling"} then Failure
    else if forge == Gitea && state in {"error", "failure", "warning"} then Failure
    else Unsettled
  }

  predicate Green(check: Check) { Normal(check.state) == "success" || Normal(check.state) == "skipped" }

  /** The words for a failed check that GitLab knows. */
  predicate GitLabRed(state: string) {
    || state == "failed" || state == "canceled" || state == "cancelled"
    || state == "canceling" || state == "cancelling"
  }

  /** The words for a failed check that Gitea knows; a warning is one. */
  predicate GiteaRed(state: string) { state == "error" || state == "failure" || state == "warning" }

  predicate Red(forge: Forge, check: Check) {
    match forge case GitLab => GitLabRed(Normal(check.state)) case Gitea => GiteaRed(Normal(check.state))
  }

  lemma VerdictIs(forge: Forge, check: Check)
    ensures VerdictOf(forge, Normal(check.state)) ==
            if Green(check) then Success else if Red(forge, check) then Failure else Unsettled
  {}

  /** Blanks around a state do not matter, nor does its case. */
  lemma NormalIgnores(state: string, other: string, before: string, behind: string)
    requires Blank(before) && Blank(behind) && state != "" && !IsWhitespace(state[0]) && !IsWhitespace(state[|state| - 1])
    requires |other| == |state|
    requires forall i | 0 <= i < |state| ::
               other[i] == if 'A' <= state[i] <= 'Z' then (state[i] as int + 32) as char else state[i]
    ensures Normal(before + (state + behind)) == other
  {
    TrimStartBlank(before, state + behind);
    TrimEndBlank(state, behind);
    assert CommandLine.Lower(state) == other;
  }

  /** The check at `i` is the first that is not green. */
  predicate Decides(selected: seq<Check>, i: nat) {
    i < |selected| && !Green(selected[i]) && forall j | 0 <= j < i :: Green(selected[j])
  }

  /** What a list of selected checks comes to: passing when all are green, failing with the first
      that is not green if it is red, and pending if that one is neither. */
  ghost predicate ComesTo(forge: Forge, selected: seq<Check>, r: Poll) {
    && (r == Passing <==> forall c | c in selected :: Green(c))
    && (forall c :: r == Failing(c) <==> exists i: nat :: Decides(selected, i) && selected[i] == c && Red(forge, c))
    && (r == Pending <==> exists i: nat :: Decides(selected, i) && !Red(forge, selected[i]))
  }

  /** `classify_selected`: the first check that is not green decides. */
  function Fold(forge: Forge, selected: seq<Check>): Poll {
    if selected == [] then Passing
    else
      match VerdictOf(forge, Normal(selected[0].state))
      case Success => Fold(forge, selected[1..])
      case Failure => Failing(selected[0])
      case Unsettled => Pending
  }

  method ClassifySelected(forge: Forge, selected: seq<Check>) returns (r: Poll)
    ensures r == Fold(forge, selected) && ComesTo(forge, selected, r)
  {
    var i := 0;
    while i < |selected|
      invariant i <= |selected| && forall j | 0 <= j < i :: Green(selected[j])
    {
      VerdictIs(forge, selected[i]);
      match VerdictOf(forge, Normal(selected[i].state)) {
        case Success =>
        case Failure =>
          FirstDecides(forge, selected, i);
          return Failing(selected[i]);
        case Unsettled =>
          FirstDecides(forge, selected, i);
          return Pending;
      }
      i := i + 1;
    }
    AllGreenPass(forge, selected);
    return Passing;
  }

  /** The first check that is not green settles the answer. */
  lemma {:induction false} FirstDecides(forge: Forge, selected: seq<Check>, i: nat)
    requires Decides(selected, i)
    ensures Fold(forge, selected) == if Red(forge, selected[i]) then Failing(selected[i]) else Pending
    ensures ComesTo(forge, selected, Fold(forge, selected))
    decreases i
  {
    VerdictIs(forge, selected[0]);
    if i > 0 {
      ShiftDecides(selected, i);
      FirstDecides(forge, selected[1..], i - 1);
    }
    Settles(forge, selected, i, Fold(forge, selected));
  }

  lemma ShiftDecides(selected: seq<Check>, i: nat)
    requires Decides(selected, i) && i > 0
    ensures Decides(selected[1..], i - 1) && selected[1..][i - 1] == selected[i] && Green(selected[0])
  {}

  lemma Settles(forge: Forge, selected: seq<Check>, i: nat, r: Poll)
    requires Decides(selected, i) && r == if Red(forge, selected[i]) then Failing(selected[i]) else Pending
    ensures ComesTo(forge, selected, r)
  {
    assert selected[i] in selected;
    forall k: nat | Decides(selected, k) ensures k == i {}
  }

  lemma {:induction false} AllGreenPass(forge: Forge, selected: seq<Check>)
    requires forall i | 0 <= i < |selected| :: Green(selected[i])
    ensures Fold(forge, selected) == Passing && ComesTo(forge, selected, Passing)
  {
    if selected != [] {
      VerdictIs(forge, selected[0]);
      AllGreenPass(forge, selected[1..]);
    }
    assert forall k: nat :: !Decides(selected, k);
  }

  lemma FoldComesTo(forge: Forge, selected: seq<Check>)
    ensures ComesTo(forge, selected, Fold(forge, selected))
  {
    if i: nat :| i < |selected| && !Green(selected[i]) {
      var k := FirstNot(selected, i);
      FirstDecides(forge, selected, k);
    } else {
      AllGreenPass(forge, selected);
    }
  }

  lemma {:induction false} FirstNot(selected: seq<Check>, i: nat) returns (k: nat)
    requires i < |selected| && !Green(selected[i])
    ensures Decides(selected, k)
  {
    if j: nat :| j < i && !Green(selected[j]) {
      k := FirstNot(selected, j);
    } else {
      k := i;
    }
  }

  // ---------------------------------------------------------------------------------------
  // Selection
  // ---------------------------------------------------------------------------------------

  predicate Named(check: Check, required: string) { Trim(check.name) == required }

  /** The check of a name with the highest id, the last of equals. */
  function Latest(checks: seq<Check>, required: string): Option<Check> {
    if checks == [] then None
    else
      var last, before := checks[|checks| - 1], Latest(checks[..|checks| - 1], required);
      if !Named(last, required) || (before.Some? && before.value.id > last.id) then before else Some(last)
  }

  lemma {:induction false} LatestIsHighest(checks: seq<Check>, required: string)
    ensures Latest(checks, required).None? <==> forall c | c in checks :: !Named(c, required)
    ensures Latest(checks, required).Some? ==>
      var c := Latest(checks, required).value;
      exists i :: 0 <= i < |checks| && checks[i] == c && Named(c, required)
                  && (forall d | d in checks && Named(d, required) :: d.id <= c.id)
                  && forall j | i < j < |checks| && Named(checks[j], required) :: checks[j].id < c.id
    decreases |checks|
  {
    if checks != [] {
      var init := checks[..|checks| - 1];
      LatestIsHighest(init, required);
      assert checks == init + [checks[|checks| - 1]];
      if Latest(checks, required) == Latest(init, required) && Latest(init, required).Some? && !Named(checks[|checks| - 1], required) {
        var c := Latest(init, required).value;
        var i :| 0 <= i < |init| && init[i] == c && Named(c, required)
                 && (forall d | d in init && Named(d, required) :: d.id <= c.id)
                 && forall j | i < j < |init| && Named(init[j], required) :: init[j].id < c.id;
        assert checks[i] == c;
      }
    }
  }

  /** The checks required by name, if all have reported. */
  function Required(checks: seq<Check>, required: seq<string>): Option<seq<Check>> {
    if required == [] then Some([])
    else
      match (Latest(checks, required[0]), Required(checks, required[1..]))
      case (Some(c), Some(more)) => Some([c] + more)
      case _ => None
  }

  /** Every required name has reported, and its latest report is green. */
  predicate AllGreen(checks: seq<Check>, required: seq<string>) {
    forall name | name in required :: Latest(checks, name).Some? && Green(Latest(checks, name).value)
  }

  lemma {:induction false} RequiredGreen(checks: seq<Check>, required: seq<string>)
    ensures (Required(checks, required).Some? && forall c | c in Required(checks, required).value :: Green(c)) <==> AllGreen(checks, required)
  {
    if required != [] {
      RequiredGreen(checks, required[1..]);
      assert required == [required[0]] + required[1..];
      if Required(checks, required).Some? {
        var more := Required(checks, required[1..]).value;
        assert Required(checks, required).value == [Latest(checks, required[0]).value] + more;
      } else if Latest(checks, required[0]).Some? {
        assert Required(checks, required[1..]).None?;
      }
    }
  }

  /** Every required name has reported. */
  predicate Reported(checks: seq<Check>, required: seq<string>) {
    forall name | name in required :: Latest(checks, name).Some?
  }

  /** The latest report of the required name at `i` is the first of these that is not green. */
  predicate RequiredDecides(checks: seq<Check>, required: seq<string>, i: nat) {
    && i < |required| && Reported(checks, required) && !Green(Latest(checks, required[i]).value)
    && forall j | 0 <= j < i :: Green(Latest(checks, required[j]).value)
  }

  /** `c` is the latest report of a required name, red, and all names ahead of that one are green. */
  ghost predicate RequiredFails(forge: Forge, checks: seq<Check>, required: seq<string>, c: Check) {
    Red(forge, c) && exists i: nat :: RequiredDecides(checks, required, i) && Latest(checks, required[i]).value == c
  }

  lemma {:induction false} RequiredAre(checks: seq<Check>, required: seq<string>)
    ensures Required(checks, required).Some? <==> Reported(checks, required)
    ensures Required(checks, required).Some? ==>
      && |Required(checks, required).value| == |required|
      && forall i | 0 <= i < |required| :: Required(checks, required).value[i] == Latest(checks, required[i]).value
  {
    if required != [] {
      RequiredAre(checks, required[1..]);
      assert required == [required[0]] + required[1..];
    }
  }

  lemma RequiredComesTo(forge: Forge, checks: seq<Check>, required: seq<string>, c: Check)
    ensures Required(checks, required).Some? && Fold(forge, Required(checks, required).value) == Failing(c)
            <==> RequiredFails(forge, checks, required, c)
  {
    RequiredAre(checks, required);
    if Reported(checks, required) {
      var selected := Required(checks, required).value;
      FoldComesTo(forge, selected);
      forall i: nat ensures Decides(selected, i) <==> RequiredDecides(checks, required, i) {}
    }
  }

  // ---------------------------------------------------------------------------------------
  // GitLab
  // ---------------------------------------------------------------------------------------

  const GITLAB_PAGE: nat := 100

  predicate Foreign(sha: string, head: string) { sha != "" && CommandLine.Lower(sha) != CommandLine.Lower(head) }

  predicate SameLetter(a: char, b: char) {
    a == b || ('A' <= a <= 'Z' && b as int == a as int + 32) || ('A' <= b <= 'Z' && a as int == b as int + 32)
  }

  /** A report is about the commit when it names none or the same one, in letters of any case. */
  lemma ForeignWhen(sha: string, head: string)
    ensures Foreign(sha, head) <==>
              sha != "" && !(|sha| == |head| && forall i | 0 <= i < |sha| :: SameLetter(sha[i], head[i]))
  {
    var a, b := CommandLine.Lower(sha), CommandLine.Lower(head);
    if |sha| == |head| {
      forall i | 0 <= i < |sha| ensures a[i] == b[i] <==> SameLetter(sha[i], head[i]) {}
      if a == b {
        forall i | 0 <= i < |sha| ensures SameLetter(sha[i], head[i]) { assert a[i] == b[i]; }
      }
    }
  }

  function Blocking(checks: seq<Check>): seq<Check> {
    if checks == [] then [] else (if checks[0].allowFailure then [] else [checks[0]]) + Blocking(checks[1..])
  }

  /** `classify_gitlab_statuses`. */
  function ClassifyGitLab(head: string, checks: seq<Check>, required: seq<string>): Poll {
    if |checks| >= GITLAB_PAGE || (exists c | c in checks :: Foreign(c.sha, head)) || checks == [] then Pending
    else if required == [] then if Blocking(checks) == [] then Pending else Fold(GitLab, Blocking(checks))
    else match Required(checks, required) case None => Pending case Some(selected) => Fold(GitLab, selected)
  }

  lemma {:induction false} BlockingAre(checks: seq<Check>)
    ensures forall c :: c in Blocking(checks) <==> c in checks && !c.allowFailure
  {
    if checks != [] {
      BlockingAre(checks[1..]);
      assert checks == [checks[0]] + checks[1..];
    }
  }

  /** GitLab passes exactly when the page cannot be truncated, is about this commit, and every
      selected check is green: the latest of each required name, or, with none required, every
      blocking one, of which there is one. */
  lemma GitLabPasses(head: string, checks: seq<Check>, required: seq<string>)
    ensures ClassifyGitLab(head, checks, required) == Passing <==>
              && 0 < |checks| < GITLAB_PAGE && (forall c | c in checks :: !Foreign(c.sha, head))
              && (required != [] ==> AllGreen(checks, required))
              && (required == [] ==> (exists c :: c in checks && !c.allowFailure) && forall c | c in checks && !c.allowFailure :: Green(c))
  {
    BlockingAre(checks);
    FoldComesTo(GitLab, Blocking(checks));
    if Blocking(checks) != [] { assert Blocking(checks)[0] in checks; }
    RequiredGreen(checks, required);
    if Required(checks, required).Some? { FoldComesTo(GitLab, Required(checks, required).value); }
  }

  /** The check at `i` is the first blocking one that is not green. */
  predicate BlockingDecides(checks: seq<Check>, i: nat) {
    && i < |checks| && !checks[i].allowFailure && !Green(checks[i])
    && forall j | 0 <= j < i :: checks[j].allowFailure || Green(checks[j])
  }

  /** `c` is red, and the first of the blocking checks that is not green. */
  ghost predicate BlockingFails(checks: seq<Check>, c: Check) {
    Red(GitLab, c) && exists i: nat :: BlockingDecides(checks, i) && checks[i] == c
  }

  lemma {:induction false} BlockingComesTo(checks: seq<Check>, c: Check)
    ensures Fold(GitLab, Blocking(checks)) == Failing(c) <==> BlockingFails(checks, c)
  {
    if checks != [] {
      var first, rest := checks[0], checks[1..];
      VerdictIs(GitLab, first);
      BlockingComesTo(rest, c);
      if first.allowFailure {
        assert Blocking(checks) == Blocking(rest);
      } else {
        assert Blocking(checks) == [first] + Blocking(rest) && Blocking(checks)[1..] == Blocking(rest);
      }
      if first.allowFailure || Green(first) {
        ShiftBlocking(checks, c);
      } else {
        assert BlockingDecides(checks, 0);
        forall i: nat | BlockingDecides(checks, i) ensures i == 0 {}
      }
    }
  }

  lemma ShiftBlocking(checks: seq<Check>, c: Check)
    requires checks != [] && (checks[0].allowFailure || Green(checks[0]))
    ensures BlockingFails(checks, c) <==> BlockingFails(checks[1..], c)
  {
    forall i: nat | BlockingDecides(checks, i) ensures i > 0 && BlockingDecides(checks[1..], i - 1) && checks[1..][i - 1] == checks[i] {}
    forall i: nat | BlockingDecides(checks[1..], i) ensures BlockingDecides(checks, i + 1) && checks[1..][i] == checks[i + 1] {}
  }

  /** GitLab fails, and with which check, exactly when the page cannot be truncated, is about this
      commit, and the first selected check that is not green is that check and red. */
  lemma GitLabFails(head: string, checks: seq<Check>, required: seq<string>, c: Check)
    ensures ClassifyGitLab(head, checks, required) == Failing(c) <==>
              && 0 < |checks| < GITLAB_PAGE && (forall d | d in checks :: !Foreign(d.sha, head))
              && if required == [] then BlockingFails(checks, c) else RequiredFails(GitLab, checks, required, c)
  {
    BlockingComesTo(checks, c);
    RequiredComesTo(GitLab, checks, required, c);
    if Blocking(checks) == [] { assert Fold(GitLab, Blocking(checks)) == Passing; }
  }

  // ---------------------------------------------------------------------------------------
  // Gitea
  // ---------------------------------------------------------------------------------------

  datatype Combined = Combined(sha: string, total: nat, checks: seq<Check>)

  datatype Answer = Polled(poll: Poll) | Outage

  /** `classify_gitea_statuses`; `next` is the second page, or none when it cannot be fetched. It
      matters only when the first page would pass. */
  function ClassifyGitea(head: string, page: Combined, required: seq<string>, next: Option<Combined>): Answer {
    if page.total != |page.checks| || Foreign(page.sha, head) || page.checks == [] then Polled(Pending)
    else
      var selected := if required == [] then Some(page.checks) else Required(page.checks, required);
      if selected == None then Polled(Pending)
      else if Fold(Gitea, selected.value) != Passing then Polled(Fold(Gitea, selected.value))
      else
        match next
        case None => Outage
        case Some(second) => Polled(if second.checks == [] then Passing else Pending)
  }

  /** The first page is about this commit, has as many checks as it says and one at least. */
  predicate Whole(head: string, page: Combined) {
    page.total == |page.checks| && !Foreign(page.sha, head) && page.checks != []
  }

  /** Gitea fails exactly when the first selected check that is not green is red, whatever is on the
      second page; and the request for that page decides only where all selected checks are green. */
  lemma GiteaFails(head: string, page: Combined, required: seq<string>, next: Option<Combined>, c: Check)
    ensures ClassifyGitea(head, page, required, next) == Polled(Failing(c)) <==>
              && Whole(head, page)
              && if required == [] then Red(Gitea, c) && exists i: nat :: Decides(page.checks, i) && page.checks[i] == c
                 else RequiredFails(Gitea, page.checks, required, c)
    ensures ClassifyGitea(head, page, required, next) == Outage <==>
              && Whole(head, page) && next == None
              && if required == [] then forall d | d in page.checks :: Green(d) else AllGreen(page.checks, required)
  {
    RequiredComesTo(Gitea, page.checks, required, c);
    RequiredGreen(page.checks, required);
    FoldComesTo(Gitea, page.checks);
    if Required(page.checks, required).Some? { FoldComesTo(Gitea, Required(page.checks, required).value); }
  }

  /** A server with `all` statuses for the commit that answers `cap` at a time, whatever was asked
      for, and reports some number as the total. */
  datatype Server = Server(all: seq<Check>, cap: nat, sha: string, reported: nat -> nat)

  /** Page `n` of a server, from page 1. */
  function Page(s: Server, n: nat): Combined
    requires s.cap > 0 && n > 0
  {
    var from := if (n - 1) * s.cap < |s.all| then (n - 1) * s.cap else |s.all|;
    var to := if n * s.cap < |s.all| then n * s.cap else |s.all|;
    assert (n - 1) * s.cap <= n * s.cap;
    Combined(s.sha, s.reported(n), s.all[from..to])
  }

  /** Gitea passes, for every server and every page size it may impose, exactly when the first page
      is the whole list and every selected check on it is green (and the server reports as many as
      it returned, about this commit). */
  lemma GiteaPasses(head: string, s: Server, required: seq<string>)
    requires s.cap > 0
    ensures ClassifyGitea(head, Page(s, 1), required, Some(Page(s, 2))) == Polled(Passing) <==>
              && s.all != [] && |s.all| <= s.cap && Page(s, 1).checks == s.all
              && s.reported(1) == |s.all| && !Foreign(s.sha, head)
              && (if required == [] then forall c | c in s.all :: Green(c) else AllGreen(s.all, required))
  {
    var page := Page(s, 1);
    FirstPageWhole(s);
    RequiredGreen(page.checks, required);
    FoldComesTo(Gitea, page.checks);
    if Required(page.checks, required).Some? { FoldComesTo(Gitea, Required(page.checks, required).value); }
  }

  /** The second page is empty exactly when the first is everything. */
  lemma FirstPageWhole(s: Server)
    requires s.cap > 0
    ensures Page(s, 2).checks == [] <==> |s.all| <= s.cap
    ensures |s.all| <= s.cap ==> Page(s, 1).checks == s.all
    ensures Page(s, 1).checks == [] <==> s.all == []
  {
    assert 1 * s.cap == s.cap && 2 * s.cap == s.cap + s.cap;
  }

  /** Without an answer to the second request there is no pass. */
  lemma NoProofNoPass(head: string, page: Combined, required: seq<string>)
    ensures ClassifyGitea(head, page, required, None) != Polled(Passing)
  {}

  // ---------------------------------------------------------------------------------------
  // Watching
  // ---------------------------------------------------------------------------------------

  const MILLI: nat := 1_000_000

  datatype Outcome = Passed | Failed(check: Check) | Unconfirmed | Degraded

  function Min(a: nat, b: nat): nat { if a < b then a else b }
  function Max(a: nat, b: nat): nat { if a < b then b else a }

  /** `sleep_until_next_poll`, in nanoseconds. */
  function Sleep(deadline: nat, now: nat, backoff: nat): nat { Max(Min(backoff, if now < deadline then deadline - now else 0), MILLI) }

  /** Poll `i` answers `poll(i)` (none for an outage), and the clock is read as `clock(i)` after it;
      between two polls the clock advances at least by the sleep. */
  ghost predicate Advancing(clock: nat -> nat, deadline: nat, backoff: nat) {
    forall i: nat :: clock(i) < deadline ==> clock(i + 1) >= clock(i) + Sleep(deadline, clock(i), backoff)
  }

  /** `watch_required`: polls until a check has passed or failed, or the deadline is past. */
  method WatchRequired(poll: nat -> Option<Poll>, clock: nat -> nat, deadline: nat, backoff: nat) returns (outcome: Outcome, polls: nat)
    requires Advancing(clock, deadline, backoff)
    ensures polls >= 1 && forall j | 0 <= j < polls - 1 :: Undecided(poll(j)) && clock(j) < deadline
    ensures outcome == match poll(polls - 1)
                       case Some(Passing) => Passed
                       case Some(Failing(c)) => Failed(c)
                       case _ => Unconfirmed
    ensures outcome == Unconfirmed ==> clock(polls - 1) >= deadline
    ensures clock(0) >= deadline ==> polls == 1
    ensures clock(0) <= deadline ==> (polls - 1) * Max(backoff, MILLI) < deadline - clock(0) + Max(backoff, MILLI)
  {
    polls := 0;
    while true
      invariant forall j | 0 <= j < polls :: Undecided(poll(j)) && clock(j) < deadline
      invariant polls > 0 ==> Progress(clock, deadline, backoff, polls)
      decreases deadline - if polls == 0 then 0 else Min(clock(polls - 1) + 1, deadline), if polls == 0 then 1 else 0
    {
      polls := polls + 1;
      var answer := poll(polls - 1);
      if polls > 1 { Progressed(clock, deadline, backoff, polls - 1); }
      match answer {
        case Some(Passing) => return Passed, polls;
        case Some(Failing(c)) => return Failed(c), polls;
        case _ =>
      }
      if clock(polls - 1) >= deadline { return Unconfirmed, polls; }
    }
  }

  predicate Undecided(p: Option<Poll>) { p == None || p == Some(Pending) }

  ghost predicate Progress(clock: nat -> nat, deadline: nat, backoff: nat, polls: nat)
    requires polls > 0
  {
    clock(polls - 1) >= Min(deadline, clock(0) + (polls - 1) * Max(backoff, MILLI))
  }

  lemma Progressed(clock: nat -> nat, deadline: nat, backoff: nat, polls: nat)
    requires Advancing(clock, deadline, backoff) && polls > 0 && clock(polls - 1) < deadline && Progress(clock, deadline, backoff, polls)
    ensures Progress(clock, deadline, backoff, polls + 1) && clock(polls) > clock(polls - 1)
  {
    assert clock(polls - 1 + 1) == clock(polls);
    var step := Max(backoff, MILLI);
    assert (polls - 1) * step + step == polls * step;
  }

  /** `watch_best_effort`: a failure or an outage ends the watch at once, and only a pass is a pass. */
  method WatchBestEffort(poll: nat -> Option<Poll>, clock: nat -> nat, deadline: nat, backoff: nat) returns (outcome: Outcome, polls: nat)
    requires Advancing(clock, deadline, backoff)
    ensures polls >= 1 && forall j | 0 <= j < polls - 1 :: poll(j) == Some(Pending) && clock(j) < deadline
    ensures outcome == if poll(polls - 1) == Some(Passing) then Passed else Degraded
    ensures poll(polls - 1) == Some(Pending) ==> clock(polls - 1) >= deadline
    ensures clock(0) >= deadline ==> polls == 1
    ensures clock(0) <= deadline ==> (polls - 1) * Max(backoff, MILLI) < deadline - clock(0) + Max(backoff, MILLI)
  {
    polls := 0;
    while true
      invariant forall j | 0 <= j < polls :: poll(j) == Some(Pending) && clock(j) < deadline
      invariant polls > 0 ==> Progress(clock, deadline, backoff, polls)
      decreases deadline - if polls == 0 then 0 else Min(clock(polls - 1) + 1, deadline), if polls == 0 then 1 else 0
    {
      polls := polls + 1;
      var answer := poll(polls - 1);
      if polls > 1 { Progressed(clock, deadline, backoff, polls - 1); }
      if answer == Some(Passing) { return Passed, polls; }
      if answer != Some(Pending) || clock(polls - 1) >= deadline { return Degraded, polls; }
    }
  }
}
