/** Queue and descriptor status literals, from `engine/src/state/canonical.rs` and
    `engine/src/control.rs`: a base word, then suffixes behind middle dots. */
module StatusText {
  import opened Text

  const DOT := '·'
  const ATTEMPT := "попытка="
  const MAX_U32: nat := 4294967295

  predicate StartsWith(s: string, key: string) { |key| <= |s| && s[..|key|] == key }

  /** `str::split` at the middle dot. */
  function Segments(s: string): (r: seq<string>)
    ensures |r| >= 1
  {
    if s == "" then [""]
    else if s[0] == DOT then [""] + Segments(s[1..])
    else var rest := Segments(s[1..]); [[s[0]] + rest[0]] + rest[1..]
  }

  /** The value of the first segment that starts with the key. */
  function FirstWith(segments: seq<string>, key: string): Option<string> {
    if segments == [] then None
    else if StartsWith(Trim(segments[0]), key) then Some(Trim(Trim(segments[0])[|key|..]))
    else FirstWith(segments[1..], key)
  }

  /** `suffix_field`. */
  function SuffixField(s: string, key: string): Option<string> { FirstWith(Segments(s), key) }

  function DigitsValue(s: string, acc: nat): nat
    requires forall c | c in s :: IsDigit(c)
  {
    if s == "" then acc else assert s[0] in s && IsDigit(s[0]); DigitsValue(s[1..], acc * 10 + (s[0] as int - '0' as int))
  }

  /** `u32::from_str`: an optional plus sign and at least one digit. */
  function ParseU32(s: string): Option<nat> {
    var digits := if StartsWith(s, "+") then s[1..] else s;
    if digits != "" && (forall c | c in digits :: IsDigit(c)) && DigitsValue(digits, 0) <= MAX_U32
    then Some(DigitsValue(digits, 0)) else None
  }

  function DigitChar(d: nat): (c: char)
    requires d < 10
    ensures IsDigit(c) && c as int - '0' as int == d
  {
    ('0' as int + d) as char
  }

  /** Decimal printing. */
  function PrintNat(n: nat): (s: string)
    ensures s != "" && forall c | c in s :: IsDigit(c)
  {
    if n < 10 then [DigitChar(n)] else PrintNat(n / 10) + [DigitChar(n % 10)]
  }

  /** `queue_attempt`. */
  function Attempt(status: string): Option<nat> {
    match SuffixField(status, ATTEMPT) case Some(v) => ParseU32(v) case None => None
  }

  // ---------------------------------------------------------------------------------------
  // Numbers
  // ---------------------------------------------------------------------------------------

  lemma {:induction false} DigitsValueAppend(s: string, c: char, acc: nat)
    requires (forall x | x in s :: IsDigit(x)) && IsDigit(c)
    ensures forall x | x in s + [c] :: IsDigit(x)
    ensures DigitsValue(s + [c], acc) == DigitsValue(s, acc) * 10 + (c as int - '0' as int)
  {
    if s == "" {
      assert s + [c] == [c] && [c][1..] == "";
    } else {
      assert s[0] in s && (s + [c])[1..] == s[1..] + [c];
      DigitsValueAppend(s[1..], c, acc * 10 + (s[0] as int - '0' as int));
    }
  }

  lemma {:induction false} PrintedValue(n: nat)
    ensures DigitsValue(PrintNat(n), 0) == n
  {
    if n < 10 {
      assert PrintNat(n)[1..] == "";
    } else {
      PrintedValue(n / 10);
      DigitsValueAppend(PrintNat(n / 10), DigitChar(n % 10), 0);
    }
  }

  lemma PrintParses(n: nat)
    ensures ParseU32(PrintNat(n)) == if n <= MAX_U32 then Some(n) else None
  {
    PrintedValue(n);
    assert PrintNat(n)[0] in PrintNat(n);
  }

  // ---------------------------------------------------------------------------------------
  // Segments
  // ---------------------------------------------------------------------------------------

  lemma {:induction false} SegmentsJoin(a: string, b: string)
    ensures Segments(a + [DOT] + b) == Segments(a) + Segments(b)
  {
    var s := a + [DOT] + b;
    if a == "" {
      assert s[1..] == b;
    } else {
      assert s[0] == a[0] && s[1..] == a[1..] + [DOT] + b;
      SegmentsJoin(a[1..], b);
    }
  }

  lemma {:induction false} SegmentsPrefix(a: string, b: string)
    requires DOT !in a
    ensures Segments(a + b) == [a + Segments(b)[0]] + Segments(b)[1..]
  {
    if a == "" {
      assert a + b == b && a + Segments(b)[0] == Segments(b)[0];
    } else {
      assert a[0] in a && (a + b)[0] == a[0] && (a + b)[1..] == a[1..] + b;
      SegmentsPrefix(a[1..], b);
      assert [a[0]] + (a[1..] + Segments(b)[0]) == a + Segments(b)[0];
    }
  }

  lemma {:induction false} SegmentsAppend(s: string, c: char)
    requires c != DOT
    ensures var r := Segments(s); Segments(s + [c]) == r[..|r| - 1] + [r[|r| - 1] + [c]]
  {
    if s == "" {
      assert s + [c] == [c] && [c][1..] == "" && [c] + "" == [c] && "" + [c] == [c];
    } else {
      assert (s + [c])[0] == s[0] && (s + [c])[1..] == s[1..] + [c];
      SegmentsAppend(s[1..], c);
      var rest := Segments(s[1..]);
      if s[0] != DOT && |rest| == 1 { assert [s[0]] + (rest[0] + [c]) == [s[0]] + rest[0] + [c]; }
    }
  }

  lemma {:induction false} FirstWithJoin(a: seq<string>, b: seq<string>, key: string)
    ensures FirstWith(a + b, key) == if FirstWith(a, key).Some? then FirstWith(a, key) else FirstWith(b, key)
  {
    if a == [] {
      assert a + b == b;
    } else {
      assert (a + b)[1..] == a[1..] + b;
      FirstWithJoin(a[1..], b, key);
    }
  }

  // ---------------------------------------------------------------------------------------
  // Trimming does not matter to a segment
  // ---------------------------------------------------------------------------------------

  lemma {:induction false} TrimStartAppend(s: string, c: char)
    requires IsWhitespace(c)
    ensures TrimStart(s + [c]) == if TrimStart(s) == "" then "" else TrimStart(s) + [c]
  {
    if s == "" {
      assert s + [c] == [c] && [c][1..] == "";
    } else if IsWhitespace(s[0]) {
      assert (s + [c])[1..] == s[1..] + [c];
      TrimStartAppend(s[1..], c);
    }
  }

  lemma TrimAppend(s: string, c: char)
    requires IsWhitespace(c)
    ensures Trim(s + [c]) == Trim(s)
  {
    TrimStartAppend(s, c);
    if TrimStart(s) != "" { assert (TrimStart(s) + [c])[..|TrimStart(s)|] == TrimStart(s); }
  }

  lemma {:induction false} TrimEndSegments(s: string, key: string)
    ensures SuffixField(TrimEnd(s), key) == SuffixField(s, key)
    decreases |s|
  {
    if s != "" && IsWhitespace(s[|s| - 1]) {
      var t, c := s[..|s| - 1], s[|s| - 1];
      assert s == t + [c];
      var r := Segments(t);
      SegmentsAppend(t, c);
      TrimAppend(r[|r| - 1], c);
      FirstWithJoin(r[..|r| - 1], [r[|r| - 1]], key);
      FirstWithJoin(r[..|r| - 1], [r[|r| - 1] + [c]], key);
      assert r == r[..|r| - 1] + [r[|r| - 1]];
      TrimEndSegments(t, key);
    }
  }

  lemma {:induction false} TrimStartSegments(s: string, key: string)
    ensures SuffixField(TrimStart(s), key) == SuffixField(s, key)
  {
    if s != "" && IsWhitespace(s[0]) {
      var r := Segments(s[1..]);
      assert ([s[0]] + r[0])[1..] == r[0];
      TrimStartSegments(s[1..], key);
    }
  }

  /** A counter is read the same from a status and from its trimmed form. */
  lemma TrimmedAttempt(s: string)
    ensures Attempt(Trim(s)) == Attempt(s)
  {
    TrimStartSegments(s, ATTEMPT);
    TrimEndSegments(TrimStart(s), ATTEMPT);
  }

  // ---------------------------------------------------------------------------------------
  // Statuses the engine writes
  // ---------------------------------------------------------------------------------------

  datatype TaskState = NotStarted | Working | InReview | Ready | Merged | Published | Done | Escalated | Conflict

  /** `task_literal`. */
  function Literal(state: TaskState): string {
    match state
    case NotStarted => "не начата"
    case Working => "в работе"
    case InReview => "на ревью"
    case Ready => "готова к слиянию"
    case Merged => "слита"
    case Published => "опубликована"
    case Done => "выполнена"
    case Escalated => "эскалирована"
    case Conflict => "конфликт"
  }

  /** `TaskState::from_markdown`: the base word decides. */
  function StateOf(status: string): Option<TaskState> { StateOfWord(Trim(Segments(status)[0])) }

  function StateOfWord(base: string): Option<TaskState> {
    if base == "не начата" then Some(NotStarted)
    else if base == "в работе" then Some(Working)
    else if base == "на ревью" then Some(InReview)
    else if base == "готова к слиянию" then Some(Ready)
    else if base == "слита" then Some(Merged)
    else if base == "опубликована" then Some(Published)
    else if base == "выполнена" then Some(Done)
    else if base == "эскалирована" then Some(Escalated)
    else if base == "конфликт" then Some(Conflict)
    else None
  }

  /** `append_attempt`. */
  function WithAttempt(status: string, attempt: Option<nat>): string {
    match attempt case Some(n) => status + " · попытка=" + PrintNat(n) case None => status
  }

  /** The status `capture_task` writes, before the counter. */
  function CaptureHead(batch: string, worktree: string, branch: string): string {
    "в работе · батч=" + batch + " · worktree=" + worktree + " · ветка=" + branch
  }

  /** No segment inside `value`, after its first, reads as a counter. */
  predicate NoCounter(value: string) {
    FirstWith(Segments(value)[1..], ATTEMPT).None?
  }

  lemma FirstVisible(s: string, key: string)
    requires s != "" && key != "" && !IsWhitespace(s[0]) && s[0] != key[0]
    ensures !StartsWith(Trim(s), key) && !StartsWith(Trim([' '] + s), key)
  {
    assert ([' '] + s)[1..] == s;
    TrimEndKeeps(s[..1], s[1..]);
    assert s[..1] + s[1..] == s;
    StartsAlike(Trim(s), key);
  }

  lemma StartsAlike(s: string, key: string)
    ensures StartsWith(s, key) && key != "" ==> s != "" && s[0] == key[0]
  {
    if StartsWith(s, key) && key != "" { assert s[..|key|][0] == s[0]; }
  }

  /** A tagled value contributes the counters hidden in the value, and no other. */
  lemma LabelledCounter(tag: string, value: string)
    requires tag != "" && DOT !in tag && tag[0] == ' ' && |tag| > 1 && !IsWhitespace(tag[1]) && tag[1] != ATTEMPT[0]
    ensures FirstWith(Segments(tag + value), ATTEMPT) == FirstWith(Segments(value)[1..], ATTEMPT)
  {
    SegmentsPrefix(tag, value);
    var first := tag + Segments(value)[0];
    assert first == [' '] + first[1..];
    FirstVisible(first[1..], ATTEMPT);
  }

  /** A blank at the end of the last segment does not matter. */
  lemma BlankSegment(segments: seq<string>, last: string)
    ensures FirstWith(segments + [last + " "], ATTEMPT) == FirstWith(segments + [last], ATTEMPT)
  {
    TrimAppend(last, ' ');
    FirstWithJoin(segments, [last], ATTEMPT);
    FirstWithJoin(segments, [last + " "], ATTEMPT);
  }

  lemma BlankBehind(value: string)
    ensures FirstWith(Segments(value + " ")[1..], ATTEMPT) == FirstWith(Segments(value)[1..], ATTEMPT)
    ensures FirstWith(Segments(value + " "), ATTEMPT) == FirstWith(Segments(value), ATTEMPT)
    ensures Trim(Segments(value + " ")[0]) == Trim(Segments(value)[0])
  {
    var r := Segments(value);
    var init, last := r[..|r| - 1], r[|r| - 1];
    SegmentsAppend(value, ' ');
    assert r == init + [last];
    BlankSegment(init, last);
    if |r| > 1 {
      assert r[1..] == init[1..] + [last] && (init + [last + " "])[1..] == init[1..] + [last + " "];
      BlankSegment(init[1..], last);
    } else {
      TrimAppend(last, ' ');
    }
  }

  /** The counter hidden in the names a capture records, if any. */
  function Hidden(batch: string, worktree: string, branch: string): Option<string> {
    if !NoCounter(batch) then FirstWith(Segments(batch)[1..], ATTEMPT)
    else if !NoCounter(worktree) then FirstWith(Segments(worktree)[1..], ATTEMPT)
    else FirstWith(Segments(branch)[1..], ATTEMPT)
  }

  lemma CaptureSegments(batch: string, worktree: string, branch: string)
    ensures FirstWith(Segments(CaptureHead(batch, worktree, branch)), ATTEMPT) == Hidden(batch, worktree, branch)
    ensures StateOf(CaptureHead(batch, worktree, branch)) == Some(Working)
  {
    var b, w, r := " батч=" + (batch + " "), " worktree=" + (worktree + " "), " ветка=" + branch;
    FourSegments(b, w, r);
    CaptureParts(batch, worktree, branch, b, w, r);
    BatchLabel(batch, b);
    WorktreeLabel(worktree, w);
    LabelledCounter(" ветка=", branch);
  }

  lemma BatchLabel(batch: string, labelled: string)
    requires labelled == " батч=" + (batch + " ")
    ensures FirstWith(Segments(labelled), ATTEMPT) == FirstWith(Segments(batch)[1..], ATTEMPT)
  {
    LabelledBlank(" батч=", batch);
  }

  lemma WorktreeLabel(worktree: string, labelled: string)
    requires labelled == " worktree=" + (worktree + " ")
    ensures FirstWith(Segments(labelled), ATTEMPT) == FirstWith(Segments(worktree)[1..], ATTEMPT)
  {
    LabelledBlank(" worktree=", worktree);
  }

  lemma LabelledBlank(tag: string, value: string)
    requires tag != "" && DOT !in tag && tag[0] == ' ' && |tag| > 1 && !IsWhitespace(tag[1]) && tag[1] != ATTEMPT[0]
    ensures FirstWith(Segments(tag + (value + " ")), ATTEMPT) == FirstWith(Segments(value)[1..], ATTEMPT)
  {
    LabelledCounter(tag, value + " ");
    BlankBehind(value);
  }

  lemma CaptureParts(batch: string, worktree: string, branch: string, b: string, w: string, r: string)
    requires b == " батч=" + (batch + " ") && w == " worktree=" + (worktree + " ") && r == " ветка=" + branch
    ensures CaptureHead(batch, worktree, branch) == "в работе " + [DOT] + (b + [DOT] + (w + [DOT] + r))
  {}

  lemma FourSegments(b: string, w: string, r: string)
    ensures var s := "в работе " + [DOT] + (b + [DOT] + (w + [DOT] + r));
            && StateOf(s) == Some(Working)
            && FirstWith(Segments(s), ATTEMPT) ==
                 if FirstWith(Segments(b), ATTEMPT).Some? then FirstWith(Segments(b), ATTEMPT)
                 else if FirstWith(Segments(w), ATTEMPT).Some? then FirstWith(Segments(w), ATTEMPT)
                 else FirstWith(Segments(r), ATTEMPT)
  {
    SegmentsJoin("в работе ", b + [DOT] + (w + [DOT] + r));
    SegmentsJoin(b, w + [DOT] + r);
    SegmentsJoin(w, r);
    FirstWithJoin(Segments("в работе "), Segments(b) + (Segments(w) + Segments(r)), ATTEMPT);
    FirstWithJoin(Segments(b), Segments(w) + Segments(r), ATTEMPT);
    FirstWithJoin(Segments(w), Segments(r), ATTEMPT);
    WorkingWord();
  }

  lemma WorkingWord()
    ensures Segments("в работе ") == ["в работе "]
    ensures Trim("в работе ") == "в работе" && FirstWith(["в работе "], ATTEMPT) == None
  {
    SegmentsPrefix("в работе ", "");
    assert "в работе " + "" == "в работе ";
    FirstVisible("в работе ", ATTEMPT);
    assert "в работе "[..8] == "в работе";
  }

  /** A counter behind a status is read unless the status hides one of its own before it. */
  lemma CounterBehind(head: string, n: nat)
    requires n <= MAX_U32
    ensures Attempt(WithAttempt(head, Some(n))) ==
            match FirstWith(Segments(head), ATTEMPT) case Some(v) => ParseU32(v) case None => Some(n)
  {
    var last := " " + (ATTEMPT + PrintNat(n));
    assert WithAttempt(head, Some(n)) == (head + " ") + [DOT] + last;
    SegmentsJoin(head + " ", last);
    BlankBehind(head);
    CounterSegment(n);
    FirstWithJoin(Segments(head + " "), [last], ATTEMPT);
    PrintParses(n);
  }

  lemma CounterSegment(n: nat)
    ensures var last := " " + (ATTEMPT + PrintNat(n));
            Segments(last) == [last] && FirstWith([last], ATTEMPT) == Some(PrintNat(n))
  {
    var digits := PrintNat(n);
    var last := " " + (ATTEMPT + digits);
    NoDot(digits);
    SegmentsPrefix(last, "");
    assert last + "" == last;
    TrimCounter(digits);
  }

  lemma NoDot(digits: string)
    requires forall c | c in digits :: IsDigit(c)
    ensures DOT !in " " + (ATTEMPT + digits)
  {
    forall c | c in " " + (ATTEMPT + digits) ensures c != DOT {
      if c !in " " && c !in ATTEMPT { assert c in digits; }
    }
  }

  lemma TrimCounter(digits: string)
    requires digits != "" && forall c | c in digits :: IsDigit(c)
    ensures FirstWith([" " + (ATTEMPT + digits)], ATTEMPT) == Some(digits)
  {
    var text := ATTEMPT + digits;
    assert (" " + text)[1..] == text;
    assert digits[0] in digits && digits[|digits| - 1] in digits && text[|text| - 1] == digits[|digits| - 1];
    NoTrim(text);
    NoTrim(digits);
    assert text[..|ATTEMPT|] == ATTEMPT && text[|ATTEMPT|..] == digits;
  }

  lemma NoTrim(s: string)
    requires s != "" && !IsWhitespace(s[0]) && !IsWhitespace(s[|s| - 1])
    ensures Trim(s) == s
  {}

  /** `capture_task` keeps the counter exactly when no recorded name hides one, or the hidden one
      reads as the counter that was there. */
  lemma CaptureKeepsCounter(batch: string, worktree: string, branch: string, prior: Option<nat>)
    requires prior.Some? ==> prior.value <= MAX_U32
    ensures var status := WithAttempt(CaptureHead(batch, worktree, branch), prior);
            && StateOf(status) == Some(Working)
            && (Attempt(status) == prior <==>
                  (NoCounter(batch) && NoCounter(worktree) && NoCounter(branch))
                  || ParseU32(Hidden(batch, worktree, branch).value) == prior)
  {
    var head := CaptureHead(batch, worktree, branch);
    CaptureSegments(batch, worktree, branch);
    match prior
    case None =>
    case Some(n) =>
      CounterBehind(head, n);
      StateBehind(head, n);
  }

  lemma StateBehind(head: string, n: nat)
    ensures StateOf(WithAttempt(head, Some(n))) == StateOf(head)
  {
    var last := " " + (ATTEMPT + PrintNat(n));
    assert WithAttempt(head, Some(n)) == (head + " ") + [DOT] + last;
    SegmentsJoin(head + " ", last);
    BlankBehind(head);
  }

  predicate Plain(s: string) { DOT !in s && s != "" && !IsWhitespace(s[0]) && !IsWhitespace(s[|s| - 1]) && s[0] != ATTEMPT[0] }

  lemma LiteralIsPlain(state: TaskState)
    ensures Plain(Literal(state))
  {}

  lemma PlainSegments(s: string)
    requires Plain(s)
    ensures Segments(s) == [s] && FirstWith([s], ATTEMPT) == None && Trim(s) == s
  {
    SegmentsPrefix(s, "");
    assert s + "" == s;
    NoTrim(s);
    FirstVisible(s, ATTEMPT);
  }

  /** What a bare literal is: its state, no counter, no dot. */
  lemma LiteralPlain(state: TaskState)
    ensures StateOf(Literal(state)) == Some(state) && Segments(Literal(state)) == [Literal(state)]
    ensures FirstWith([Literal(state)], ATTEMPT) == None && Trim(Literal(state)) == Literal(state)
  {
    LiteralIsPlain(state);
    PlainSegments(Literal(state));
    LiteralWord(state);
  }

  lemma LiteralWord(state: TaskState)
    ensures StateOfWord(Literal(state)) == Some(state)
  {}

  /** A literal with a counter behind it reads back as that state with that counter. */
  lemma LiteralStatus(state: TaskState, attempt: Option<nat>)
    requires attempt.Some? ==> attempt.value <= MAX_U32
    ensures StateOf(WithAttempt(Literal(state), attempt)) == Some(state) && Attempt(WithAttempt(Literal(state), attempt)) == attempt
  {
    LiteralPlain(state);
    match attempt
    case None =>
    case Some(n) =>
      CounterBehind(Literal(state), n);
      StateBehind(Literal(state), n);
  }

  /** The first word of a text without leading blanks, and what follows it. */
  function FirstWord(s: string): (r: (string, string))
    ensures |r.0| + |r.1| == |s| && (s != "" && !IsWhitespace(s[0]) ==> r.0 != "")
  {
    if s == "" || IsWhitespace(s[0]) then ("", s) else var (w, rest) := FirstWord(s[1..]); ([s[0]] + w, rest)
  }

  lemma {:induction false} WordEnds(word: string, rest: string)
    requires (forall c | c in word :: !IsWhitespace(c)) && (rest == "" || IsWhitespace(rest[0]))
    ensures FirstWord(word + rest) == (word, rest)
  {
    if word != "" {
      assert word[0] in word && (word + rest)[0] == word[0] && (word + rest)[1..] == word[1..] + rest;
      WordEnds(word[1..], rest);
      assert word == [word[0]] + word[1..];
    } else {
      assert word + rest == rest;
    }
  }

  /** `split_whitespace`, joined by single blanks. */
  function Compact(s: string): string
    decreases |s|
  {
    TrimStartNotLonger(s);
    var t := TrimStart(s);
    if t == "" then ""
    else
      TrimStartVisible(s);
      var (w, rest) := FirstWord(t);
      var more := Compact(rest);
      if more == "" then w else w + " " + more
  }

  lemma {:induction false} TrimStartNotLonger(s: string)
    ensures |TrimStart(s)| <= |s|
  {
    if s != "" && IsWhitespace(s[0]) { TrimStartNotLonger(s[1..]); }
  }

  lemma {:induction false} TrimStartVisible(s: string)
    ensures TrimStart(s) != "" ==> !IsWhitespace(TrimStart(s)[0])
  {
    if s != "" && IsWhitespace(s[0]) { TrimStartVisible(s[1..]); }
  }

  /** `sanitize_reason`: one line of at most 240 characters. */
  function SanitizeReason(s: string): string {
    var c := Compact(s);
    if |c| <= 240 then c else c[..240]
  }

  /** The status `patch_queue_state` writes, before the counter. */
  function PatchHead(state: TaskState, reason: Option<string>): string {
    if (state == Escalated || state == Conflict) && reason.Some? && SanitizeReason(reason.value) != ""
    then Literal(state) + " · причина=" + SanitizeReason(reason.value)
    else Literal(state)
  }

  function PatchStatus(state: TaskState, reason: Option<string>, prior: Option<nat>): string {
    if state == Escalated then PatchHead(state, reason) else WithAttempt(PatchHead(state, reason), prior)
  }

  lemma ReasonSegments(word: string, text: string)
    requires FirstWith(Segments(word), ATTEMPT) == None
    ensures var head := word + " · причина=" + text;
            FirstWith(Segments(head), ATTEMPT) == FirstWith(Segments(text)[1..], ATTEMPT) && StateOf(head) == StateOf(word)
  {
    var first, tail := word + " ", " причина=" + text;
    ReasonParts(word, text);
    CounterAcross(first, tail);
    BlankBehind(word);
    ReasonLabel(text);
  }

  /** A status is read from the front: state and counter of a part before a dot win. */
  lemma CounterAcross(a: string, b: string)
    ensures StateOf(a + [DOT] + b) == StateOf(a)
    ensures FirstWith(Segments(a + [DOT] + b), ATTEMPT) ==
            if FirstWith(Segments(a), ATTEMPT).Some? then FirstWith(Segments(a), ATTEMPT) else FirstWith(Segments(b), ATTEMPT)
  {
    SegmentsJoin(a, b);
    FirstWithJoin(Segments(a), Segments(b), ATTEMPT);
  }

  lemma ReasonParts(word: string, text: string)
    ensures word + " · причина=" + text == (word + " ") + [DOT] + (" причина=" + text)
  {}

  lemma ReasonLabel(text: string)
    ensures FirstWith(Segments(" причина=" + text), ATTEMPT) == FirstWith(Segments(text)[1..], ATTEMPT)
  {
    var tag, first := "причина=", Segments(text)[0];
    assert " причина=" == " " + tag;
    SegmentsPrefix(" " + tag, text);
    TagFirst(tag, first);
    StartsSecond(Trim(" " + tag + first));
  }

  lemma TagFirst(tag: string, x: string)
    requires tag != "" && !IsWhitespace(tag[0]) && !IsWhitespace(tag[|tag| - 1])
    ensures Trim(" " + tag + x) == tag + TrimEnd(x)
  {
    Assoc(" ", tag, x);
    assert (tag + x)[0] == tag[0];
    TrimStartBlank(" ", tag + x);
    TrimEndKeeps(tag, x);
  }

  lemma StartsSecond(s: string)
    requires |s| > 1 && s[1] == 'р'
    ensures !StartsWith(s, ATTEMPT)
  {
    assert ATTEMPT[1] == 'о';
    assert |ATTEMPT| <= |s| ==> s[..|ATTEMPT|][1] == 'р';
  }

  /** `patch_queue_state` keeps the counter of every state but the terminal escalation, exactly
      when the recorded reason hides no counter, or hides the same one. */
  lemma PatchKeepsCounter(state: TaskState, reason: Option<string>, prior: Option<nat>)
    requires (prior.Some? ==> prior.value <= MAX_U32) && state != Escalated
    ensures var status, text := PatchStatus(state, reason, prior), SanitizeReason(if reason.Some? then reason.value else "");
            && StateOf(status) == Some(state)
            && (Attempt(status) == prior <==>
                  state != Conflict || reason.None? || NoCounter(text) || ParseU32(FirstWith(Segments(text)[1..], ATTEMPT).value) == prior)
  {
    var head := PatchHead(state, reason);
    LiteralPlain(state);
    if head != Literal(state) { ReasonSegments(Literal(state), SanitizeReason(reason.value)); }
    match prior
    case None =>
    case Some(n) =>
      CounterBehind(head, n);
      StateBehind(head, n);
  }

  /** A batch name that hides a counter replaces the one a capture should keep. */
  lemma HiddenCounterWins(worktree: string, branch: string)
    ensures Attempt(WithAttempt(CaptureHead("B · попытка=9", worktree, branch), Some(2))) == Some(9)
  {
    assert PrintNat(9) == "9";
    assert "B · попытка=9" == "B " + [DOT] + (" " + (ATTEMPT + PrintNat(9)));
    SegmentsJoin("B ", " " + (ATTEMPT + PrintNat(9)));
    SegmentsPrefix("B ", "");
    assert "B " + "" == "B ";
    CounterSegment(9);
    assert Segments("B · попытка=9")[1..] == [" " + (ATTEMPT + PrintNat(9))];
    CaptureSegments("B · попытка=9", worktree, branch);
    CounterBehind(CaptureHead("B · попытка=9", worktree, branch), 2);
    PrintParses(9);
  }
}
