/** The queue editor of `engine/src/control.rs`: finding one task's block in `Tasks_Queue.md`,
    rewriting its status, and removing it.

    `FindBlock` searches the text as the source does. A queue is also the concatenation of a
    preamble and its blocks; `FindInParts` ties the two views, and the editing theorems say
    what an edit does to the list of blocks. Indices count characters. */
module QueueText {
  import opened Text

  // ---------------------------------------------------------------------------------------
  // Finding a block
  // ---------------------------------------------------------------------------------------

  const HEADING := "### ["
  const LOWER_STATUS := "статус:"
  const UPPER_STATUS := "Статус:"

  /** `is_task_id`. */
  predicate IsTaskId(id: string) {
    |id| > 2 && id[..2] == "T-" && forall c | c in id[2..] :: IsDigit(c)
  }

  predicate IsLineStart(s: string, i: nat)
    requires i <= |s|
  {
    i == 0 || s[i - 1] == '\n'
  }

  predicate IsHeading(s: string, i: nat) {
    i <= |s| && IsLineStart(s, i) && At(s, i, HEADING)
  }

  /** The first heading from index `i` on, or the end of the text. */
  function NextHeading(s: string, i: nat): (h: nat)
    requires i <= |s|
    ensures i <= h <= |s| && (h < |s| ==> IsHeading(s, h))
    ensures forall j | i <= j < h :: !IsHeading(s, j)
    decreases |s| - i
  {
    if i == |s| || IsHeading(s, i) then i else NextHeading(s, i + 1)
  }

  /** Each heading with the heading after it, or with the end of the text. */
  function Windows(s: string, i: nat): seq<(nat, nat)>
    requires i <= |s|
    decreases |s| - i
  {
    var h := NextHeading(s, i);
    if h == |s| then [] else [(h, NextHeading(s, h + 1))] + Windows(s, h + 1)
  }

  function Wanted(id: string): string { HEADING + id + "]" }

  /** The first index from `i` on where `pattern` occurs. */
  function IndexOf(s: string, pattern: string, i: nat): (r: Option<nat>)
    ensures r.Some? ==> i <= r.value && r.value + |pattern| <= |s|
    decreases |s| - i
  {
    if i + |pattern| > |s| then None
    else if At(s, i, pattern) then Some(i)
    else IndexOf(s, pattern, i + 1)
  }

  lemma {:induction false} IndexOfFirst(s: string, pattern: string, i: nat)
    ensures var r := IndexOf(s, pattern, i);
            && (r.Some? ==> At(s, r.value, pattern) && forall j: nat | i <= j < r.value :: !At(s, j, pattern))
            && (r.None? ==> forall j: nat | i <= j :: !At(s, j, pattern))
    decreases |s| - i
  {
    if i + |pattern| <= |s| && !At(s, i, pattern) {
      IndexOfFirst(s, pattern, i + 1);
    }
  }

  function Header(block: string): string {
    match IndexOf(block, "\n", 0) case Some(j) => block[..j] case None => block
  }

  /** Where the status text of a header starts. */
  function StatusStart(header: string): Option<nat> {
    match IndexOf(header, LOWER_STATUS, 0)
    case Some(j) => Some(j + |LOWER_STATUS|)
    case None =>
      match IndexOf(header, UPPER_STATUS, 0) case Some(j) => Some(j + |UPPER_STATUS|) case None => None
  }

  datatype QueueError = NoBlock | DuplicateBlocks | NoStatus | EmptyStatus

  datatype QueueBlock = QueueBlock(start: nat, end: nat, headerEnd: nat, statusStart: nat, text: string, status: string)

  /** What the header of a block says, for a block that starts at index `start` of the queue. */
  function ReadBlock(start: nat, text: string): (r: Result<QueueBlock, QueueError>) {
    var header := Header(text);
    match StatusStart(header)
    case None => Err(NoStatus)
    case Some(at) =>
      StatusInside(header);
      var status := Trim(header[at..]);
      if status == "" then Err(EmptyStatus)
      else Ok(QueueBlock(start, start + |text|, start + |header|, start + at, text, status))
  }

  lemma StatusInside(header: string)
    ensures StatusStart(header).Some? ==> StatusStart(header).value <= |header|
  {}

  function Matching(s: string, windows: seq<(nat, nat)>, id: string): seq<(nat, nat)> {
    if windows == [] then []
    else (if At(s, windows[0].0, Wanted(id)) then [windows[0]] else []) + Matching(s, windows[1..], id)
  }

  /** `find_queue_block`. */
  function FindBlock(s: string, id: string): Result<QueueBlock, QueueError> {
    OnlyBlock(s, Matching(s, Windows(s, 0), id))
  }

  function OnlyBlock(s: string, found: seq<(nat, nat)>): Result<QueueBlock, QueueError> {
    if found == [] then Err(NoBlock)
    else if |found| > 1 then Err(DuplicateBlocks)
    else
      var (start, end) := found[0];
      if start <= end <= |s| then ReadBlock(start, s[start..end]) else Err(NoBlock)
  }

  /** `replace_block_status`. */
  function ReplaceStatus(s: string, block: QueueBlock, status: string): string
    requires block.statusStart <= |s| && block.headerEnd <= |s|
  {
    s[..block.statusStart] + (" " + status) + s[block.headerEnd..]
  }

  /** `remove_block`. */
  function RemoveBlock(s: string, block: QueueBlock): string
    requires block.start <= |s| && block.end <= |s|
  {
    s[..block.start] + s[block.end..]
  }

  // ---------------------------------------------------------------------------------------
  // A queue as a preamble and blocks
  // ---------------------------------------------------------------------------------------

  function Concat(blocks: seq<string>): string {
    if blocks == [] then "" else blocks[0] + Concat(blocks[1..])
  }

  /** A block starts with its only heading. */
  ghost predicate OneHeading(block: string) {
    IsHeading(block, 0) && forall j: nat | 0 < j :: !IsHeading(block, j)
  }

  ghost predicate WellBlocks(blocks: seq<string>) {
    && (forall k | 0 <= k < |blocks| :: OneHeading(blocks[k]))
    && (forall k | 0 <= k < |blocks| - 1 :: EndsLine(blocks[k]))
  }

  ghost predicate WellPreamble(preamble: string, blocks: seq<string>) {
    && (forall j: nat :: !IsHeading(preamble, j))
    && (blocks != [] ==> EndsLine(preamble))
  }

  ghost predicate Parts(s: string, preamble: string, blocks: seq<string>) {
    s == preamble + Concat(blocks) && WellPreamble(preamble, blocks) && WellBlocks(blocks)
  }

  /** No single-line pattern straddles the end of a line. */
  lemma PatternInside(x: string, y: string, j: nat, pattern: string)
    requires EndsLine(x) && j < |x| && '\n' !in pattern
    ensures At(x + y, j, pattern) <==> At(x, j, pattern)
  {
    var s := x + y;
    assert forall k | 0 <= k < |x| :: s[k] == x[k];
    if At(s, j, pattern) {
      forall p | j <= p < j + |pattern| ensures s[p] != '\n' { assert pattern[p - j] == s[j + (p - j)]; }
      assert s[|x| - 1] == '\n';
      forall k | 0 <= k < |pattern| ensures x[j + k] == pattern[k] { assert s[j + k] == pattern[k]; }
    }
    if At(x, j, pattern) {
      forall k | 0 <= k < |pattern| ensures s[j + k] == pattern[k] { assert x[j + k] == pattern[k]; }
    }
  }

  lemma HeadingInside(x: string, y: string, j: nat)
    requires EndsLine(x) && j < |x|
    ensures IsHeading(x + y, j) <==> IsHeading(x, j)
  {
    PatternInside(x, y, j, HEADING);
  }

  lemma HeadingAfter(x: string, y: string, j: nat)
    requires EndsLine(x) && j <= |y|
    ensures IsHeading(x + y, |x| + j) <==> IsHeading(y, j)
  {
    var s := x + y;
    assert forall k | 0 <= k < |y| :: s[|x| + k] == y[k];
    assert forall k | 0 <= k < |x| :: s[k] == x[k];
    if At(s, |x| + j, HEADING) {
      forall k | 0 <= k < |HEADING| ensures y[j + k] == HEADING[k] { assert s[|x| + j + k] == HEADING[k]; }
    }
    if At(y, j, HEADING) {
      forall k | 0 <= k < |HEADING| ensures s[|x| + j + k] == HEADING[k] { assert y[j + k] == HEADING[k]; }
    }
  }

  /** The spans of consecutive blocks from index `i` on. */
  function Spans(i: nat, blocks: seq<string>): seq<(nat, nat)>
    decreases |blocks|
  {
    if blocks == [] then [] else [(i, i + |blocks[0]|)] + Spans(i + |blocks[0]|, blocks[1..])
  }

  lemma {:induction false} NextHeadingIs(s: string, i: nat, h: nat)
    requires i <= h <= |s| && (h < |s| ==> IsHeading(s, h)) && forall j | i <= j < h :: !IsHeading(s, j)
    ensures NextHeading(s, i) == h
    decreases h - i
  {
    if i < h {
      NextHeadingIs(s, i + 1, h);
    }
  }

  lemma HeadingNonempty(block: string)
    requires IsHeading(block, 0)
    ensures |block| >= 5
  {}

  /** Windows only depend on the headings that lie ahead. */
  lemma {:induction false} WindowsSkip(s: string, i: nat, j: nat)
    requires i <= j <= |s| && forall k | i <= k < j :: !IsHeading(s, k)
    ensures Windows(s, i) == Windows(s, j)
  {
    var h := NextHeading(s, j);
    NextHeadingIs(s, i, h);
  }

  lemma {:induction false} WindowsOfBlocks(s: string, before: string, blocks: seq<string>)
    requires s == before + Concat(blocks) && WellBlocks(blocks) && (blocks != [] ==> EndsLine(before))
    ensures Windows(s, |before|) == Spans(|before|, blocks)
    decreases |blocks|
  {
    if blocks == [] {
      NoWindow(s);
    } else {
      var next := before + blocks[0];
      FirstPeels(s, before, blocks);
      FirstWindow(s, before, blocks[0], blocks[1..], |next|);
      WindowsOfBlocks(s, next, blocks[1..]);
      FirstSpan(|before|, blocks);
    }
  }

  lemma NoWindow(s: string)
    ensures Windows(s, |s|) == []
  {}

  lemma FirstSpan(i: nat, blocks: seq<string>)
    requires blocks != []
    ensures Spans(i, blocks) == [(i, i + |blocks[0]|)] + Spans(i + |blocks[0]|, blocks[1..])
  {}

  lemma FirstPeels(s: string, before: string, blocks: seq<string>)
    requires s == before + Concat(blocks) && WellBlocks(blocks) && blocks != [] && EndsLine(before)
    ensures var b, rest := blocks[0], blocks[1..];
            && s == before + b + Concat(rest) && |before + b| == |before| + |b| <= |s|
            && OneHeading(b) && WellBlocks(rest) && (rest != [] ==> EndsLine(b) && EndsLine(before + b))
  {
    Assoc(before, blocks[0], Concat(blocks[1..]));
    WellTail(blocks);
    EndsLineJoin(before, blocks[0]);
  }

  lemma WellTail(blocks: seq<string>)
    requires WellBlocks(blocks) && blocks != []
    ensures OneHeading(blocks[0]) && WellBlocks(blocks[1..]) && (blocks[1..] != [] ==> EndsLine(blocks[0]))
  {}

  lemma {:induction false} FirstWindow(s: string, before: string, b: string, rest: seq<string>, next: nat)
    requires s == before + b + Concat(rest) && next == |before| + |b|
    requires OneHeading(b) && EndsLine(before) && WellBlocks(rest) && (rest != [] ==> EndsLine(b))
    ensures next <= |s| && Windows(s, |before|) == [(|before|, next)] + Windows(s, next)
  {
    HeadingNonempty(b);
    FirstBlockSpan(before, b, rest);
    WindowsSkip(s, |before| + 1, next);
  }

  /** The heading of a block is found where it starts, and the next one where it ends. */
  lemma {:induction false} FirstBlockSpan(before: string, b: string, rest: seq<string>)
    requires OneHeading(b) && EndsLine(before) && WellBlocks(rest) && (rest != [] ==> EndsLine(b))
    ensures var s, next := before + b + Concat(rest), |before| + |b|;
            && NextHeading(s, |before|) == |before|
            && (forall k | |before| < k < next :: !IsHeading(s, k))
            && NextHeading(s, |before| + 1) == next
  {
    var s, more, next := before + b + Concat(rest), Concat(rest), |before| + |b|;
    HeadingNonempty(b);
    forall k | |before| <= k < next ensures IsHeading(s, k) <==> IsHeading(b, k - |before|) {
      assert s == before + (b + more);
      HeadingAfter(before, b + more, k - |before|);
      if rest == [] {
        assert b + more == b;
      } else {
        HeadingInside(b, more, k - |before|);
      }
    }
    NextHeadingIs(s, |before|, |before|);
    if rest != [] {
      HeadingNonempty(rest[0]);
      assert EndsLine(before + b);
      HeadingAfter(before + b, more, 0);
      assert more == rest[0] + Concat(rest[1..]);
      FirstHeadingStays(rest[0], Concat(rest[1..]));
    }
    NextHeadingIs(s, |before| + 1, next);
  }

  lemma FirstHeadingStays(b: string, more: string)
    requires IsHeading(b, 0)
    ensures IsHeading(b + more, 0)
  {
    forall k | 0 <= k < |HEADING| ensures (b + more)[k] == HEADING[k] { assert b[0 + k] == HEADING[k]; }
  }

  lemma {:induction false} WindowsOfParts(s: string, preamble: string, blocks: seq<string>)
    requires Parts(s, preamble, blocks)
    ensures Windows(s, 0) == Spans(|preamble|, blocks)
  {
    forall j | 0 <= j < |preamble| ensures !IsHeading(s, j) {
      if blocks == [] {
        assert s == preamble;
      } else {
        HeadingInside(preamble, Concat(blocks), j);
      }
    }
    WindowsSkip(s, 0, |preamble|);
    WindowsOfBlocks(s, preamble, blocks);
  }

  /** Every text is a preamble and blocks. */
  lemma {:induction false} Partition(s: string) returns (preamble: string, blocks: seq<string>)
    ensures Parts(s, preamble, blocks)
  {
    var h := NextHeading(s, 0);
    preamble := s[..h];
    blocks := if h == |s| then [] else BlocksFrom(s[h..]);
    assert s == preamble + s[h..];
    if h < |s| {
      assert EndsLine(preamble);
      HeadingAfter(preamble, s[h..], 0);
      BlocksFromWell(s[h..]);
    }
    forall j: nat ensures !IsHeading(preamble, j) {
      if j < |preamble| {
        if h == |s| { assert s == preamble; } else { HeadingInside(preamble, s[h..], j); }
      }
    }
  }

  function BlocksFrom(s: string): seq<string>
    requires IsHeading(s, 0)
  {
    HeadingNonempty(s);
    var h := NextHeading(s, 1);
    if h == |s| then [s] else
      assert s == s[..h] + s[h..] && EndsLine(s[..h]);
      HeadingAfter(s[..h], s[h..], 0);
      [s[..h]] + BlocksFrom(s[h..])
  }

  lemma {:induction false} BlocksFromWell(s: string)
    requires IsHeading(s, 0)
    ensures Concat(BlocksFrom(s)) == s && WellBlocks(BlocksFrom(s)) && BlocksFrom(s) != []
    decreases |s|
  {
    HeadingNonempty(s);
    var h := NextHeading(s, 1);
    if h == |s| {
      assert [s][1..] == [];
      assert s + "" == s;
    } else {
      var b, rest := s[..h], s[h..];
      assert s == b + rest && EndsLine(b);
      HeadingAfter(b, rest, 0);
      BlocksFromWell(rest);
      forall j: nat | j < h ensures IsHeading(b, j) <==> IsHeading(s, j) { HeadingInside(b, rest, j); }
      assert BlocksFrom(s) == [b] + BlocksFrom(rest);
      assert BlocksFrom(s)[1..] == BlocksFrom(rest);
    }
  }

  // ---------------------------------------------------------------------------------------
  // Finding a block among the parts
  // ---------------------------------------------------------------------------------------

  predicate IsBlockOf(block: string, id: string) { At(block, 0, Wanted(id)) }

  /** The spans of the blocks of one task. */
  function SpansOf(i: nat, blocks: seq<string>, id: string): seq<(nat, nat)>
    decreases |blocks|
  {
    if blocks == [] then []
    else
      (if IsBlockOf(blocks[0], id) then [(i, i + |blocks[0]|)] else []) + SpansOf(i + |blocks[0]|, blocks[1..], id)
  }

  lemma WantedSingleLine(id: string)
    requires IsTaskId(id)
    ensures '\n' !in Wanted(id)
    ensures forall k | 0 <= k < |Wanted(id)| :: Wanted(id)[k] != 'с' && Wanted(id)[k] != 'С'
  {
    forall k | 0 <= k < |id| ensures id[k] != '\n' && id[k] != 'с' && id[k] != 'С' {
      assert id[..2][0] == 'T' && id[..2][1] == '-';
      if k >= 2 { assert id[2..][k - 2] in id[2..]; }
    }
    assert HEADING[0] == '#' && HEADING[1] == '#' && HEADING[2] == '#' && HEADING[3] == ' ' && HEADING[4] == '[';
  }

  lemma {:induction false} MatchingParts(before: string, blocks: seq<string>, id: string)
    requires WellBlocks(blocks) && IsTaskId(id)
    ensures Matching(before + Concat(blocks), Spans(|before|, blocks), id) == SpansOf(|before|, blocks, id)
    decreases |blocks|
  {
    if blocks != [] {
      var s, b, rest := before + Concat(blocks), blocks[0], Concat(blocks[1..]);
      assert s == before + b + rest by { Assoc(before, b, rest); }
      FirstMatches(before, blocks, id);
      assert Spans(|before|, blocks)[1..] == Spans(|before + b|, blocks[1..]);
      MatchingParts(before + b, blocks[1..], id);
    }
  }

  lemma FirstMatches(before: string, blocks: seq<string>, id: string)
    requires WellBlocks(blocks) && blocks != [] && IsTaskId(id)
    ensures At(before + Concat(blocks), |before|, Wanted(id)) <==> IsBlockOf(blocks[0], id)
  {
    var b, rest := blocks[0], Concat(blocks[1..]);
    WantedSingleLine(id);
    HeadingNonempty(b);
    if |blocks| > 1 {
      PatternInside(b, rest, 0, Wanted(id));
    } else {
      assert b + rest == b;
    }
    Shift(before, b + rest, Wanted(id));
  }

  lemma Shift(x: string, y: string, pattern: string)
    ensures At(x + y, |x|, pattern) <==> At(y, 0, pattern)
  {
    var s := x + y;
    assert forall k | 0 <= k < |y| :: s[|x| + k] == y[k];
    if At(s, |x|, pattern) {
      forall k | 0 <= k < |pattern| ensures y[0 + k] == pattern[k] { assert s[|x| + k] == pattern[k]; }
    }
    if At(y, 0, pattern) {
      forall k | 0 <= k < |pattern| ensures s[|x| + k] == pattern[k] { assert y[0 + k] == pattern[k]; }
    }
  }

  /** The blocks of one task, and what finding it reports. */
  function BlocksOf(blocks: seq<string>, id: string): seq<string> {
    if blocks == [] then [] else (if IsBlockOf(blocks[0], id) then [blocks[0]] else []) + BlocksOf(blocks[1..], id)
  }

  lemma {:induction false} ConcatSplit(a: seq<string>, b: seq<string>)
    ensures Concat(a + b) == Concat(a) + Concat(b)
  {
    if a == [] {
      assert a + b == b;
    } else {
      assert (a + b)[1..] == a[1..] + b;
      ConcatSplit(a[1..], b);
      Assoc(a[0], Concat(a[1..]), Concat(b));
    }
  }

  lemma {:induction false} BlocksOfSplit(a: seq<string>, b: seq<string>, id: string)
    ensures BlocksOf(a + b, id) == BlocksOf(a, id) + BlocksOf(b, id)
  {
    if a == [] {
      assert a + b == b;
    } else {
      assert (a + b)[1..] == a[1..] + b;
      BlocksOfSplit(a[1..], b, id);
    }
  }

  /** With a single block of the task, its span is where that block lies. */
  lemma {:induction false} SpanOfOnly(i: nat, blocks: seq<string>, id: string) returns (k: nat)
    requires |SpansOf(i, blocks, id)| == 1
    ensures k < |blocks| && BlocksOf(blocks, id) == [blocks[k]]
    ensures SpansOf(i, blocks, id)[0] == (i + |Concat(blocks[..k])|, i + |Concat(blocks[..k])| + |blocks[k]|)
    ensures BlocksOf(blocks[..k], id) == [] && BlocksOf(blocks[k + 1..], id) == []
    decreases |blocks|
  {
    if IsBlockOf(blocks[0], id) {
      k := 0;
      FirstIsOnly(i, blocks, id);
    } else {
      FirstIsNot(i, blocks, id);
      var m := SpanOfOnly(i + |blocks[0]|, blocks[1..], id);
      k := m + 1;
      SkipFirst(blocks, m, id);
    }
  }

  lemma FirstIsOnly(i: nat, blocks: seq<string>, id: string)
    requires |SpansOf(i, blocks, id)| == 1 && IsBlockOf(blocks[0], id)
    ensures BlocksOf(blocks, id) == [blocks[0]] && BlocksOf(blocks[1..], id) == []
    ensures SpansOf(i, blocks, id)[0] == (i, i + |blocks[0]|) && BlocksOf(blocks[..0], id) == [] && Concat(blocks[..0]) == ""
  {
    SameCount(i + |blocks[0]|, blocks[1..], id);
  }

  lemma FirstIsNot(i: nat, blocks: seq<string>, id: string)
    requires blocks != [] && !IsBlockOf(blocks[0], id)
    ensures SpansOf(i, blocks, id) == SpansOf(i + |blocks[0]|, blocks[1..], id)
  {}

  lemma SkipFirst(blocks: seq<string>, m: nat, id: string)
    requires m < |blocks| - 1 && !IsBlockOf(blocks[0], id)
    ensures Concat(blocks[..m + 1]) == blocks[0] + Concat(blocks[1..][..m]) && blocks[1..][m + 1..] == blocks[m + 2..]
    ensures BlocksOf(blocks[..m + 1], id) == BlocksOf(blocks[1..][..m], id) && BlocksOf(blocks, id) == BlocksOf(blocks[1..], id)
  {
    assert blocks[..m + 1][1..] == blocks[1..][..m];
  }

  lemma {:induction false} SameCount(i: nat, blocks: seq<string>, id: string)
    ensures |SpansOf(i, blocks, id)| == |BlocksOf(blocks, id)|
    decreases |blocks|
  {
    if blocks != [] {
      SameCount(i + |blocks[0]|, blocks[1..], id);
    }
  }

  /** The text and status `find_queue_block` reports for a task. */
  type View = Result<(string, string), QueueError>

  function ViewOf(r: Result<QueueBlock, QueueError>): View {
    match r case Ok(b) => Ok((b.text, b.status)) case Err(e) => Err(e)
  }

  function Seen(s: string, id: string): View { ViewOf(FindBlock(s, id)) }

  function SeenIn(found: seq<string>): View {
    if found == [] then Err(NoBlock)
    else if |found| > 1 then Err(DuplicateBlocks)
    else ViewOf(ReadBlock(0, found[0]))
  }

  /** A task with one block among the parts is found there; the block's span is its own. */
  lemma {:induction false} FindOnly(s: string, preamble: string, blocks: seq<string>, id: string) returns (k: nat)
    requires Parts(s, preamble, blocks) && IsTaskId(id) && |BlocksOf(blocks, id)| == 1
    ensures k < |blocks| && BlocksOf(blocks, id) == [blocks[k]]
    ensures FindBlock(s, id) == ReadBlock(|preamble| + |Concat(blocks[..k])|, blocks[k])
    ensures BlocksOf(blocks[..k], id) == [] && BlocksOf(blocks[k + 1..], id) == []
  {
    FindInSpans(s, preamble, blocks, id);
    k := OnlySlice(s, preamble, blocks, id);
  }

  lemma {:induction false} OnlySlice(s: string, preamble: string, blocks: seq<string>, id: string) returns (k: nat)
    requires s == preamble + Concat(blocks) && |SpansOf(|preamble|, blocks, id)| == 1
    ensures k < |blocks| && BlocksOf(blocks, id) == [blocks[k]]
    ensures OnlyBlock(s, SpansOf(|preamble|, blocks, id)) == ReadBlock(|preamble| + |Concat(blocks[..k])|, blocks[k])
    ensures ViewOf(OnlyBlock(s, SpansOf(|preamble|, blocks, id))) == SeenIn([blocks[k]])
    ensures BlocksOf(blocks[..k], id) == [] && BlocksOf(blocks[k + 1..], id) == []
  {
    k := SpanOfOnly(|preamble|, blocks, id);
    SliceOfPart(preamble, blocks, k);
    OnlyBlockIs(s, SpansOf(|preamble|, blocks, id), blocks[k]);
  }

  lemma OnlyBlockIs(s: string, found: seq<(nat, nat)>, text: string)
    requires |found| == 1 && found[0].0 <= found[0].1 <= |s| && s[found[0].0..found[0].1] == text
    ensures OnlyBlock(s, found) == ReadBlock(found[0].0, text) && ViewOf(OnlyBlock(s, found)) == SeenIn([text])
  {
    SeenInOne(ReadBlock(found[0].0, text), found[0].0, text);
  }

  /** What finding a task reports depends on that task's blocks alone. */
  lemma {:induction false} FindInParts(s: string, preamble: string, blocks: seq<string>, id: string)
    requires Parts(s, preamble, blocks) && IsTaskId(id)
    ensures Seen(s, id) == SeenIn(BlocksOf(blocks, id))
  {
    FindInSpans(s, preamble, blocks, id);
    SeenInSpans(s, preamble, blocks, id);
  }

  lemma {:induction false} SeenInSpans(s: string, preamble: string, blocks: seq<string>, id: string)
    requires s == preamble + Concat(blocks) && |SpansOf(|preamble|, blocks, id)| == |BlocksOf(blocks, id)|
    ensures ViewOf(OnlyBlock(s, SpansOf(|preamble|, blocks, id))) == SeenIn(BlocksOf(blocks, id))
  {
    if |SpansOf(|preamble|, blocks, id)| == 1 {
      var k := OnlySlice(s, preamble, blocks, id);
    } else {
      SeenInOther(s, SpansOf(|preamble|, blocks, id), BlocksOf(blocks, id));
    }
  }

  lemma SeenInOne(r: Result<QueueBlock, QueueError>, start: nat, text: string)
    requires r == ReadBlock(start, text)
    ensures SeenIn([text]) == ViewOf(r)
  {
    ReadAnywhere(start, text);
  }

  lemma SeenInOther(s: string, spans: seq<(nat, nat)>, found: seq<string>)
    requires |spans| == |found| != 1
    ensures ViewOf(OnlyBlock(s, spans)) == SeenIn(found)
  {}

  lemma {:induction false} FindInSpans(s: string, preamble: string, blocks: seq<string>, id: string)
    requires Parts(s, preamble, blocks) && IsTaskId(id)
    ensures FindBlock(s, id) == OnlyBlock(s, SpansOf(|preamble|, blocks, id))
    ensures |SpansOf(|preamble|, blocks, id)| == |BlocksOf(blocks, id)|
  {
    WindowsOfParts(s, preamble, blocks);
    MatchingParts(preamble, blocks, id);
    SameCount(|preamble|, blocks, id);
  }

  lemma ReadAnywhere(start: nat, text: string)
    ensures ViewOf(ReadBlock(start, text)) == ViewOf(ReadBlock(0, text))
  {}

  /** A block lies behind the preamble and the blocks before it. */
  lemma {:induction false} SliceOfPart(preamble: string, blocks: seq<string>, k: nat)
    requires k < |blocks|
    ensures var s, start := preamble + Concat(blocks), |preamble| + |Concat(blocks[..k])|;
            && start + |blocks[k]| <= |s| && s[start..start + |blocks[k]|] == blocks[k]
            && s[..start] == preamble + Concat(blocks[..k])
            && s[start + |blocks[k]|..] == Concat(blocks[k + 1..])
  {
    var x, b, y := preamble + Concat(blocks[..k]), blocks[k], Concat(blocks[k + 1..]);
    assert preamble + Concat(blocks) == x + b + y by {
      assert blocks == blocks[..k] + blocks[k..];
      ConcatSplit(blocks[..k], blocks[k..]);
      assert blocks[k..][1..] == blocks[k + 1..];
      Assoc(preamble, Concat(blocks[..k]), b + y);
      Assoc(x, b, y);
    }
  }

  // ---------------------------------------------------------------------------------------
  // Rewriting one status
  // ---------------------------------------------------------------------------------------

  /** A block with the status of its header rewritten. */
  function Retitle(text: string, status: string): string
    requires StatusStart(Header(text)).Some?
  {
    var header := Header(text);
    text[..StatusStart(header).value] + (" " + status) + text[|header|..]
  }

  lemma {:induction false} HeaderSplits(text: string)
    ensures |Header(text)| <= |text| && text == Header(text) + text[|Header(text)|..]
    ensures '\n' !in Header(text) && (|Header(text)| < |text| ==> text[|Header(text)|] == '\n')
  {
    IndexOfFirst(text, "\n", 0);
    var h := Header(text);
    forall k | 0 <= k < |h| ensures h[k] != '\n' {
      if text[k] == '\n' { assert At(text, k, "\n"); }
    }
    if |h| < |text| {
      assert "\n"[0] == text[|h|];
    }
  }

  /** A header is what precedes the first line break. */
  lemma {:induction false} HeaderIs(header: string, tail: string)
    requires '\n' !in header && (tail == "" || tail[0] == '\n')
    ensures Header(header + tail) == header
  {
    var text := header + tail;
    IndexOfFirst(text, "\n", 0);
    match IndexOf(text, "\n", 0)
    case Some(j) =>
      assert "\n"[0] == text[j];
      if j > |header| { assert At(text, |header|, "\n"); }
    case None =>
      if tail != "" { assert At(text, |header|, "\n"); }
  }

  lemma {:induction false} WantedInHeader(text: string, id: string)
    requires IsTaskId(id) && IsBlockOf(text, id)
    ensures var header, w := Header(text), Wanted(id);
            |w| <= |header| && forall k | 0 <= k < |w| :: header[k] == w[k] && w[k] != 'с' && w[k] != 'С'
  {
    var w := Wanted(id);
    HeaderSplits(text);
    WantedSingleLine(id);
    forall k | 0 <= k < |w| ensures text[k] == w[k] != '\n' { assert text[0 + k] == w[k]; }
  }

  /** The status keyword stands after the task's heading. */
  lemma {:induction false} StatusAfterHeading(text: string, id: string)
    requires IsTaskId(id) && IsBlockOf(text, id) && StatusStart(Header(text)).Some?
    ensures var at := StatusStart(Header(text)).value;
            |Wanted(id)| + 7 <= at <= |Header(text)| && At(Header(text)[..at], 0, Wanted(id))
  {
    var header, w := Header(text), Wanted(id);
    WantedInHeader(text, id);
    IndexOfFirst(header, LOWER_STATUS, 0);
    IndexOfFirst(header, UPPER_STATUS, 0);
    var j := StatusStart(header).value - 7;
    assert LOWER_STATUS[0] == 'с' && UPPER_STATUS[0] == 'С';
    assert header[j] == 'с' || header[j] == 'С';
  }

  /** A heading behind a first line stands behind any other first line as well. */
  lemma {:induction false} HeadingMoves(x: string, header: string, y: string, j: nat)
    requires 0 < j && '\n' !in x && IsHeading(x + y, j)
    ensures |x| < j && IsHeading(header + y, |header| + (j - |x|))
  {
    var titled, text, m := x + y, header + y, |header| + (j - |x|);
    assert titled[j - 1] == '\n';
    assert forall k | 0 <= k < |x| :: titled[k] == x[k];
    assert text[m - 1] == y[j - 1 - |x|] == '\n';
    forall k | 0 <= k < |HEADING| ensures text[m + k] == HEADING[k] { assert titled[j + k] == HEADING[k]; }
  }

  /** Rewriting the status keeps the heading the only one of its block. */
  lemma {:induction false} RetitleWell(text: string, id: string, status: string)
    requires IsTaskId(id) && OneHeading(text) && IsBlockOf(text, id) && StatusStart(Header(text)).Some? && '\n' !in status
    ensures OneHeading(Retitle(text, status)) && IsBlockOf(Retitle(text, status), id)
    ensures EndsLine(text) ==> EndsLine(Retitle(text, status))
  {
    var header := Header(text);
    var at := StatusStart(header).value;
    var x, y := text[..at] + (" " + status), text[|header|..];
    HeaderSplits(text);
    StatusAfterHeading(text, id);
    var titled := Retitle(text, status);
    assert titled == x + y;
    forall k | 0 <= k < |Wanted(id)| ensures titled[0 + k] == Wanted(id)[k] { assert header[..at][0 + k] == Wanted(id)[k]; }
    forall k | 0 <= k < |HEADING| ensures titled[0 + k] == HEADING[k] { assert Wanted(id)[k] == HEADING[k]; }
    assert '\n' !in x by {
      forall k | 0 <= k < |x| ensures x[k] != '\n' {
        if k < at { assert x[k] == header[k]; } else if k > at { assert x[k] == status[k - at - 1]; }
      }
    }
    forall j: nat | 0 < j ensures !IsHeading(titled, j) {
      if IsHeading(titled, j) { HeadingMoves(x, header, y, j); }
    }
  }

  predicate Contains(s: string, pattern: string) { IndexOf(s, pattern, 0).Some? }

  /** An occurrence in `a + " " + b` of a pattern without spaces lies in `a` or in `b`. */
  lemma {:induction false} OccursInSide(a: string, b: string, pattern: string, i: nat)
    requires ' ' !in pattern && pattern != "" && At(a + " " + b, i, pattern)
    ensures if i < |a| then At(a, i, pattern) else i > |a| && At(b, i - |a| - 1, pattern)
  {
    var s := a + " " + b;
    assert s[|a|] == ' ';
    forall k | i <= k < i + |pattern| ensures s[k] != ' ' { assert pattern[k - i] == s[i + (k - i)]; }
    if i < |a| {
      forall k | 0 <= k < |pattern| ensures a[i + k] == pattern[k] { assert s[i + k] == pattern[k]; }
    } else {
      forall k | 0 <= k < |pattern| ensures b[i - |a| - 1 + k] == pattern[k] { assert s[i + k] == pattern[k]; }
    }
  }

  lemma AtExtends(a: string, b: string, i: nat, pattern: string)
    requires At(a, i, pattern)
    ensures At(a + b, i, pattern)
  {
    forall k | 0 <= k < |pattern| ensures (a + b)[i + k] == pattern[k] { assert a[i + k] == pattern[k]; }
  }

  lemma {:induction false} FirstIs(s: string, pattern: string, i: nat, j: nat)
    requires i <= j && At(s, j, pattern) && forall k: nat | i <= k < j :: !At(s, k, pattern)
    ensures IndexOf(s, pattern, i) == Some(j)
    decreases j - i
  {
    if i < j {
      FirstIs(s, pattern, i + 1, j);
    }
  }

  lemma {:induction false} NowhereIs(s: string, pattern: string)
    requires forall i: nat :: !At(s, i, pattern)
    ensures IndexOf(s, pattern, 0) == None
  {
    IndexOfFirst(s, pattern, 0);
  }

  /** The keyword found in a header is found again after the rewrite, at the same place. */
  lemma {:induction false} KeywordStays(header: string, keyword: string, status: string)
    requires ' ' !in keyword && |keyword| == 7 && Contains(header, keyword)
    ensures var at := IndexOf(header, keyword, 0).value + 7;
            IndexOf(header[..at] + " " + status, keyword, 0) == IndexOf(header, keyword, 0)
  {
    IndexOfFirst(header, keyword, 0);
    var j := IndexOf(header, keyword, 0).value;
    var a := header[..j + 7];
    var s := a + " " + status;
    forall k | 0 <= k < |keyword| ensures a[j + k] == keyword[k] { assert header[j + k] == keyword[k]; }
    AtExtends(a, " " + status, j, keyword);
    assert a + (" " + status) == s;
    assert a + header[j + 7..] == header;
    forall i: nat | i < j ensures !At(s, i, keyword) {
      if At(s, i, keyword) {
        OccursInSide(a, status, keyword, i);
        AtExtends(a, header[j + 7..], i, keyword);
      }
    }
    FirstIs(s, keyword, 0, j);
  }

  /** A keyword absent from a header occurs after the rewrite where the new status contains it. */
  lemma {:induction false} KeywordAbsent(header: string, at: nat, keyword: string, status: string)
    requires ' ' !in keyword && keyword != "" && at <= |header| && !Contains(header, keyword)
    ensures IndexOf(header[..at] + " " + status, keyword, 0) ==
            match IndexOf(status, keyword, 0) case Some(p) => Some(at + 1 + p) case None => None
  {
    var a := header[..at];
    var s := a + " " + status;
    IndexOfFirst(header, keyword, 0);
    IndexOfFirst(status, keyword, 0);
    assert a + header[at..] == header;
    forall i: nat | At(s, i, keyword) ensures i > at && At(status, i - at - 1, keyword) {
      OccursInSide(a, status, keyword, i);
      if i < at {
        AtExtends(a, header[at..], i, keyword);
      }
    }
    match IndexOf(status, keyword, 0)
    case Some(p) =>
      forall k | 0 <= k < |keyword| ensures s[at + 1 + p + k] == keyword[k] { assert status[p + k] == keyword[k]; }
      FirstIs(s, keyword, 0, at + 1 + p);
    case None =>
      NowhereIs(s, keyword);
  }

  /** What the rewritten header reads as: the new status, unless the old header only had the
      capitalised keyword and the new status brings the other one, which is then read instead. */
  function StatusReadBack(header: string, status: string): string {
    if Contains(header, LOWER_STATUS) then Trim(status)
    else match IndexOf(status, LOWER_STATUS, 0) case Some(p) => Trim(status[p + 7..]) case None => Trim(status)
  }

  lemma {:induction false} ReadBack(header: string, status: string)
    requires StatusStart(header).Some?
    ensures var at := StatusStart(header).value;
            var titled := header[..at] + " " + status;
            StatusStart(titled).Some? && Trim(titled[StatusStart(titled).value..]) == StatusReadBack(header, status)
  {
    var at := StatusStart(header).value;
    if Contains(header, LOWER_STATUS) {
      ReadBehindLower(header[..at], header[at..], status) by { LowerStays(header, status); }
    } else {
      ReadBehindUpper(header[..at], header[at..], status) by { UpperStays(header, status); }
    }
  }

  lemma {:induction false} LowerStays(header: string, status: string)
    requires Contains(header, LOWER_STATUS)
    ensures var at := StatusStart(header).value;
            IndexOf(header[..at] + " " + status, LOWER_STATUS, 0) == Some(at - 7)
  {
    assert ' ' !in LOWER_STATUS;
    KeywordStays(header, LOWER_STATUS, status);
  }

  lemma {:induction false} UpperStays(header: string, status: string)
    requires StatusStart(header).Some? && !Contains(header, LOWER_STATUS)
    ensures var at := StatusStart(header).value;
            && header[..at] + header[at..] == header
            && IndexOf(header[..at] + " " + status, UPPER_STATUS, 0) == Some(at - 7)
  {
    assert ' ' !in UPPER_STATUS;
    KeywordStays(header, UPPER_STATUS, status);
  }

  lemma {:induction false} ReadBehindLower(a: string, z: string, status: string)
    requires IndexOf(a + " " + status, LOWER_STATUS, 0) == Some(|a| - 7)
    ensures var titled := a + " " + status;
            StatusStart(titled).Some? && Trim(titled[StatusStart(titled).value..]) == Trim(status)
  {
    FromSpace(a, status);
  }

  /** Without the lower-case keyword in the header, one inside the new status is the one read. */
  lemma {:induction false} ReadBehindUpper(a: string, z: string, status: string)
    requires !Contains(a + z, LOWER_STATUS) && IndexOf(a + " " + status, UPPER_STATUS, 0) == Some(|a| - 7)
    ensures var titled := a + " " + status;
            StatusStart(titled).Some? && Trim(titled[StatusStart(titled).value..]) ==
              match IndexOf(status, LOWER_STATUS, 0) case Some(p) => Trim(status[p + 7..]) case None => Trim(status)
  {
    assert ' ' !in LOWER_STATUS;
    assert (a + z)[..|a|] == a;
    KeywordAbsent(a + z, |a|, LOWER_STATUS, status);
    match IndexOf(status, LOWER_STATUS, 0)
    case Some(p) => BehindSpace(a, status, p + 7);
    case None => FromSpace(a, status);
  }

  lemma BehindSpace(a: string, status: string, p: nat)
    requires p <= |status|
    ensures (a + " " + status)[|a| + 1 + p..] == status[p..]
  {}

  lemma FromSpace(a: string, status: string)
    ensures Trim((a + " " + status)[|a|..]) == Trim(status)
  {
    assert (a + " " + status)[|a|..] == " " + status;
    assert (" " + status)[1..] == status;
  }

  // ---------------------------------------------------------------------------------------
  // What an edit does to the queue
  // ---------------------------------------------------------------------------------------

  lemma {:induction false} FoundIsOnly(s: string, preamble: string, blocks: seq<string>, id: string) returns (k: nat)
    requires Parts(s, preamble, blocks) && IsTaskId(id) && FindBlock(s, id).Ok?
    ensures k < |blocks| && BlocksOf(blocks, id) == [blocks[k]] && IsBlockOf(blocks[k], id)
    ensures FindBlock(s, id) == ReadBlock(|preamble| + |Concat(blocks[..k])|, blocks[k])
    ensures BlocksOf(blocks[..k], id) == [] && BlocksOf(blocks[k + 1..], id) == []
  {
    FindInSpans(s, preamble, blocks, id);
    k := FindOnly(s, preamble, blocks, id);
    OnlyIsOf(blocks, id);
  }

  lemma {:induction false} OnlyIsOf(blocks: seq<string>, id: string)
    ensures forall b | b in BlocksOf(blocks, id) :: IsBlockOf(b, id)
  {
    if blocks != [] {
      OnlyIsOf(blocks[1..], id);
    }
  }

  /** Replacing one block of a queue by another well-formed block. */
  lemma {:induction false} SwapParts(preamble: string, blocks: seq<string>, k: nat, block: string)
    requires WellPreamble(preamble, blocks) && WellBlocks(blocks) && k < |blocks|
    requires OneHeading(block) && (EndsLine(blocks[k]) ==> EndsLine(block))
    ensures Parts(preamble + Concat(blocks[..k]) + block + Concat(blocks[k + 1..]), preamble, blocks[k := block])
  {
    var swapped := blocks[k := block];
    assert swapped[..k] == blocks[..k] && swapped[k + 1..] == blocks[k + 1..];
    PartsAround(preamble, swapped, k);
    WellSwapped(blocks, k, block);
  }

  lemma WellSwapped(blocks: seq<string>, k: nat, block: string)
    requires WellBlocks(blocks) && k < |blocks| && OneHeading(block) && (EndsLine(blocks[k]) ==> EndsLine(block))
    ensures WellBlocks(blocks[k := block])
  {}

  lemma Spliced(s: string, x: string, text: string, y: string, at: nat, h: nat, mid: string)
    requires at <= h <= |text| && s == x + text + y
    ensures s[..|x| + at] + mid + s[|x| + h..] == x + (text[..at] + mid + text[h..]) + y
  {
    assert s[..|x| + at] == x + text[..at];
    assert s[|x| + h..] == text[h..] + y;
    Assoc(x, text[..at], mid);
    Assoc(x, text[..at] + mid, text[h..]);
    Assoc(x + (text[..at] + mid), text[h..], y);
  }

  lemma {:induction false} FieldsOf(start: nat, text: string, b: QueueBlock)
    requires ReadBlock(start, text) == Ok(b)
    ensures b.start == start && b.end == start + |text| && b.text == text && StatusStart(Header(text)).Some?
    ensures b.statusStart == start + StatusStart(Header(text)).value && b.headerEnd == start + |Header(text)|
    ensures b.statusStart <= b.headerEnd <= b.end
  {
    HeaderSplits(text);
    StatusInside(Header(text));
  }

  lemma {:induction false} BlockLies(preamble: string, blocks: seq<string>, k: nat, b: QueueBlock)
    requires k < |blocks| && ReadBlock(|preamble| + |Concat(blocks[..k])|, blocks[k]) == Ok(b)
    ensures var s := preamble + Concat(blocks);
            && b.start <= b.statusStart <= b.headerEnd <= b.end <= |s| && b.text == blocks[k] == s[b.start..b.end]
            && s[..b.start] == preamble + Concat(blocks[..k]) && s[b.end..] == Concat(blocks[k + 1..])
            && StatusStart(Header(b.text)).Some? && b.statusStart == b.start + StatusStart(Header(b.text)).value
            && b.headerEnd == b.start + |Header(b.text)|
  {
    FieldsOf(|preamble| + |Concat(blocks[..k])|, blocks[k], b);
    SliceOfPart(preamble, blocks, k);
  }

  /** `replace_block_status` rewrites exactly one block: the queue's preamble and every other
      block are untouched, and no block appears or disappears. */
  lemma {:induction false} ReplaceStatusParts(s: string, preamble: string, blocks: seq<string>, id: string, b: QueueBlock, status: string)
    returns (k: nat)
    requires Parts(s, preamble, blocks) && IsTaskId(id) && FindBlock(s, id) == Ok(b) && '\n' !in status
    ensures k < |blocks| && BlocksOf(blocks, id) == [blocks[k]] && StatusStart(Header(blocks[k])).Some?
    ensures b.start <= b.statusStart <= b.headerEnd <= b.end <= |s| && b.text == blocks[k]
    ensures Parts(ReplaceStatus(s, b, status), preamble, blocks[k := Retitle(blocks[k], status)])
    ensures IsBlockOf(Retitle(blocks[k], status), id)
    ensures BlocksOf(blocks[..k], id) == [] && BlocksOf(blocks[k + 1..], id) == []
  {
    k := FoundIsOnly(s, preamble, blocks, id);
    BlockLies(preamble, blocks, k, b);
    RewriteLies(preamble, blocks, k, b, status);
    RetitleWell(blocks[k], id, status);
    SwapParts(preamble, blocks, k, Retitle(blocks[k], status));
  }

  lemma {:induction false} RewriteLies(preamble: string, blocks: seq<string>, k: nat, b: QueueBlock, status: string)
    requires k < |blocks| && ReadBlock(|preamble| + |Concat(blocks[..k])|, blocks[k]) == Ok(b)
    requires b.statusStart <= b.headerEnd <= |preamble + Concat(blocks)|
    ensures StatusStart(Header(blocks[k])).Some?
    ensures ReplaceStatus(preamble + Concat(blocks), b, status) ==
            preamble + Concat(blocks[..k]) + Retitle(blocks[k], status) + Concat(blocks[k + 1..])
  {
    var s, x, text, y := preamble + Concat(blocks), preamble + Concat(blocks[..k]), blocks[k], Concat(blocks[k + 1..]);
    assert |x| == |preamble| + |Concat(blocks[..k])|;
    FieldsOf(|x|, text, b);
    assert s == x + text + y by { PartsAround(preamble, blocks, k); }
    Spliced(s, x, text, y, b.statusStart - |x|, b.headerEnd - |x|, " " + status);
  }

  lemma {:induction false} PartsAround(preamble: string, blocks: seq<string>, k: nat)
    requires k < |blocks|
    ensures preamble + Concat(blocks) == preamble + Concat(blocks[..k]) + blocks[k] + Concat(blocks[k + 1..])
  {
    SliceOfPart(preamble, blocks, k);
  }

  lemma {:induction false} DropParts(preamble: string, blocks: seq<string>, k: nat)
    requires WellPreamble(preamble, blocks) && WellBlocks(blocks) && k < |blocks|
    ensures Parts(preamble + Concat(blocks[..k]) + Concat(blocks[k + 1..]), preamble, blocks[..k] + blocks[k + 1..])
  {
    ConcatSplit(blocks[..k], blocks[k + 1..]);
    Assoc(preamble, Concat(blocks[..k]), Concat(blocks[k + 1..]));
  }

  /** `remove_block` takes exactly one block out of the queue. */
  lemma {:induction false} RemoveBlockParts(s: string, preamble: string, blocks: seq<string>, id: string, b: QueueBlock)
    returns (k: nat)
    requires Parts(s, preamble, blocks) && IsTaskId(id) && FindBlock(s, id) == Ok(b)
    ensures k < |blocks| && BlocksOf(blocks, id) == [blocks[k]]
    ensures b.start <= b.end <= |s| && b.text == blocks[k]
    ensures Parts(RemoveBlock(s, b), preamble, blocks[..k] + blocks[k + 1..])
    ensures BlocksOf(blocks[..k], id) == [] && BlocksOf(blocks[k + 1..], id) == []
  {
    k := FoundIsOnly(s, preamble, blocks, id);
    BlockLies(preamble, blocks, k, b);
    DropParts(preamble, blocks, k);
  }

  lemma {:induction false} BracketFirst(block: string, id: string)
    requires IsTaskId(id) && IsBlockOf(block, id)
    ensures IndexOf(block, "]", 0) == Some(5 + |id|)
    ensures |block| > 5 + |id| && block[5..5 + |id|] == id
  {
    var w := Wanted(id);
    forall k | 0 <= k < |w| ensures block[k] == w[k] { assert block[0 + k] == w[k]; }
    forall k | 0 <= k < |id| ensures id[k] != ']' {
      assert id[..2][0] == 'T' && id[..2][1] == '-';
      if k >= 2 { assert id[2..][k - 2] in id[2..]; }
    }
    assert HEADING[0] == '#' && HEADING[1] == '#' && HEADING[2] == '#' && HEADING[3] == ' ' && HEADING[4] == '[';
    forall k: nat | k < 5 + |id| ensures !At(block, k, "]") {
      OneChar(block, k, ']');
    }
    OneChar(block, 5 + |id|, ']');
    FirstIs(block, "]", 0, 5 + |id|);
  }

  /** Two tasks never own the same block: `T-1` is not `T-10`. */
  lemma {:induction false} OneOwner(block: string, a: string, b: string)
    requires IsTaskId(a) && IsTaskId(b) && a != b && IsBlockOf(block, a)
    ensures !IsBlockOf(block, b)
  {
    if IsBlockOf(block, b) {
      BracketFirst(block, a);
      BracketFirst(block, b);
    }
  }

  lemma {:induction false} OthersAfterSwap(blocks: seq<string>, k: nat, block: string, id: string, other: string)
    requires k < |blocks| && IsTaskId(id) && IsTaskId(other) && id != other
    requires IsBlockOf(blocks[k], id) && IsBlockOf(block, id)
    ensures BlocksOf(blocks[k := block], other) == BlocksOf(blocks, other)
    ensures BlocksOf(blocks[..k] + blocks[k + 1..], other) == BlocksOf(blocks, other)
  {
    var a, c := blocks[..k], blocks[k + 1..];
    assert blocks == a + ([blocks[k]] + c) && blocks[k := block] == a + ([block] + c);
    BlocksOfSplit(a, [blocks[k]] + c, other);
    BlocksOfSplit(a, [block] + c, other);
    BlocksOfSplit(a, c, other);
    OneOwner(blocks[k], id, other);
    OneOwner(block, id, other);
    assert ([blocks[k]] + c)[1..] == c && ([block] + c)[1..] == c;
  }

  lemma {:induction false} OwnAfterSwap(blocks: seq<string>, k: nat, block: string, id: string)
    requires k < |blocks| && IsBlockOf(block, id)
    requires BlocksOf(blocks[..k], id) == [] && BlocksOf(blocks[k + 1..], id) == []
    ensures BlocksOf(blocks[k := block], id) == [block]
    ensures BlocksOf(blocks[..k] + blocks[k + 1..], id) == []
  {
    var a, c := blocks[..k], blocks[k + 1..];
    assert blocks[k := block] == a + ([block] + c);
    BlocksOfSplit(a, [block] + c, id);
    BlocksOfSplit(a, c, id);
    assert ([block] + c)[1..] == c;
  }

  /** The rewritten header is what it was up to the keyword, a space and the new status. */
  lemma {:induction false} RetitledReads(text: string, status: string)
    requires StatusStart(Header(text)).Some? && '\n' !in status
    ensures var read := StatusReadBack(Header(text), status);
            SeenIn([Retitle(text, status)]) == if read == "" then Err(EmptyStatus) else Ok((Retitle(text, status), read))
  {
    var header := Header(text);
    var at := StatusStart(header).value;
    HeaderSplits(text);
    StatusInside(header);
    var h := header[..at] + " " + status;
    assert Retitle(text, status) == h + text[|header|..] by {
      assert text[..at] == header[..at];
      Assoc(header[..at], " ", status);
    }
    assert '\n' !in h by {
      forall i | 0 <= i < |h| ensures h[i] != '\n' {
        if i < at { assert h[i] == header[i]; } else if i > at { assert h[i] == status[i - at - 1]; }
      }
    }
    HeaderIs(h, text[|header|..]);
    ReadBack(header, status);
  }

  /** Rewriting a status and finding the task again reads the header of the rewritten block; every
      other task is seen exactly as before, and blocks stay in their order. */
  lemma ReplaceThenFind(s: string, id: string, b: QueueBlock, status: string, other: string)
    requires IsTaskId(id) && FindBlock(s, id) == Ok(b) && '\n' !in status && IsTaskId(other) && other != id
    ensures b.start <= b.statusStart <= b.headerEnd <= b.end <= |s|
    ensures var edited, read := ReplaceStatus(s, b, status), StatusReadBack(Header(b.text), status);
            && StatusStart(Header(b.text)).Some?
            && Seen(edited, id) == (if read == "" then Err(EmptyStatus) else Ok((Retitle(b.text, status), read)))
            && Seen(edited, other) == Seen(s, other)
  {
    var preamble, blocks := Partition(s);
    var k := ReplaceStatusParts(s, preamble, blocks, id, b, status);
    var titled := Retitle(blocks[k], status);
    var edited := ReplaceStatus(s, b, status);
    FindInParts(s, preamble, blocks, id);
    FindInParts(edited, preamble, blocks[k := titled], id);
    OwnAfterSwap(blocks, k, titled, id);
    RetitledReads(blocks[k], status);
    OnlyIsOf(blocks, id);
    FindInParts(s, preamble, blocks, other);
    FindInParts(edited, preamble, blocks[k := titled], other);
    OthersAfterSwap(blocks, k, titled, id, other);
  }

  /** Removing a block leaves the task absent and every other task exactly as before; nothing
      new appears where the two halves meet. */
  lemma RemoveThenFind(s: string, id: string, b: QueueBlock, other: string)
    requires IsTaskId(id) && FindBlock(s, id) == Ok(b) && IsTaskId(other) && other != id
    ensures b.start <= b.end <= |s|
    ensures Seen(RemoveBlock(s, b), id) == Err(NoBlock)
    ensures Seen(RemoveBlock(s, b), other) == Seen(s, other)
  {
    var preamble, blocks := Partition(s);
    var k := RemoveBlockParts(s, preamble, blocks, id, b);
    var left := blocks[..k] + blocks[k + 1..];
    OnlyIsOf(blocks, id);
    FindInParts(RemoveBlock(s, b), preamble, left, id);
    OwnAfterSwap(blocks, k, blocks[k], id);
    FindInParts(s, preamble, blocks, other);
    FindInParts(RemoveBlock(s, b), preamble, left, other);
    OthersAfterSwap(blocks, k, blocks[k], id, other);
  }

  // ---------------------------------------------------------------------------------------
  // A queue of one row
  // ---------------------------------------------------------------------------------------

  function RowFor(id: string, keyword: string, status: string): string { Wanted(id) + " " + (keyword + " " + status) }

  lemma {:induction false} RowKeyword(id: string, keyword: string, status: string)
    requires IsTaskId(id) && keyword in {LOWER_STATUS, UPPER_STATUS} && !Contains(status, LOWER_STATUS)
    ensures StatusStart(RowFor(id, keyword, status)) == Some(|Wanted(id)| + 8)
  {
    var row, w, rest := RowFor(id, keyword, status), Wanted(id), keyword + " " + status;
    assert LOWER_STATUS[0] == 'с' && UPPER_STATUS[0] == 'С';
    assert ' ' !in LOWER_STATUS && ' ' !in UPPER_STATUS;
    WantedSingleLine(id);
    forall k | 0 <= k < 7 ensures row[|w| + 1 + k] == keyword[k] {}
    assert At(row, |w| + 1, keyword);
    forall i: nat, pattern | i <= |w| && pattern in {LOWER_STATUS, UPPER_STATUS} ensures !At(row, i, pattern) {
      NotAt(row, i, pattern);
    }
    FirstIs(row, keyword, 0, |w| + 1);
    if keyword == UPPER_STATUS {
      IndexOfFirst(status, LOWER_STATUS, 0);
      forall i: nat ensures !At(row, i, LOWER_STATUS) {
        if At(row, i, LOWER_STATUS) {
          OccursInSide(w, rest, LOWER_STATUS, i);
          NotInUpper(status, i - |w| - 1);
        }
      }
      NowhereIs(row, LOWER_STATUS);
    }
  }

  lemma NotInUpper(status: string, i: nat)
    requires At(UPPER_STATUS + " " + status, i, LOWER_STATUS)
    ensures exists j: nat :: At(status, j, LOWER_STATUS)
  {
    assert ' ' !in LOWER_STATUS && LOWER_STATUS[0] == 'с' && 'с' !in UPPER_STATUS[..1];
    OccursInSide(UPPER_STATUS, status, LOWER_STATUS, i);
    if i < 7 { AtTail(UPPER_STATUS, i, LOWER_STATUS); }
  }

  lemma NotAt(s: string, i: nat, pattern: string)
    requires pattern != "" && (i < |s| ==> s[i] != pattern[0])
    ensures !At(s, i, pattern)
  {
    if At(s, i, pattern) { AtTail(s, i, pattern); }
  }

  /** A row is found in the queue it makes up. */
  lemma {:induction false} RowIsFound(id: string, keyword: string, status: string)
    requires IsTaskId(id) && keyword in {LOWER_STATUS, UPPER_STATUS}
    requires '\n' !in status && !Contains(status, LOWER_STATUS) && Trim(status) != ""
    ensures var row := RowFor(id, keyword, status);
            Header(row) == row && FindBlock(row, id) == Ok(QueueBlock(0, |row|, |row|, |Wanted(id)| + 8, row, Trim(status)))
  {
    var row, w := RowFor(id, keyword, status), Wanted(id);
    RowIsBlock(id, keyword, status);
    assert [row][1..] == [] && row + "" == row && "" + row == row;
    var k := FindOnly(row, "", [row], id);
    assert [row][..0] == [];
    RowReads(id, keyword, status);
  }

  lemma RowReads(id: string, keyword: string, status: string)
    requires IsTaskId(id) && keyword in {LOWER_STATUS, UPPER_STATUS} && '\n' !in RowFor(id, keyword, status)
    requires !Contains(status, LOWER_STATUS) && Trim(status) != ""
    ensures var row := RowFor(id, keyword, status);
            Header(row) == row && ReadBlock(0, row) == Ok(QueueBlock(0, |row|, |row|, |Wanted(id)| + 8, row, Trim(status)))
  {
    OnlyLine(RowFor(id, keyword, status));
    RowKeyword(id, keyword, status);
    BehindKeyword(Wanted(id), keyword, status);
    ReadsFrom(RowFor(id, keyword, status), |Wanted(id)| + 8, Trim(status));
  }

  lemma OnlyLine(s: string)
    requires '\n' !in s
    ensures Header(s) == s
  {
    assert s + "" == s;
    HeaderIs(s, "");
  }

  lemma ReadsFrom(row: string, at: nat, status: string)
    requires Header(row) == row && StatusStart(row) == Some(at) && at <= |row| && Trim(row[at..]) == status != ""
    ensures ReadBlock(0, row) == Ok(QueueBlock(0, |row|, |row|, at, row, status))
  {}

  lemma BehindKeyword(w: string, keyword: string, status: string)
    requires |keyword| == 7
    ensures |w + " " + (keyword + " " + status)| >= |w| + 8
    ensures Trim((w + " " + (keyword + " " + status))[|w| + 8..]) == Trim(status)
  {
    assert (w + " " + (keyword + " " + status))[|w| + 8..] == " " + status;
    assert (" " + status)[1..] == status;
  }

  lemma RowIsBlock(id: string, keyword: string, status: string)
    requires IsTaskId(id) && keyword in {LOWER_STATUS, UPPER_STATUS} && '\n' !in status
    ensures var row := RowFor(id, keyword, status); '\n' !in row && Parts(row, "", [row]) && BlocksOf([row], id) == [row]
  {
    var row, w := RowFor(id, keyword, status), Wanted(id);
    WantedSingleLine(id);
    assert '\n' !in LOWER_STATUS && '\n' !in UPPER_STATUS;
    forall k | 0 <= k < |w| ensures row[0 + k] == w[k] {}
    forall k | 0 <= k < |HEADING| ensures row[0 + k] == HEADING[k] { assert w[k] == HEADING[k]; }
    assert [row][1..] == [] && row + "" == row && "" + row == row;
  }

  // ---------------------------------------------------------------------------------------
  // When a status survives the round trip
  // ---------------------------------------------------------------------------------------

  lemma {:induction false} TrimEndShorter(s: string)
    ensures |TrimEnd(s)| <= |s|
  {
    if s != "" && IsWhitespace(s[|s| - 1]) { TrimEndShorter(s[..|s| - 1]); }
  }

  lemma {:induction false} TrimStartKeeps(a: string, b: string) returns (c: string)
    requires b != "" && !IsWhitespace(b[0])
    ensures TrimStart(a + b) == c + b
  {
    if a == "" {
      c := "";
      assert a + b == b == c + b;
    } else if IsWhitespace(a[0]) {
      assert (a + b)[1..] == a[1..] + b;
      c := TrimStartKeeps(a[1..], b);
    } else {
      c := a;
    }
  }

  lemma {:induction false} TrimStartShorter(s: string)
    ensures |TrimStart(s)| <= |s| && (s != "" && !IsWhitespace(s[|s| - 1]) ==> |TrimStart(s)| > 0)
    ensures |TrimEnd(TrimStart(s))| <= |TrimEnd(s)|
  {
    if s != "" && IsWhitespace(s[0]) {
      TrimStartShorter(s[1..]);
      DropFirstTrimEnd(s);
    }
  }

  lemma {:induction false} DropFirstTrimEnd(s: string)
    requires s != ""
    ensures |TrimEnd(s[1..])| <= |TrimEnd(s)|
    decreases |s|
  {
    if IsWhitespace(s[|s| - 1]) {
      if |s| > 1 {
        DropFirstTrimEnd(s[..|s| - 1]);
        assert s[1..][..|s| - 2] == s[..|s| - 1][1..];
      }
    } else {
      TrimEndShorter(s[1..]);
    }
  }

  /** A status read from behind a keyword inside itself is shorter than the status. */
  lemma {:induction false} ReadsLess(status: string, p: nat)
    requires At(status, p, LOWER_STATUS)
    ensures |Trim(status[p + 7..])| < |Trim(status)|
  {
    var l, r := status[..p], status[p + 7..];
    assert status == l + (LOWER_STATUS + r) by {
      forall k | 0 <= k < 7 ensures status[p + k] == LOWER_STATUS[k] {}
    }
    assert LOWER_STATUS[0] == 'с' && LOWER_STATUS[6] == ':';
    assert (LOWER_STATUS + r)[0] == 'с';
    var c := TrimStartKeeps(l, LOWER_STATUS + r);
    assert c + (LOWER_STATUS + r) == (c + LOWER_STATUS) + r;
    TrimEndKeeps(c + LOWER_STATUS, r);
    TrimStartShorter(r);
  }

  /** The status written is the status read back exactly when the header had the keyword in
      lower case or the status does not bring it; a blank status is never accepted back. */
  lemma StatusRoundTrip(s: string, id: string, b: QueueBlock, status: string)
    requires IsTaskId(id) && FindBlock(s, id) == Ok(b) && '\n' !in status && Trim(status) != ""
    ensures b.statusStart <= |s| && b.headerEnd <= |s|
    ensures (Contains(Header(b.text), LOWER_STATUS) || !Contains(status, LOWER_STATUS))
            <==> match FindBlock(ReplaceStatus(s, b, status), id) case Ok(b2) => b2.status == Trim(status) case Err(_) => false
  {
    ReplaceThenFind(s, id, b, status, OtherId(id));
    ReadsBackWhen(Header(b.text), status);
    SeenStatus(FindBlock(ReplaceStatus(s, b, status), id));
  }

  function OtherId(id: string): (other: string)
    ensures IsTaskId(other) && other != id
  {
    if id == "T-0" then "T-1" else "T-0"
  }

  lemma SeenStatus(r: Result<QueueBlock, QueueError>)
    ensures match ViewOf(r) case Ok(v) => r.Ok? && v.1 == r.value.status case Err(_) => r.Err?
  {}

  lemma {:induction false} ReadsBackWhen(header: string, status: string)
    requires Trim(status) != ""
    ensures (Contains(header, LOWER_STATUS) || !Contains(status, LOWER_STATUS)) <==> StatusReadBack(header, status) == Trim(status)
  {
    if !Contains(header, LOWER_STATUS) && Contains(status, LOWER_STATUS) {
      IndexOfFirst(status, LOWER_STATUS, 0);
      ReadsLess(status, IndexOf(status, LOWER_STATUS, 0).value);
    }
  }

  /** A row headed in title case: of a status that brings the lower-case keyword along, only what
      follows the keyword is read back. */
  lemma TitleCaseHeader(id: string, first: string, status: string)
    requires IsTaskId(id) && '\n' !in first && !Contains(first, LOWER_STATUS) && Trim(first) != ""
    requires '\n' !in status && Contains(status, LOWER_STATUS) && Trim(status[IndexOf(status, LOWER_STATUS, 0).value + 7..]) != ""
    ensures var row := RowFor(id, UPPER_STATUS, first);
            && FindBlock(row, id).Ok?
            && var b := FindBlock(row, id).value;
            && b.statusStart <= |row| && b.headerEnd <= |row|
            && match FindBlock(ReplaceStatus(row, b, status), id)
               case Ok(b2) => b2.status == Trim(status[IndexOf(status, LOWER_STATUS, 0).value + 7..]) case Err(_) => false
  {
    var row := RowFor(id, UPPER_STATUS, first);
    RowIsFound(id, UPPER_STATUS, first);
    TitleHasNoLower(id, first);
    ReadsBackAs(row, id, FindBlock(row, id).value, status);
  }

  lemma ReadsBackAs(s: string, id: string, b: QueueBlock, status: string)
    requires IsTaskId(id) && FindBlock(s, id) == Ok(b) && '\n' !in status && StatusReadBack(Header(b.text), status) != ""
    ensures b.statusStart <= |s| && b.headerEnd <= |s|
    ensures match FindBlock(ReplaceStatus(s, b, status), id)
            case Ok(b2) => b2.status == StatusReadBack(Header(b.text), status) case Err(_) => false
  {
    ReplaceThenFind(s, id, b, status, OtherId(id));
    SeenStatus(FindBlock(ReplaceStatus(s, b, status), id));
  }

  /** Such a row and such a status. */
  lemma TitleCaseExample()
    ensures var first, status := "не начата", "в работе " + LOWER_STATUS + " слита";
            && IsTaskId("T-1") && '\n' !in first && !Contains(first, LOWER_STATUS) && Trim(first) != ""
            && '\n' !in status && Contains(status, LOWER_STATUS)
            && Trim(status) != "слита" && Trim(status[IndexOf(status, LOWER_STATUS, 0).value + 7..]) == "слита"
  {
    var first, status := "не начата", "в работе " + LOWER_STATUS + " слита";
    assert "T-1"[..2] == "T-" && "T-1"[2..] == "1";
    VisibleWord(first);
    VisibleWord("слита");
    VisibleWord(status);
    FirstHasNoLower(first);
    BehindLower(status);
    assert status[0] == 'в';
  }

  lemma FirstHasNoLower(first: string)
    requires first == "не начата"
    ensures !Contains(first, LOWER_STATUS)
  {
    assert LOWER_STATUS[0] == 'с' && 'с' !in first;
    forall i: nat ensures !At(first, i, LOWER_STATUS) { NotAt(first, i, LOWER_STATUS); }
    NowhereIs(first, LOWER_STATUS);
  }

  lemma VisibleWord(word: string)
    requires word != "" && !IsWhitespace(word[0]) && !IsWhitespace(word[|word| - 1])
    ensures Trim(word) == word && Trim(" " + word) == word
  {
    assert word + "" == word && (" " + word)[1..] == word;
    TrimEndKeeps(word, "");
  }

  lemma TitleHasNoLower(id: string, status: string)
    requires IsTaskId(id) && !Contains(status, LOWER_STATUS)
    ensures !Contains(RowFor(id, UPPER_STATUS, status), LOWER_STATUS)
  {
    RowKeyword(id, UPPER_STATUS, status);
    var row, w := RowFor(id, UPPER_STATUS, status), Wanted(id);
    IndexOfFirst(row, LOWER_STATUS, 0);
    if Contains(row, LOWER_STATUS) {
      assert At(row, |w| + 1, LOWER_STATUS);
      CharsAt(row, |w| + 1, LOWER_STATUS);
    }
  }

  lemma CharsAt(row: string, i: nat, pattern: string)
    requires At(row, i, pattern) && pattern != ""
    ensures row[i] == pattern[0]
  {}

  lemma BehindLower(status: string)
    requires status == "в работе " + LOWER_STATUS + " слита"
    ensures IndexOf(status, LOWER_STATUS, 0) == Some(9) && status[16..] == " слита"
  {
    forall k | 0 <= k < 7 ensures status[9 + k] == LOWER_STATUS[k] {}
    assert LOWER_STATUS[0] == 'с';
    forall i: nat | i < 9 ensures !At(status, i, LOWER_STATUS) { NotAt(status, i, LOWER_STATUS); }
    FirstIs(status, LOWER_STATUS, 0, 9);
  }
}
