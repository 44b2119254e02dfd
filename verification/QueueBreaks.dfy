/** Statuses with line breaks in them, written into `Tasks_Queue.md`: what the rewritten row shows,
    and what such a status does to other rows. The engine writes one when a worktree's name holds a
    line break. */
module QueueBreaks {
  import opened Text
  import opened QueueText

  /** A line of the text, but its first, starts with the pattern. */
  predicate HeadsLine(s: string, pattern: string) {
    exists j | 0 < j < |s| :: s[j - 1] == '\n' && At(s, j, pattern)
  }

  // ---------------------------------------------------------------------------------------
  // Blocks that come out of one block
  // ---------------------------------------------------------------------------------------

  lemma WantedIsHeading(s: string, j: nat, id: string)
    requires At(s, j, Wanted(id))
    ensures At(s, j, HEADING) && j < |s|
  {
    AtConcat(s, j, HEADING + id, "]");
    AtConcat(s, j, HEADING, id);
  }

  lemma LonelyHeading(t: string, id: string)
    requires forall j: nat | 0 < j < |t| :: !IsHeading(t, j)
    ensures !HeadsLine(t, Wanted(id))
  {
    if HeadsLine(t, Wanted(id)) {
      var j :| 0 < j < |t| && t[j - 1] == '\n' && At(t, j, Wanted(id));
      WantedIsHeading(t, j, id);
      assert IsHeading(t, j);
    }
  }

  /** Headings of a task in whole lines and what follows them. */
  lemma HeadsLater(b: string, rest: string, id: string)
    requires IsTaskId(id) && EndsLine(b) && b != "" && forall j: nat | 0 < j < |b| :: !IsHeading(b + rest, j)
    ensures HeadsLine(b + rest, Wanted(id)) <==> IsBlockOf(rest, id) || HeadsLine(rest, Wanted(id))
  {
    var t, w := b + rest, Wanted(id);
    if HeadsLine(t, w) {
      var j :| 0 < j < |t| && t[j - 1] == '\n' && At(t, j, w);
      WantedIsHeading(t, j, id);
      assert IsHeading(t, j) && j >= |b|;
      AtDrop(b, rest, j - |b|, w);
      if j > |b| { assert rest[j - |b| - 1] == t[j - 1]; }
    }
    if IsBlockOf(rest, id) {
      WantedIsHeading(rest, 0, id);
      AtDrop(b, rest, 0, w);
      assert t[|b| - 1] == b[|b| - 1];
    }
    if HeadsLine(rest, w) {
      var j :| 0 < j < |rest| && rest[j - 1] == '\n' && At(rest, j, w);
      AtDrop(b, rest, j, w);
      assert t[|b| + j - 1] == rest[j - 1];
    }
  }

  lemma AtDrop(x: string, y: string, j: nat, pattern: string)
    ensures At(x + y, |x| + j, pattern) <==> At(y, j, pattern)
  {
    var s := x + y;
    if At(s, |x| + j, pattern) {
      forall k | 0 <= k < |pattern| ensures y[j + k] == pattern[k] { assert s[|x| + j + k] == pattern[k]; }
    }
    if At(y, j, pattern) {
      forall k | 0 <= k < |pattern| ensures s[|x| + j + k] == pattern[k] { assert y[j + k] == pattern[k]; }
    }
  }

  /** A text splits into a block of a task exactly where it starts, or a line of it, with the task's
      heading. */
  lemma {:induction false} SplitOwners(t: string, id: string)
    requires IsHeading(t, 0) && IsTaskId(id)
    ensures BlocksOf(BlocksFrom(t), id) == [] <==> !IsBlockOf(t, id) && !HeadsLine(t, Wanted(id))
    ensures IsBlockOf(t, id) ==> (|BlocksOf(BlocksFrom(t), id)| == 1 <==> !HeadsLine(t, Wanted(id)))
    decreases |t|
  {
    HeadingNonempty(t);
    var h := NextHeading(t, 1);
    if h == |t| {
      LonelyHeading(t, id);
      assert [t][1..] == [];
    } else {
      var b, rest := t[..h], t[h..];
      assert t == b + rest && EndsLine(b);
      HeadingAfter(b, rest, 0);
      WantedSingleLine(id);
      PatternInside(b, rest, 0, Wanted(id));
      HeadsLater(b, rest, id);
      SplitOwners(rest, id);
      SplitStep(b, rest, id);
    }
  }

  lemma SplitStep(b: string, rest: string, id: string)
    requires IsHeading(b + rest, 0) && IsHeading(rest, 0) && |b| >= 1 && NextHeading(b + rest, 1) == |b|
    ensures BlocksFrom(b + rest) == [b] + BlocksFrom(rest)
    ensures BlocksOf(BlocksFrom(b + rest), id) == (if IsBlockOf(b, id) then [b] else []) + BlocksOf(BlocksFrom(rest), id)
  {
    var t := b + rest;
    HeadingNonempty(t);
    assert t[..|b|] == b && t[|b|..] == rest;
    assert ([b] + BlocksFrom(rest))[1..] == BlocksFrom(rest);
  }

  // ---------------------------------------------------------------------------------------
  // The rewritten block
  // ---------------------------------------------------------------------------------------

  /** The rewritten block starts with the same heading, and ends its line if the old one did. */
  lemma RetitleStarts(text: string, id: string, status: string)
    requires IsTaskId(id) && OneHeading(text) && IsBlockOf(text, id) && StatusStart(Header(text)).Some?
    ensures IsHeading(Retitle(text, status), 0) && IsBlockOf(Retitle(text, status), id)
    ensures EndsLine(text) ==> EndsLine(Retitle(text, status))
  {
    var header := Header(text);
    var at := StatusStart(header).value;
    HeaderSplits(text);
    StatusAfterHeading(text, id);
    var titled := Retitle(text, status);
    forall k | 0 <= k < |Wanted(id)| ensures titled[0 + k] == Wanted(id)[k] { assert header[..at][0 + k] == Wanted(id)[k]; }
    WantedIsHeading(titled, 0, id);
  }

  /** A heading line in the rewritten block is one in the status. */
  lemma HeadsInStatus(front: string, status: string, tail: string, id: string)
    requires IsTaskId(id) && '\n' !in front && (tail == "" || tail[0] == '\n')
    requires forall j: nat | 0 < j :: !IsHeading(front + tail, j)
    ensures HeadsLine(front + status + tail, Wanted(id)) <==> HeadsLine(status, Wanted(id))
  {
    var t, w := front + status + tail, Wanted(id);
    WantedSingleLine(id);
    if HeadsLine(t, w) {
      var j :| 0 < j < |t| && t[j - 1] == '\n' && At(t, j, w);
      InStatus(front, status, tail, j, id);
    }
    if HeadsLine(status, w) {
      var j :| 0 < j < |status| && status[j - 1] == '\n' && At(status, j, w);
      AtExtends(status, tail, j, w);
      AtDrop(front, status + tail, j, w);
      Assoc(front, status, tail);
      assert t[|front| + j - 1] == status[j - 1];
    }
  }

  lemma InStatus(front: string, status: string, tail: string, j: nat, id: string)
    requires IsTaskId(id) && '\n' !in front && (tail == "" || tail[0] == '\n')
    requires forall i: nat | 0 < i :: !IsHeading(front + tail, i)
    requires 0 < j < |front + status + tail| && (front + status + tail)[j - 1] == '\n' && At(front + status + tail, j, Wanted(id))
    ensures HeadsLine(status, Wanted(id))
  {
    var t, w, x := front + status + tail, Wanted(id), |front| + |status|;
    WantedSingleLine(id);
    assert forall i | 0 <= i < |front| :: t[i] == front[i];
    if j > x {
      WantedIsHeading(t, j, id);
      HeadingInTail(front, status, tail, j);
    } else {
      if j + |w| > x { assert t[x] == '\n' && t[j + (x - j)] == w[x - j]; }
      assert status[j - |front| - 1] == t[j - 1];
      forall k | 0 <= k < |w| ensures status[j - |front| + k] == w[k] { assert t[j + k] == w[k]; }
      WantedIsHeading(status, j - |front|, id);
    }
  }

  lemma HeadingInTail(front: string, status: string, tail: string, j: nat)
    requires |front| + |status| < j < |front + status + tail|
    requires (front + status + tail)[j - 1] == '\n' && At(front + status + tail, j, HEADING)
    ensures IsHeading(front + tail, j - |status|)
  {
    var t, text := front + status + tail, front + tail;
    assert text[j - |status| - 1] == t[j - 1];
    forall k | 0 <= k < |HEADING| ensures text[j - |status| + k] == HEADING[k] { assert t[j + k] == HEADING[k]; }
  }

  /** Text around a name brings no heading line along, even where the two meet. */
  lemma HeadsBetween(front: string, name: string, tail: string, id: string)
    requires IsTaskId(id) && '\n' !in front && '\n' !in tail && |tail| > 1 && tail[0] == ' ' && tail[1] != '['
    ensures HeadsLine(front + name + tail, Wanted(id)) <==> HeadsLine(name, Wanted(id))
  {
    var t, w := front + name + tail, Wanted(id);
    if HeadsLine(t, w) {
      var j :| 0 < j < |t| && t[j - 1] == '\n' && At(t, j, w);
      assert forall i | 0 <= i < |front| :: t[i] == front[i];
      assert forall i | 0 <= i < |tail| :: t[|front| + |name| + i] == tail[i];
      assert t[j - 1] != '\n' || j <= |front| + |name|;
      InsideName(front, name, tail, j, id);
    }
    if HeadsLine(name, w) {
      var j :| 0 < j < |name| && name[j - 1] == '\n' && At(name, j, w);
      AtExtends(name, tail, j, w);
      AtDrop(front, name + tail, j, w);
      Assoc(front, name, tail);
      assert t[|front| + j - 1] == name[j - 1];
    }
  }

  lemma InsideName(front: string, name: string, tail: string, j: nat, id: string)
    requires IsTaskId(id) && |tail| > 1 && tail[0] == ' ' && tail[1] != '['
    requires |front| < j <= |front| + |name| && (front + name + tail)[j - 1] == '\n' && At(front + name + tail, j, Wanted(id))
    ensures HeadsLine(name, Wanted(id))
  {
    var t, w, x := front + name + tail, Wanted(id), |front| + |name|;
    WantedBlank(id);
    assert forall i | 0 <= i < |tail| :: t[x + i] == tail[i];
    assert forall k | 0 <= k < |w| :: t[j + k] == w[k];
    CharAt(t, j, w, x - j);
    CharAt(t, j, w, 4);
    assert name[j - |front| - 1] == t[j - 1];
    forall k | 0 <= k < |w| ensures name[j - |front| + k] == w[k] { assert t[j + k] == w[k]; }
    WantedIsHeading(name, j - |front|, id);
  }

  lemma CharAt(s: string, j: nat, pattern: string, k: nat)
    requires At(s, j, pattern)
    ensures k < |pattern| ==> j + k < |s| && s[j + k] == pattern[k]
  {}

  /** The only blank in a heading stands in front of its bracket. */
  lemma WantedBlank(id: string)
    requires IsTaskId(id)
    ensures |Wanted(id)| > 4 && Wanted(id)[4] == '[' && forall k | 0 <= k < |Wanted(id)| && Wanted(id)[k] == ' ' :: k == 3
  {
    var w := Wanted(id);
    assert HEADING[0] == '#' && HEADING[1] == '#' && HEADING[2] == '#' && HEADING[3] == ' ' && HEADING[4] == '[';
    assert forall k | 0 <= k < 5 :: w[k] == HEADING[k];
    forall k | 5 <= k < |w| ensures w[k] != ' ' {
      if k < |w| - 1 {
        assert w[k] == id[k - 5] && id[..2][0] == 'T' && id[..2][1] == '-';
        if k >= 7 { assert id[2..][k - 7] in id[2..]; }
      }
    }
  }

  lemma RetitledHeads(text: string, own: string, status: string, id: string)
    requires IsTaskId(own) && IsTaskId(id) && OneHeading(text) && IsBlockOf(text, own) && StatusStart(Header(text)).Some?
    ensures HeadsLine(Retitle(text, status), Wanted(id)) <==> HeadsLine(status, Wanted(id))
  {
    var header := Header(text);
    var at := StatusStart(header).value;
    var front, tail := header[..at] + " ", text[|header|..];
    HeaderSplits(text);
    StatusInside(header);
    forall j: nat | 0 < j ensures !IsHeading(front + tail, j) {
      if IsHeading(front + tail, j) { HeadingMoves(front, header, tail, j); }
    }
    HeadsInStatus(front, status, tail, id);
    Assoc(header[..at], " ", status);
    assert text[..at] == header[..at];
  }

  /** The first of the blocks a text splits into shows the text's header. */
  lemma FirstOfSplit(t: string)
    requires IsHeading(t, 0)
    ensures BlocksFrom(t) != [] && Header(BlocksFrom(t)[0]) == Header(t) && IsHeading(BlocksFrom(t)[0], 0)
  {
    HeadingNonempty(t);
    var h := NextHeading(t, 1);
    if h < |t| {
      var b := t[..h];
      HeaderSplits(t);
      assert |Header(t)| < h by { assert |Header(t)| <= h - 1; }
      assert b == Header(t) + b[|Header(t)|..];
      HeaderIs(Header(t), b[|Header(t)|..]);
      assert t == b + t[h..];
      HeadingInside(b, t[h..], 0);
    }
  }

  /** What the rewritten header shows: what becomes of the first line of the status. */
  lemma RetitledShows(text: string, status: string)
    requires StatusStart(Header(text)).Some?
    ensures var header := Header(text);
            var titled := header[..StatusStart(header).value] + " " + Header(status);
            Header(Retitle(text, status)) == titled && StatusStart(titled).Some?
            && Trim(titled[StatusStart(titled).value..]) == StatusReadBack(header, Header(status))
  {
    var header := Header(text);
    var at := StatusStart(header).value;
    var titled, tail := header[..at] + " " + Header(status), text[|header|..];
    HeaderSplits(text);
    HeaderSplits(status);
    StatusInside(header);
    var behind := status[|Header(status)|..] + tail;
    assert Retitle(text, status) == titled + behind by {
      assert text[..at] == header[..at] && status == Header(status) + status[|Header(status)|..];
      Reassociated(header[..at], Header(status), status[|Header(status)|..], tail);
    }
    assert '\n' !in titled by {
      forall i | 0 <= i < |titled| ensures titled[i] != '\n' {
        if i < at { assert titled[i] == header[i]; } else if i > at { assert titled[i] == Header(status)[i - at - 1]; }
      }
    }
    HeaderIs(titled, behind);
    ReadBack(header, Header(status));
  }

  lemma Reassociated(a: string, b: string, c: string, d: string)
    ensures a + (" " + (b + c)) + d == a + " " + b + (c + d)
  {}

  // ---------------------------------------------------------------------------------------
  // The queue after the rewrite
  // ---------------------------------------------------------------------------------------

  /** The blocks of the queue after the rewrite: the rewritten one may fall into several. */
  lemma {:induction false} BrokenParts(s: string, preamble: string, blocks: seq<string>, id: string, b: QueueBlock, status: string)
    returns (k: nat)
    requires Parts(s, preamble, blocks) && IsTaskId(id) && FindBlock(s, id) == Ok(b)
    ensures k < |blocks| && blocks[k] == b.text && StatusStart(Header(b.text)).Some? && OneHeading(b.text) && IsBlockOf(b.text, id)
    ensures b.statusStart <= b.headerEnd <= |s| && IsHeading(Retitle(b.text, status), 0)
    ensures Parts(ReplaceStatus(s, b, status), preamble, blocks[..k] + (BlocksFrom(Retitle(b.text, status)) + blocks[k + 1..]))
    ensures BlocksOf(blocks[..k], id) == [] && BlocksOf(blocks[k + 1..], id) == []
  {
    k := FoundIsOnly(s, preamble, blocks, id);
    BlockLies(preamble, blocks, k, b);
    RewriteLies(preamble, blocks, k, b, status);
    RetitleStarts(b.text, id, status);
    SplitParts(preamble, blocks, k, Retitle(b.text, status));
  }

  /** One block of a queue replaced by a text that falls into blocks. */
  lemma {:induction false} SplitParts(preamble: string, blocks: seq<string>, k: nat, text: string)
    requires WellPreamble(preamble, blocks) && WellBlocks(blocks) && k < |blocks|
    requires IsHeading(text, 0) && (EndsLine(blocks[k]) ==> EndsLine(text))
    ensures Parts(preamble + Concat(blocks[..k]) + text + Concat(blocks[k + 1..]), preamble, blocks[..k] + (BlocksFrom(text) + blocks[k + 1..]))
  {
    var a, news, c := blocks[..k], BlocksFrom(text), blocks[k + 1..];
    BlocksFromWell(text);
    ConcatSplit(a, news + c);
    ConcatSplit(news, c);
    Assoc(preamble, Concat(a), text + Concat(c));
    Assoc(preamble + Concat(a), text, Concat(c));
    if c != [] { LastEnds(news); }
    WellJoin(news, c);
    WellJoin(a, news + c);
  }

  lemma WellJoin(a: seq<string>, b: seq<string>)
    requires WellBlocks(a) && WellBlocks(b) && (a != [] && b != [] ==> EndsLine(a[|a| - 1]))
    ensures WellBlocks(a + b)
  {}

  lemma {:induction false} LastEnds(blocks: seq<string>)
    requires blocks != [] && WellBlocks(blocks) && EndsLine(Concat(blocks))
    ensures EndsLine(blocks[|blocks| - 1])
  {
    if |blocks| == 1 {
      assert Concat(blocks) == blocks[0] + "" == blocks[0];
    } else {
      var rest := blocks[1..];
      HeadingNonempty(rest[0]);
      assert Concat(blocks)[|Concat(blocks)| - 1] == Concat(rest)[|Concat(rest)| - 1];
      LastEnds(rest);
    }
  }

  /** Blocks around those of a text. */
  lemma OwnersAround(a: seq<string>, text: string, c: seq<string>, id: string)
    requires IsHeading(text, 0)
    ensures BlocksOf(a + (BlocksFrom(text) + c), id) == BlocksOf(a, id) + BlocksOf(BlocksFrom(text), id) + BlocksOf(c, id)
  {
    BlocksOfSplit(a, BlocksFrom(text) + c, id);
    BlocksOfSplit(BlocksFrom(text), c, id);
  }

  lemma OwnersWithout(blocks: seq<string>, k: nat, id: string)
    requires k < |blocks| && !IsBlockOf(blocks[k], id)
    ensures BlocksOf(blocks, id) == BlocksOf(blocks[..k], id) + BlocksOf(blocks[k + 1..], id)
  {
    var a, c := blocks[..k], blocks[k + 1..];
    assert blocks == a + ([blocks[k]] + c);
    BlocksOfSplit(a, [blocks[k]] + c, id);
    assert ([blocks[k]] + c)[1..] == c;
  }

  /** What the row of a task shows once a status has been written into it: nothing that can be read
      if the status brings a second heading of the task along, or nothing visible. */
  function Shows(header: string, status: string, id: string): Option<string> {
    var read := StatusReadBack(header, Header(status));
    if HeadsLine(status, Wanted(id)) || read == "" then None else Some(read)
  }

  lemma {:induction false} SeenAlone(text: string, status: string)
    requires StatusStart(Header(text)).Some? && IsHeading(Retitle(text, status), 0)
    ensures var read := StatusReadBack(Header(text), Header(status));
            SeenIn([BlocksFrom(Retitle(text, status))[0]])
            == if read == "" then Err(EmptyStatus) else Ok((BlocksFrom(Retitle(text, status))[0], read))
  {
    RetitledShows(text, status);
    FirstOfSplit(Retitle(text, status));
  }

  lemma {:induction false} OwnFirst(t: string, id: string)
    requires IsHeading(t, 0) && IsTaskId(id) && IsBlockOf(t, id)
    ensures BlocksOf(BlocksFrom(t), id) != [] && BlocksFrom(t) != [] && BlocksOf(BlocksFrom(t), id)[0] == BlocksFrom(t)[0]
  {
    HeadingNonempty(t);
    var h := NextHeading(t, 1);
    if h < |t| {
      var b, rest := t[..h], t[h..];
      assert t == b + rest && EndsLine(b);
      HeadingAfter(b, rest, 0);
      WantedSingleLine(id);
      PatternInside(b, rest, 0, Wanted(id));
      SplitStep(b, rest, id);
    } else {
      assert [t][1..] == [];
    }
  }

  /** Whatever is written, the row shows the first line of it, read behind the status keyword, as
      long as no line of it starts with the task's own heading. */
  lemma {:induction false} RewriteThenShow(s: string, id: string, b: QueueBlock, status: string)
    requires IsTaskId(id) && FindBlock(s, id) == Ok(b)
    ensures b.statusStart <= b.headerEnd <= |s|
    ensures (match Seen(ReplaceStatus(s, b, status), id) case Ok(v) => Some(v.1) case Err(_) => None) == Shows(Header(b.text), status, id)
  {
    var found := OwnFound(s, id, b, status);
    OwnInTitled(b.text, id, status, found);
    if |found| > 1 { FewSeen(found); }
  }

  lemma {:induction false} OwnFound(s: string, id: string, b: QueueBlock, status: string) returns (found: seq<string>)
    requires IsTaskId(id) && FindBlock(s, id) == Ok(b)
    ensures b.statusStart <= b.headerEnd <= |s|
    ensures StatusStart(Header(b.text)).Some? && OneHeading(b.text) && IsBlockOf(b.text, id) && IsHeading(Retitle(b.text, status), 0)
    ensures found == BlocksOf(BlocksFrom(Retitle(b.text, status)), id) && Seen(ReplaceStatus(s, b, status), id) == SeenIn(found)
  {
    var preamble, blocks := Partition(s);
    var k := BrokenParts(s, preamble, blocks, id, b, status);
    var titled := Retitle(b.text, status);
    FindInParts(ReplaceStatus(s, b, status), preamble, blocks[..k] + (BlocksFrom(titled) + blocks[k + 1..]), id);
    OwnersAround(blocks[..k], titled, blocks[k + 1..], id);
    found := BlocksOf(BlocksFrom(titled), id);
    assert [] + found + [] == found;
  }

  lemma {:induction false} OwnInTitled(text: string, id: string, status: string, found: seq<string>)
    requires IsTaskId(id) && OneHeading(text) && IsBlockOf(text, id) && StatusStart(Header(text)).Some?
    requires IsHeading(Retitle(text, status), 0) && found == BlocksOf(BlocksFrom(Retitle(text, status)), id)
    ensures found != [] && (|found| == 1 <==> !HeadsLine(status, Wanted(id)))
    ensures |found| == 1 ==> (match SeenIn(found) case Ok(v) => Some(v.1) case Err(_) => None) == Shows(Header(text), status, id)
  {
    RetitleStarts(text, id, status);
    RetitledHeads(text, id, status, id);
    SplitOwners(Retitle(text, status), id);
    OwnFirst(Retitle(text, status), id);
    SeenAlone(text, status);
    if |found| == 1 { assert found == [BlocksFrom(Retitle(text, status))[0]]; }
  }

  /** The blocks of another task before and after the rewrite. */
  lemma {:induction false} OthersFound(s: string, id: string, b: QueueBlock, status: string, other: string)
    returns (x: seq<string>, more: seq<string>, y: seq<string>)
    requires IsTaskId(id) && FindBlock(s, id) == Ok(b) && IsTaskId(other) && other != id
    ensures b.statusStart <= b.headerEnd <= |s|
    ensures Seen(s, other) == SeenIn(x + y) && Seen(ReplaceStatus(s, b, status), other) == SeenIn(x + more + y)
    ensures more == [] <==> !HeadsLine(status, Wanted(other))
  {
    var preamble, blocks := Partition(s);
    var k := BrokenParts(s, preamble, blocks, id, b, status);
    var titled := Retitle(b.text, status);
    x, more, y := BlocksOf(blocks[..k], other), BlocksOf(BlocksFrom(titled), other), BlocksOf(blocks[k + 1..], other);
    FindInParts(ReplaceStatus(s, b, status), preamble, blocks[..k] + (BlocksFrom(titled) + blocks[k + 1..]), other);
    OwnersAround(blocks[..k], titled, blocks[k + 1..], other);
    FindInParts(s, preamble, blocks, other);
    OneOwner(b.text, id, other);
    OwnersWithout(blocks, k, other);
    OthersInTitled(b.text, id, status, other);
  }

  lemma OthersInTitled(text: string, id: string, status: string, other: string)
    requires IsTaskId(id) && IsTaskId(other) && other != id
    requires OneHeading(text) && IsBlockOf(text, id) && StatusStart(Header(text)).Some? && IsHeading(Retitle(text, status), 0)
    ensures BlocksOf(BlocksFrom(Retitle(text, status)), other) == [] <==> !HeadsLine(status, Wanted(other))
  {
    RetitleStarts(text, id, status);
    OneOwner(Retitle(text, status), id, other);
    RetitledHeads(text, id, status, other);
    SplitOwners(Retitle(text, status), other);
  }

  /** Another row is seen as before exactly if no line written starts with its heading, or it was
      ambiguous already. */
  lemma {:induction false} RewriteThenOthers(s: string, id: string, b: QueueBlock, status: string, other: string)
    requires IsTaskId(id) && FindBlock(s, id) == Ok(b) && IsTaskId(other) && other != id
    ensures b.statusStart <= b.headerEnd <= |s|
    ensures Seen(ReplaceStatus(s, b, status), other) == Seen(s, other) <==>
            !HeadsLine(status, Wanted(other)) || Seen(s, other) == Err(DuplicateBlocks)
    ensures HeadsLine(status, Wanted(other)) && Seen(s, other).Ok? ==> Seen(ReplaceStatus(s, b, status), other) == Err(DuplicateBlocks)
  {
    var x, more, y := OthersFound(s, id, b, status, other);
    MoreFound(x, more, y);
  }

  /** More blocks of a task are seen as fewer only where there were several already. */
  lemma MoreFound(x: seq<string>, more: seq<string>, y: seq<string>)
    ensures SeenIn(x + more + y) == SeenIn(x + y) <==> more == [] || SeenIn(x + y) == Err(DuplicateBlocks)
    ensures more != [] && SeenIn(x + y).Ok? ==> SeenIn(x + more + y) == Err(DuplicateBlocks)
  {
    var before, after := x + y, x + more + y;
    if more == [] {
      assert after == before;
    } else {
      assert |after| == |before| + |more|;
      FewSeen(before);
      FewSeen(after);
    }
  }

  /** How many blocks there are shows in what is seen. */
  lemma FewSeen(found: seq<string>)
    ensures SeenIn(found) == Err(NoBlock) <==> found == []
    ensures SeenIn(found) == Err(DuplicateBlocks) <==> |found| > 1
  {}
}
