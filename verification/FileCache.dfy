/** The metadata-keyed cache of `tui/src/cache.rs`, with a writer that may act between any two of
    its steps. Time is counted in instants; `files(path, t)` is the file at instant `t`. */
module FileCache {
  import opened Text

  /** A plain file: the stamp of its last write, and its text. */
  datatype File = File(stamp: nat, text: string)

  type Files = (string, nat) -> Option<File>

  datatype Cache<T> = Cache(key: Option<(string, Option<nat>)>, value: Option<T>)

  function StampAt(files: Files, path: string, t: nat): Option<nat> {
    match files(path, t) case Some(f) => Some(f.stamp) case None => None
  }

  function TextAt(files: Files, path: string, t: nat): Option<string> {
    match files(path, t) case Some(f) => Some(f.text) case None => None
  }

  /** Every write has a stamp of its own: between two sights of one stamp the file did not change. */
  ghost predicate FreshStamps(files: Files) {
    forall path: string, i: nat, k: nat, j: nat {:trigger files(path, i), files(path, k), files(path, j)} ::
      i <= k <= j && files(path, i).Some? && files(path, j).Some? && files(path, i).value.stamp == files(path, j).value.stamp
      ==> files(path, k) == files(path, i)
  }

  /** A call: the path, and the instants of its two stamp reads and of the read between them. */
  datatype Call = Call(path: string, t0: nat, t1: nat, t2: nat)

  predicate Ordered(call: Call) { call.t0 <= call.t1 <= call.t2 }

  predicate Hit<T(!new)>(c: Cache<T>, files: Files, call: Call) { c.key == Some((call.path, StampAt(files, call.path, call.t0))) }

  /** `load_with`: the value returned and the cache left behind. */
  function Load<T(!new)>(c: Cache<T>, files: Files, parse: Option<string> -> T, call: Call): (Cache<T>, T) {
    if Hit(c, files, call) && c.value.Some? then (c, c.value.value)
    else
      var value := parse(TextAt(files, call.path, call.t1));
      var before, after := StampAt(files, call.path, call.t0), StampAt(files, call.path, call.t2);
      (Cache(if after == before then Some((call.path, after)) else None, Some(value)), value)
  }

  /** The value is what parsing the file gives at some instant of the call. */
  ghost predicate Current<T(!new)>(files: Files, parse: Option<string> -> T, call: Call, value: T) {
    exists i: nat :: call.t0 <= i <= call.t2 && value == parse(TextAt(files, call.path, i))
  }

  /** A stored key names the stamp of the content that the stored value came from. */
  ghost predicate Sound<T(!new)>(c: Cache<T>, files: Files, parse: Option<string> -> T, now: nat) {
    match c.key
    case None => true
    case Some((path, None)) => c.value == Some(parse(None))
    case Some((path, Some(stamp))) =>
      exists i: nat :: i <= now && StampAt(files, path, i) == Some(stamp) && c.value == Some(parse(TextAt(files, path, i)))
  }

  /** During the call the file was absent, then present, then absent again. */
  predicate Flickers(files: Files, call: Call) {
    files(call.path, call.t0).None? && files(call.path, call.t1).Some? && files(call.path, call.t2).None?
  }

  /** A sound cache answers with the content of some instant of the call. */
  lemma LoadIsCurrent<T(!new)>(c: Cache<T>, files: Files, parse: Option<string> -> T, call: Call)
    requires FreshStamps(files) && Sound(c, files, parse, call.t0) && Ordered(call)
    ensures Current(files, parse, call, Load(c, files, parse, call).1)
  {
    if Hit(c, files, call) && c.value.Some? {
      match StampAt(files, call.path, call.t0)
      case None => assert c.value.value == parse(TextAt(files, call.path, call.t0));
      case Some(stamp) =>
        var i: nat :| i <= call.t0 && StampAt(files, call.path, i) == Some(stamp) && c.value == Some(parse(TextAt(files, call.path, i)));
        assert files(call.path, call.t0) == files(call.path, i);
        assert c.value.value == parse(TextAt(files, call.path, call.t0));
    } else {
      assert call.t0 <= call.t1 <= call.t2;
    }
  }

  /** After a call that had to read, the cache is sound exactly when the file did not come and go
      within the call, or its text parses like no file at all: absence has no stamp. */
  lemma SoundAfterRead<T(!new)>(c: Cache<T>, files: Files, parse: Option<string> -> T, call: Call)
    requires FreshStamps(files) && Ordered(call) && !(Hit(c, files, call) && c.value.Some?)
    ensures Sound(Load(c, files, parse, call).0, files, parse, call.t2) <==>
            !Flickers(files, call) || parse(TextAt(files, call.path, call.t1)) == parse(None)
  {
    var before, after := StampAt(files, call.path, call.t0), StampAt(files, call.path, call.t2);
    if before == after && before.Some? {
      assert files(call.path, call.t1) == files(call.path, call.t0);
      assert StampAt(files, call.path, call.t1) == before;
    }
  }

  lemma SoundLater<T(!new)>(c: Cache<T>, files: Files, parse: Option<string> -> T, now: nat, later: nat)
    requires Sound(c, files, parse, now) && now <= later
    ensures Sound(c, files, parse, later)
  {}

  /** Calls one after the other. */
  predicate InOrder(calls: seq<Call>, now: nat)
    decreases |calls|
  {
    calls == [] || (now <= calls[0].t0 && Ordered(calls[0]) && InOrder(calls[1..], calls[0].t2))
  }

  /** Every call of a series answers with current content. */
  ghost predicate AllCurrent<T(!new)>(c: Cache<T>, files: Files, parse: Option<string> -> T, calls: seq<Call>)
    decreases |calls|
  {
    calls == [] ||
    (&& Current(files, parse, calls[0], Load(c, files, parse, calls[0]).1)
     && AllCurrent(Load(c, files, parse, calls[0]).0, files, parse, calls[1..]))
  }

  /** Over every series of calls, on any paths, with a writer at work all the time: every answer is
      current, as long as no file comes and goes within one call. */
  lemma {:induction false} SeriesIsCurrent<T(!new)>(c: Cache<T>, files: Files, parse: Option<string> -> T, calls: seq<Call>, now: nat)
    requires FreshStamps(files) && Sound(c, files, parse, now) && InOrder(calls, now)
    requires forall call | call in calls :: !Flickers(files, call)
    ensures AllCurrent(c, files, parse, calls)
    decreases |calls|
  {
    if calls != [] {
      var call := calls[0];
      SoundLater(c, files, parse, now, call.t0);
      LoadIsCurrent(c, files, parse, call);
      var next := Load(c, files, parse, call).0;
      if Hit(c, files, call) && c.value.Some? {
        SoundLater(c, files, parse, now, call.t2);
      } else {
        SoundAfterRead(c, files, parse, call);
      }
      SeriesIsCurrent(next, files, parse, calls[1..], call.t2);
    }
  }

  /** The file did not change between two instants. */
  ghost predicate Rests(files: Files, path: string, from: nat, to: nat) {
    forall i, j | from <= i <= j <= to :: files(path, i) == files(path, j)
  }

  /** A file that rests over two calls is read by the first of them at most: the second answers the same
      from the cache and leaves that as it is, whatever would be read. */
  lemma ReadOnce<T(!new)>(c: Cache<T>, files: Files, parse: Option<string> -> T, first: Call, second: Call, reparse: Option<string> -> T)
    requires Ordered(first) && Ordered(second) && first.path == second.path && first.t2 <= second.t0
    requires Rests(files, first.path, first.t0, second.t2)
    ensures var (after, value) := Load(c, files, parse, first); Load(after, files, reparse, second) == (after, value)
  {
    assert files(first.path, first.t0) == files(first.path, first.t2) == files(first.path, second.t0);
  }

  /** A file of another stamp, or another path, is read again. */
  lemma ReadAgain<T(!new)>(c: Cache<T>, files: Files, parse: Option<string> -> T, call: Call)
    requires c.key != Some((call.path, StampAt(files, call.path, call.t0)))
    ensures Load(c, files, parse, call).1 == parse(TextAt(files, call.path, call.t1))
    ensures Load(c, files, parse, call).0.key.Some? <==> StampAt(files, call.path, call.t0) == StampAt(files, call.path, call.t2)
  {}

  /** A file that exists for one instant only, while a call reads it, is shown again by a later
      call, at whose time there is no file and never was one. */
  lemma FlickerIsPinned(text: string, parse: Option<string> -> int)
    requires parse(Some(text)) != parse(None)
    ensures var files: Files := (path, t) => if t == 1 then Some(File(7, text)) else None;
            var first, second := Call("status.md", 0, 1, 2), Call("status.md", 3, 4, 5);
            var c := Load(Cache(None, None), files, parse, first).0;
            FreshStamps(files) && !Current(files, parse, second, Load(c, files, parse, second).1)
  {
    var files: Files := (path, t) => if t == 1 then Some(File(7, text)) else None;
    var first, second := Call("status.md", 0, 1, 2), Call("status.md", 3, 4, 5);
    var c := Load(Cache(None, None), files, parse, first).0;
    assert c == Cache(Some(("status.md", None)), Some(parse(Some(text))));
    assert Load(c, files, parse, second).1 == parse(Some(text));
    forall i: nat | 3 <= i <= 5 ensures TextAt(files, "status.md", i) == None {}
  }

  /** The cache as it is updated, with reads that may fail. */
  class PlainFileCache<T(!new)> {
    var key: Option<(string, Option<nat>)>
    var value: Option<T>

    constructor ()
      ensures View() == Cache(None, None)
    {
      key, value := None, None;
    }

    function View(): Cache<T>
      reads this
    {
      Cache(key, value)
    }

    method Invalidate()
      modifies this
      ensures View() == Cache(None, None)
    {
      key, value := None, None;
    }

    /** `load_with`; `fault` is the step whose file operation fails, if any. */
    method LoadWith(files: Files, parse: Option<string> -> T, call: Call, fault: Option<nat>) returns (r: Option<T>)
      requires key.Some? ==> value.Some?
      modifies this
      ensures key.Some? ==> value.Some?
      ensures match r
              case None => View() == Cache(None, None)
              case Some(v) => (View(), v) == Load(old(View()), files, parse, call)
      ensures fault == None ==> r.Some?
    {
      if fault == Some(0) {
        Invalidate();
        return None;
      }
      var before := StampAt(files, call.path, call.t0);
      if key == Some((call.path, before)) { return value; }
      if fault == Some(1) {
        Invalidate();
        return None;
      }
      var parsed := parse(TextAt(files, call.path, call.t1));
      if fault == Some(2) {
        Invalidate();
        return None;
      }
      var after := StampAt(files, call.path, call.t2);
      value := Some(parsed);
      key := if after == before then Some((call.path, after)) else None;
      return value;
    }
  }
}
