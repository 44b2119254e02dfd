/** The final-state fingerprint of `engine/src/legacy_fingerprint.rs`: the projection of the event
    stream, and the digest of a committed tree. */
module Fingerprint {
  import opened Text
  import opened Sorting
  import opened LineFields

  // ---------------------------------------------------------------------------------------
  // The event stream
  // ---------------------------------------------------------------------------------------

  /** An event as projected: its id, and type, batch, task and transition. */
  datatype Event = Event(id: string, identity: string)

  const BOM: char := '\U{FEFF}'

  function StripBom(text: string): string { if text != "" && text[0] == BOM then text[1..] else text }

  /** The lines of a stream kept in several sources; a byte order mark goes only at its very start. */
  function StreamLines(sources: seq<string>, offset: nat): seq<string>
    decreases |sources|
  {
    if sources == [] then []
    else Lines(if offset == 0 then StripBom(sources[0]) else sources[0]) + StreamLines(sources[1..], offset + |sources[0]|)
  }

  /** The events of some lines; `decode` reads one line, if it is an event with an id. */
  function EventsOf(lines: seq<string>, decode: string -> Option<Event>): seq<Event> {
    if lines == [] then []
    else
      (if Trim(lines[0]) == "" then [] else match decode(lines[0]) case Some(e) => [e] case None => [])
      + EventsOf(lines[1..], decode)
  }

  /** The first event of each id. */
  function FirstById(events: seq<Event>, seen: set<string>): seq<Event> {
    if events == [] then []
    else if events[0].id in seen then FirstById(events[1..], seen)
    else [events[0]] + FirstById(events[1..], seen + {events[0].id})
  }

  function Identities(events: seq<Event>): seq<string> {
    if events == [] then [] else [events[0].identity] + Identities(events[1..])
  }

  function JoinWith(parts: seq<string>, separator: string): string {
    if parts == [] then "" else if |parts| == 1 then parts[0] else parts[0] + separator + JoinWith(parts[1..], separator)
  }

  function Project(events: seq<Event>): string { JoinWith(SortStrings(Identities(FirstById(events, {}))), ";") }

  /** `outbox_digest_of`. */
  function OutboxDigest(sources: seq<string>, decode: string -> Option<Event>): string {
    Project(EventsOf(StreamLines(sources, 0), decode))
  }

  /** The loop of `outbox_digest_of` over the lines of the stream. */
  method DigestLines(lines: seq<string>, decode: string -> Option<Event>) returns (r: string)
    ensures r == Project(EventsOf(lines, decode)) && Digests(lines, decode, r)
  {
    var seen: set<string>, identities: seq<string>, i := {}, [], 0;
    ghost var all := Identities(FirstById(EventsOf(lines, decode), {}));
    AllLeft(lines, decode);
    while i < |lines|
      invariant i <= |lines| && identities + Left(lines, i, decode, seen) == all
    {
      LineStep(lines, i, decode, seen);
      var event := if Trim(lines[i]) == "" then None else decode(lines[i]);
      if event.Some? && event.value.id !in seen {
        seen := seen + {event.value.id};
        ThreeParts(identities, [event.value.identity], Left(lines, i + 1, decode, seen));
        identities := identities + [event.value.identity];
      }
      i := i + 1;
    }
    assert identities + [] == identities;
    r := JoinWith(SortStrings(identities), ";");
    ProjectIs(lines, decode);
  }

  lemma AllLeft(lines: seq<string>, decode: string -> Option<Event>)
    ensures [] + Left(lines, 0, decode, {}) == Identities(FirstById(EventsOf(lines, decode), {}))
  {
    assert lines[0..] == lines;
  }

  /** The identities still to come, from line `i` on. */
  function Left(lines: seq<string>, i: nat, decode: string -> Option<Event>, seen: set<string>): seq<string>
    requires i <= |lines|
  {
    Identities(FirstById(EventsOf(lines[i..], decode), seen))
  }

  lemma LineStep(lines: seq<string>, i: nat, decode: string -> Option<Event>, seen: set<string>)
    requires i < |lines|
    ensures var event := if Trim(lines[i]) == "" then None else decode(lines[i]);
            Left(lines, i, decode, seen) ==
              if event.Some? && event.value.id !in seen
              then [event.value.identity] + Left(lines, i + 1, decode, seen + {event.value.id})
              else Left(lines, i + 1, decode, seen)
  {
    assert lines[i..][1..] == lines[i + 1..];
    var event := if Trim(lines[i]) == "" then None else decode(lines[i]);
    var more := EventsOf(lines[i + 1..], decode);
    if event.Some? {
      assert ([event.value] + more)[1..] == more;
    } else {
      assert [] + more == more;
    }
  }

  // What the digest is of

  /** The event of a line, if there is one. */
  function EventAt(line: string, decode: string -> Option<Event>): Option<Event> { if Trim(line) == "" then None else decode(line) }

  /** Line `i` holds an event, and no line ahead of it holds one of the same id. */
  predicate FirstOfItsId(lines: seq<string>, i: nat, decode: string -> Option<Event>) {
    && i < |lines| && EventAt(lines[i], decode).Some?
    && forall j | 0 <= j < i && EventAt(lines[j], decode).Some? :: EventAt(lines[j], decode).value.id != EventAt(lines[i], decode).value.id
  }

  /** The numbers of these lines up to line `n`, in rising order, and the identities of their events. */
  ghost predicate Taken(lines: seq<string>, n: nat, decode: string -> Option<Event>, order: seq<nat>, identities: seq<string>) {
    && n <= |lines| && |identities| == |order|
    && (forall k | 0 <= k < |order| - 1 :: order[k] < order[k + 1])
    && (forall k | 0 <= k < |order| ::
          order[k] < n && FirstOfItsId(lines, order[k], decode) && identities[k] == EventAt(lines[order[k]], decode).value.identity)
    && (forall i: nat | i < n && FirstOfItsId(lines, i, decode) :: i in order)
  }

  /** `r` is the sorted list of the identities of the first event of each id. */
  ghost predicate Digests(lines: seq<string>, decode: string -> Option<Event>, r: string) {
    exists order, identities, sorted :: Taken(lines, |lines|, decode, order, identities) && SortedList(identities, sorted, r)
  }

  ghost predicate SortedList(identities: seq<string>, sorted: seq<string>, r: string) {
    Rises(sorted) && multiset(sorted) == multiset(identities) && r == JoinWith(sorted, ";")
  }

  ghost predicate SeenIn(lines: seq<string>, n: nat, decode: string -> Option<Event>, seen: set<string>) {
    && n <= |lines|
    && forall id :: id in seen <==> exists j :: 0 <= j < n && EventAt(lines[j], decode).Some? && EventAt(lines[j], decode).value.id == id
  }

  lemma SeenStep(lines: seq<string>, i: nat, decode: string -> Option<Event>, seen: set<string>)
    requires i < |lines| && SeenIn(lines, i, decode, seen)
    ensures var event := EventAt(lines[i], decode);
            && (FirstOfItsId(lines, i, decode) <==> event.Some? && event.value.id !in seen)
            && SeenIn(lines, i + 1, decode, if event.Some? then seen + {event.value.id} else seen)
  {
    var event := EventAt(lines[i], decode);
    var next := if event.Some? then seen + {event.value.id} else seen;
    forall id ensures id in next <==> exists j :: 0 <= j < i + 1 && EventAt(lines[j], decode).Some? && EventAt(lines[j], decode).value.id == id {
      if id in seen {
        var j :| 0 <= j < i && EventAt(lines[j], decode).Some? && EventAt(lines[j], decode).value.id == id;
        assert j < i + 1;
      }
    }
  }

  lemma TakenStep(lines: seq<string>, i: nat, decode: string -> Option<Event>, order: seq<nat>, identities: seq<string>)
    requires i < |lines| && Taken(lines, i, decode, order, identities)
    ensures if FirstOfItsId(lines, i, decode)
            then Taken(lines, i + 1, decode, order + [i], identities + [EventAt(lines[i], decode).value.identity])
            else Taken(lines, i + 1, decode, order, identities)
  {}

  /** One more line. */
  lemma OneLine(lines: seq<string>, i: nat, decode: string -> Option<Event>, seen: set<string>, order: seq<nat>, identities: seq<string>)
    returns (seen2: set<string>, order2: seq<nat>, identities2: seq<string>)
    requires i < |lines| && SeenIn(lines, i, decode, seen) && Taken(lines, i, decode, order, identities)
    ensures SeenIn(lines, i + 1, decode, seen2) && Taken(lines, i + 1, decode, order2, identities2)
    ensures identities2 + Left(lines, i + 1, decode, seen2) == identities + Left(lines, i, decode, seen)
  {
    var event := EventAt(lines[i], decode);
    LineStep(lines, i, decode, seen);
    SeenStep(lines, i, decode, seen);
    TakenStep(lines, i, decode, order, identities);
    seen2 := if event.Some? then seen + {event.value.id} else seen;
    if FirstOfItsId(lines, i, decode) {
      order2, identities2 := order + [i], identities + [event.value.identity];
      ThreeParts(identities, [event.value.identity], Left(lines, i + 1, decode, seen2));
    } else {
      assert seen2 == seen;
      order2, identities2 := order, identities;
    }
  }

  lemma {:induction false} TakenOn(lines: seq<string>, i: nat, decode: string -> Option<Event>, seen: set<string>, order: seq<nat>, identities: seq<string>)
    returns (all: seq<nat>)
    requires SeenIn(lines, i, decode, seen) && Taken(lines, i, decode, order, identities)
    ensures Taken(lines, |lines|, decode, all, identities + Left(lines, i, decode, seen))
    decreases |lines| - i
  {
    if i == |lines| {
      assert identities + [] == identities;
      all := order;
    } else {
      var seen2, order2, identities2 := OneLine(lines, i, decode, seen, order, identities);
      all := TakenOn(lines, i + 1, decode, seen2, order2, identities2);
    }
  }

  /** The projection is the list of the identities of the first event of each id, sorted. */
  lemma ProjectIs(lines: seq<string>, decode: string -> Option<Event>)
    ensures Digests(lines, decode, Project(EventsOf(lines, decode)))
  {
    var order := TakenOn(lines, 0, decode, {}, [], []);
    var identities := Identities(FirstById(EventsOf(lines, decode), {}));
    AllLeft(lines, decode);
    assert [] + identities == identities;
    SortRises(identities);
    assert SortedList(identities, SortStrings(identities), Project(EventsOf(lines, decode)));
  }

  /** The list splits into its parts again. */
  lemma {:induction false} JoinedSplits(parts: seq<string>)
    requires parts != [] && forall p | p in parts :: ';' !in p
    ensures Split(JoinWith(parts, ";"), ';') == parts
  {
    assert parts[0] in parts;
    if |parts| == 1 {
      SplitNowhere(parts[0], ';');
    } else {
      forall p | p in parts[1..] ensures ';' !in p { assert p in parts; }
      JoinedSplits(parts[1..]);
      assert parts[0] + ";" + JoinWith(parts[1..], ";") == parts[0] + ([';'] + JoinWith(parts[1..], ";"));
      SplitAt(parts[0], JoinWith(parts[1..], ";"), ';');
      assert parts == [parts[0]] + parts[1..];
    }
  }

  // Cutting

  function Whole(sources: seq<string>): string { if sources == [] then "" else sources[0] + Whole(sources[1..]) }

  /** Sources that end in whole lines, but perhaps the last. */
  predicate CutAtLines(sources: seq<string>) {
    sources == [] || ((|sources| > 1 ==> EndsLine(sources[0])) && CutAtLines(sources[1..]))
  }

  lemma {:induction false} LaterSources(sources: seq<string>, offset: nat)
    requires CutAtLines(sources) && offset > 0
    ensures StreamLines(sources, offset) == Lines(Whole(sources))
    decreases |sources|
  {
    if sources != [] {
      LaterSources(sources[1..], offset + |sources[0]|);
      StreamUnfolds(sources, offset);
      WholeLines(sources);
    }
  }

  lemma StreamUnfolds(sources: seq<string>, offset: nat)
    requires sources != [] && offset > 0
    ensures StreamLines(sources, offset) == Lines(sources[0]) + StreamLines(sources[1..], offset + |sources[0]|)
  {}

  lemma WholeLines(sources: seq<string>)
    requires sources != [] && CutAtLines(sources)
    ensures Lines(Whole(sources)) == Lines(sources[0]) + Lines(Whole(sources[1..]))
  {
    FrontLines(sources[0], sources[1..]);
  }

  lemma FrontLines(first: string, rest: seq<string>)
    requires rest != [] ==> EndsLine(first)
    ensures Lines(first + Whole(rest)) == Lines(first) + Lines(Whole(rest))
  {
    if rest == [] {
      assert first + "" == first;
    } else {
      LinesJoin(first, Whole(rest));
    }
  }

  /** However the stream is cut into sources at line ends, it has the lines of the whole. */
  lemma {:induction false} CuttingKeepsLines(sources: seq<string>)
    requires CutAtLines(sources)
    ensures StreamLines(sources, 0) == Lines(StripBom(Whole(sources)))
    decreases |sources|
  {
    if sources != [] {
      if sources[0] == "" {
        CuttingKeepsLines(sources[1..]);
        assert "" + Whole(sources[1..]) == Whole(sources[1..]);
      } else {
        LaterSources(sources[1..], |sources[0]|);
        BomInFront(sources[0], Whole(sources[1..]));
        FrontLines(StripBom(sources[0]), sources[1..]);
      }
    }
  }

  lemma BomInFront(first: string, rest: string)
    requires first != ""
    ensures StripBom(first + rest) == StripBom(first) + rest && (EndsLine(first) ==> EndsLine(StripBom(first)))
  {
    assert (first + rest)[0] == first[0] && (first + rest)[1..] == first[1..] + rest;
  }

  /** The digest does not depend on where rotation cut the stream. */
  lemma DigestOfAnyCut(a: seq<string>, b: seq<string>, decode: string -> Option<Event>)
    requires CutAtLines(a) && CutAtLines(b) && Whole(a) == Whole(b)
    ensures OutboxDigest(a, decode) == OutboxDigest(b, decode)
  {
    CuttingKeepsLines(a);
    CuttingKeepsLines(b);
  }

  /** A byte order mark at the very start of the stream does not matter; anywhere else it is text. */
  lemma BomDoesNotMatter(a: seq<string>, b: seq<string>, decode: string -> Option<Event>)
    requires CutAtLines(a) && CutAtLines(b) && Whole(b) == ['\U{FEFF}'] + Whole(a) && (Whole(a) != "" ==> Whole(a)[0] != '\U{FEFF}')
    ensures OutboxDigest(a, decode) == OutboxDigest(b, decode)
  {
    CuttingKeepsLines(a);
    CuttingKeepsLines(b);
    assert Whole(b)[1..] == Whole(a);
  }

  // Replaying and reordering

  lemma {:induction false} FirstByIdJoin(a: seq<Event>, b: seq<Event>, seen: set<string>)
    ensures FirstById(a + b, seen) == FirstById(a, seen) + FirstById(b, seen + IdsOf(a))
    decreases |a|
  {
    if a == [] {
      assert a + b == b && seen + {} == seen;
    } else {
      var next := if a[0].id in seen then seen else seen + {a[0].id};
      FirstByIdJoin(a[1..], b, next);
      assert next + IdsOf(a[1..]) == seen + IdsOf(a);
      FirstByIdStep(a + b, seen, a[1..] + b);
      FirstByIdStep(a, seen, a[1..]);
    }
  }

  lemma FirstByIdStep(events: seq<Event>, seen: set<string>, rest: seq<Event>)
    requires events != [] && events[1..] == rest
    ensures FirstById(events, seen) ==
            (if events[0].id in seen then [] else [events[0]]) + FirstById(rest, if events[0].id in seen then seen else seen + {events[0].id})
  {}

  function IdsOf(events: seq<Event>): set<string> { if events == [] then {} else {events[0].id} + IdsOf(events[1..]) }

  /** Appending an event whose id is in the stream already changes nothing, wherever it comes. */
  lemma ReplayChangesNothing(a: seq<Event>, e: Event, b: seq<Event>)
    requires e.id in IdsOf(a)
    ensures Project(a + [e] + b) == Project(a + b)
  {
    FirstByIdJoin(a, [e] + b, {});
    FirstByIdJoin(a, b, {});
    assert a + [e] + b == a + ([e] + b) && ([e] + b)[1..] == b && {} + IdsOf(a) == IdsOf(a);
  }

  predicate DistinctIds(events: seq<Event>) { events == [] || (events[0].id !in IdsOf(events[1..]) && DistinctIds(events[1..])) }

  lemma {:induction false} FirstOfDistinct(events: seq<Event>, seen: set<string>)
    requires DistinctIds(events) && forall id | id in IdsOf(events) :: id !in seen
    ensures FirstById(events, seen) == events
    decreases |events|
  {
    if events != [] {
      FirstOfDistinct(events[1..], seen + {events[0].id});
      assert events == [events[0]] + events[1..];
    }
  }

  lemma {:induction false} IdentitiesPermute(a: seq<Event>, b: seq<Event>)
    requires multiset(a) == multiset(b)
    ensures multiset(Identities(a)) == multiset(Identities(b))
    decreases |a|
  {
    assert |a| == |multiset(a)| && |b| == |multiset(b)|;
    if a != [] {
      assert a[0] in multiset(b);
      var i :| 0 <= i < |b| && b[i] == a[0];
      Without(a, b, i);
      IdentitiesPermute(a[1..], b[..i] + b[i + 1..]);
      IdentitiesAround(b, i);
    }
  }

  lemma Without(a: seq<Event>, b: seq<Event>, i: nat)
    requires a != [] && i < |b| && b[i] == a[0] && multiset(a) == multiset(b)
    ensures multiset(a[1..]) == multiset(b[..i] + b[i + 1..])
  {
    assert a == [a[0]] + a[1..];
    assert b == b[..i] + [b[i]] + b[i + 1..];
    assert multiset(a[1..]) == multiset(a) - multiset{a[0]};
    assert multiset(b[..i] + b[i + 1..]) == multiset(b) - multiset{b[i]};
  }

  lemma IdentitiesAround(b: seq<Event>, i: nat)
    requires i < |b|
    ensures multiset(Identities(b)) == multiset{b[i].identity} + multiset(Identities(b[..i] + b[i + 1..]))
  {
    SplitEvents(b, i);
    IdentityAround(b[..i], b[i], b[i + 1..]);
  }

  lemma SplitEvents(b: seq<Event>, i: nat)
    requires i < |b|
    ensures b == b[..i] + ([b[i]] + b[i + 1..])
  {}

  lemma IdentityAround(x: seq<Event>, e: Event, y: seq<Event>)
    ensures multiset(Identities(x + ([e] + y))) == multiset{e.identity} + multiset(Identities(x + y))
  {
    IdentitiesSplit(x, [e] + y);
    IdentitiesSplit(x, y);
    FirstIdentity(e, y);
    OneAround(Identities(x), e.identity, Identities(y));
  }

  lemma FirstIdentity(e: Event, y: seq<Event>)
    ensures Identities([e] + y) == [e.identity] + Identities(y)
  {
    assert ([e] + y)[1..] == y;
  }

  lemma OneAround(x: seq<string>, p: string, y: seq<string>)
    ensures multiset(x + ([p] + y)) == multiset{p} + multiset(x + y)
  {}

  lemma {:induction false} IdentitiesSplit(a: seq<Event>, b: seq<Event>)
    ensures Identities(a + b) == Identities(a) + Identities(b)
  {
    if a == [] {
      assert a + b == b;
    } else {
      assert (a + b)[1..] == a[1..] + b;
      IdentitiesSplit(a[1..], b);
    }
  }

  /** Events with different ids may come in any order. */
  lemma OrderDoesNotMatter(a: seq<Event>, b: seq<Event>)
    requires DistinctIds(a) && DistinctIds(b) && multiset(a) == multiset(b)
    ensures Project(a) == Project(b)
  {
    FirstOfDistinct(a, {});
    FirstOfDistinct(b, {});
    IdentitiesPermute(a, b);
    SortRises(Identities(a));
    SortRises(Identities(b));
    SortedIsUnique(SortStrings(Identities(a)), SortStrings(Identities(b)));
  }

  // The digest of the stream itself

  lemma {:induction false} EventsJoin(a: seq<string>, b: seq<string>, decode: string -> Option<Event>)
    ensures EventsOf(a + b, decode) == EventsOf(a, decode) + EventsOf(b, decode)
    decreases |a|
  {
    if a == [] {
      assert a + b == b;
    } else {
      assert (a + b)[0] == a[0] && (a + b)[1..] == a[1..] + b;
      EventsJoin(a[1..], b, decode);
    }
  }

  /** The lines of a text into which one line is put, behind whole lines. */
  lemma LinesAround(x: string, line: string, y: string)
    requires x != "" && EndsLine(x) && '\n' !in line
    ensures Lines(StripBom(x + (line + "\n") + y)) == Lines(StripBom(x)) + [StripCr(line)] + Lines(y)
    ensures Lines(StripBom(x + y)) == Lines(StripBom(x)) + Lines(y)
  {
    BomInFront(x, (line + "\n") + y);
    BomInFront(x, y);
    LinesJoin(StripBom(x), line + "\n" + y);
    LinesJoin(StripBom(x), y);
    LinesOf(line, y);
    Assoc(x, line + "\n", y);
    assert Lines(StripBom(x)) + ([StripCr(line)] + Lines(y)) == Lines(StripBom(x)) + [StripCr(line)] + Lines(y);
  }

  /** A line that repeats an event already in the stream does not change the digest, wherever behind
      the first occurrence it comes, and however either stream is cut. */
  lemma RepeatedLine(a: seq<string>, b: seq<string>, x: string, line: string, y: string, decode: string -> Option<Event>)
    requires CutAtLines(a) && CutAtLines(b) && Whole(a) == x + y && Whole(b) == x + (line + "\n") + y
    requires x != "" && EndsLine(x) && '\n' !in line && Repeats(StripCr(line), Lines(StripBom(x)), decode)
    ensures OutboxDigest(b, decode) == OutboxDigest(a, decode)
  {
    CuttingKeepsLines(a);
    CuttingKeepsLines(b);
    LinesAround(x, line, y);
    RepeatedEvent(Lines(StripBom(x)), StripCr(line), Lines(y), decode);
  }

  /** The line holds no event, or one whose id some of the lines before it have. */
  predicate Repeats(line: string, before: seq<string>, decode: string -> Option<Event>) {
    Trim(line) == "" || match decode(line) case Some(e) => e.id in IdsOf(EventsOf(before, decode)) case None => true
  }

  lemma RepeatedEvent(front: seq<string>, line: string, behind: seq<string>, decode: string -> Option<Event>)
    requires Repeats(line, front, decode)
    ensures Project(EventsOf(front + [line] + behind, decode)) == Project(EventsOf(front + behind, decode))
  {
    EventsJoin(front + [line], behind, decode);
    EventsJoin(front, [line], decode);
    EventsJoin(front, behind, decode);
    OneEvent(line, decode);
    var before, events, after := EventsOf(front, decode), EventsOf([line], decode), EventsOf(behind, decode);
    if events == [] {
      assert before + [] == before;
    } else {
      ReplayChangesNothing(before, events[0], after);
    }
  }

  lemma OneEvent(line: string, decode: string -> Option<Event>)
    ensures EventsOf([line], decode) == if Trim(line) == "" then [] else match decode(line) case Some(e) => [e] case None => []
  {
    assert [line][1..] == [];
  }

  lemma {:induction false} EventsPermute(a: seq<string>, b: seq<string>, decode: string -> Option<Event>)
    requires multiset(a) == multiset(b)
    ensures multiset(EventsOf(a, decode)) == multiset(EventsOf(b, decode))
    decreases |a|
  {
    assert |a| == |multiset(a)| && |b| == |multiset(b)|;
    if a != [] {
      assert a[0] in multiset(b);
      var i :| 0 <= i < |b| && b[i] == a[0];
      LinesWithout(a, b, i);
      EventsPermute(a[1..], b[..i] + b[i + 1..], decode);
      EventsAround(b, i, decode);
      EventsFirst(a, decode);
    }
  }

  lemma LinesWithout(a: seq<string>, b: seq<string>, i: nat)
    requires a != [] && i < |b| && b[i] == a[0] && multiset(a) == multiset(b)
    ensures multiset(a[1..]) == multiset(b[..i] + b[i + 1..])
  {
    assert a == [a[0]] + a[1..];
    assert b == b[..i] + [b[i]] + b[i + 1..];
    assert multiset(a[1..]) == multiset(a) - multiset{a[0]};
    assert multiset(b[..i] + b[i + 1..]) == multiset(b) - multiset{b[i]};
  }

  lemma EventsFirst(a: seq<string>, decode: string -> Option<Event>)
    requires a != []
    ensures multiset(EventsOf(a, decode)) == multiset(EventsOf([a[0]], decode)) + multiset(EventsOf(a[1..], decode))
  {
    assert a == [a[0]] + a[1..];
    EventsJoin([a[0]], a[1..], decode);
  }

  lemma EventsAround(b: seq<string>, i: nat, decode: string -> Option<Event>)
    requires i < |b|
    ensures multiset(EventsOf(b, decode)) == multiset(EventsOf([b[i]], decode)) + multiset(EventsOf(b[..i] + b[i + 1..], decode))
  {
    var x, y := b[..i], b[i + 1..];
    assert b == x + ([b[i]] + y);
    EventsJoin(x, [b[i]] + y, decode);
    EventsJoin([b[i]], y, decode);
    EventsJoin(x, y, decode);
  }

  lemma {:induction false} IdsAre(events: seq<Event>)
    ensures forall id :: id in IdsOf(events) <==> exists e :: e in multiset(events) && e.id == id
  {
    if events != [] {
      IdsAre(events[1..]);
      assert events == [events[0]] + events[1..];
    }
  }

  /** Different ids stay different in another order. */
  lemma {:induction false} DistinctPermutes(a: seq<Event>, b: seq<Event>)
    requires DistinctIds(a) && multiset(a) == multiset(b)
    ensures DistinctIds(b)
    decreases |a|
  {
    assert |a| == |multiset(a)| && |b| == |multiset(b)|;
    if a != [] {
      assert a[0] in multiset(b);
      var i :| 0 <= i < |b| && b[i] == a[0];
      Without(a, b, i);
      DistinctPermutes(a[1..], b[..i] + b[i + 1..]);
      IdsAre(a[1..]);
      IdsAre(b[..i] + b[i + 1..]);
      DistinctAround(b, i);
    }
  }

  lemma {:induction false} DistinctAround(b: seq<Event>, i: nat)
    requires i < |b| && DistinctIds(b[..i] + b[i + 1..]) && b[i].id !in IdsOf(b[..i] + b[i + 1..])
    ensures DistinctIds(b)
    decreases i
  {
    var rest := b[..i] + b[i + 1..];
    if i == 0 {
      assert rest == b[1..];
    } else {
      assert rest[0] == b[0] && rest[1..] == b[1..][..i - 1] + b[1..][i..];
      IdsAround(b[1..], i - 1);
      DistinctAround(b[1..], i - 1);
    }
  }

  lemma {:induction false} IdsAround(b: seq<Event>, i: nat)
    requires i < |b|
    ensures IdsOf(b) == IdsOf(b[..i] + b[i + 1..]) + {b[i].id}
    decreases i
  {
    var rest := b[..i] + b[i + 1..];
    if i == 0 {
      assert rest == b[1..];
    } else {
      assert rest[0] == b[0] && rest[1..] == b[1..][..i - 1] + b[1..][i..];
      IdsAround(b[1..], i - 1);
    }
  }

  /** Lines of events with different ids may come in any order in the stream. */
  lemma MovedLines(a: seq<string>, b: seq<string>, decode: string -> Option<Event>)
    requires CutAtLines(a) && CutAtLines(b)
    requires multiset(Lines(StripBom(Whole(a)))) == multiset(Lines(StripBom(Whole(b))))
    requires DistinctIds(EventsOf(Lines(StripBom(Whole(a))), decode))
    ensures OutboxDigest(a, decode) == OutboxDigest(b, decode)
  {
    CuttingKeepsLines(a);
    CuttingKeepsLines(b);
    var c, d := Lines(StripBom(Whole(a))), Lines(StripBom(Whole(b)));
    EventsPermute(c, d, decode);
    DistinctPermutes(EventsOf(c, decode), EventsOf(d, decode));
    OrderDoesNotMatter(EventsOf(c, decode), EventsOf(d, decode));
  }

  // ---------------------------------------------------------------------------------------
  // The committed tree
  // ---------------------------------------------------------------------------------------

  predicate OkSegment(s: string) { s != "" && s != "." && s != ".." }

  function AllOk(segments: seq<string>): Option<seq<string>> {
    if forall s | s in segments :: OkSegment(s) then Some(segments) else None
  }

  /** The segments of the components of a path: empty components and inner dots are skipped, and a
      backslash separates like a slash. */
  function Gather(parts: seq<string>): Option<seq<string>> {
    if parts == [] then Some([])
    else if parts[0] == "" || parts[0] == "." then Gather(parts[1..])
    else if parts[0] == ".." then None
    else match (AllOk(Split(parts[0], '\\')), Gather(parts[1..])) case (Some(a), Some(b)) => Some(a + b) case _ => None
  }

  /** `normalized_tree_path`. */
  function NormalPath(path: string): Option<string> {
    if path == "" || path[0] == '/' || Split(path, '/')[0] == "." then None
    else
      match Gather(Split(path, '/'))
      case None => None
      case Some(segments) => if segments == [] then None else Some(JoinWith(segments, "/"))
  }

  /** A component that is left out of a path. */
  predicate Skipped(part: string) { part == "" || part == "." }

  predicate Climbs(part: string) { part == ".." || exists s | s in Split(part, '\\') :: !OkSegment(s) }

  lemma {:induction false} GatherWhen(parts: seq<string>)
    ensures Gather(parts).Some? <==> forall p | p in parts :: Skipped(p) || !Climbs(p)
    ensures Gather(parts).Some? ==> (Gather(parts).value == [] <==> forall p | p in parts :: Skipped(p))
  {
    if parts != [] {
      assert parts == [parts[0]] + parts[1..];
      GatherWhen(parts[1..]);
      if !Skipped(parts[0]) {
        var segments := Split(parts[0], '\\');
        assert AllOk(segments).Some? <==> forall s | s in segments :: OkSegment(s);
        assert Climbs(parts[0]) <==> parts[0] == ".." || AllOk(segments).None?;
        assert |segments| >= 1;
      }
    }
  }

  /** A path is refused exactly when it is absolute, begins at the current directory, climbs
      somewhere, or names nothing. */
  lemma RefusedPath(path: string)
    ensures NormalPath(path).Some? <==>
              var parts := Split(path, '/');
              && !StartsWithSlash(path) && parts[0] != "."
              && (forall p | p in parts :: Skipped(p) || !Climbs(p)) && exists p | p in parts :: !Skipped(p)
  {
    GatherWhen(Split(path, '/'));
    if path == "" { assert Split(path, '/') == [""]; }
  }

  predicate StartsWithSlash(path: string) { path != "" && path[0] == '/' }

  /** One relative path, with a slash or a backslash after each segment but the last. */
  function Spell(segments: seq<string>, back: seq<bool>): string
    requires segments != [] && |back| == |segments| - 1
  {
    if |segments| == 1 then segments[0]
    else segments[0] + ((if back[0] then "\\" else "/") + Spell(segments[1..], back[1..]))
  }

  predicate PlainSegment(s: string) { OkSegment(s) && '/' !in s && '\\' !in s }

  /** A well-spelled path gives its segments back, and neither of its ends is empty. */
  lemma {:induction false} SpellGathers(segments: seq<string>, back: seq<bool>)
    requires segments != [] && |back| == |segments| - 1 && forall s | s in segments :: PlainSegment(s)
    ensures var path := Spell(segments, back);
            var parts := Split(path, '/');
            && path != "" && path[0] != '/' && Gather(parts) == Some(segments)
            && parts[0] != "" && parts[0] != "." && parts[0] != ".." && AllOk(Split(parts[0], '\\')).Some?
    decreases |segments|
  {
    var first := segments[0];
    assert first in segments;
    SplitNowhere(first, '\\');
    if |segments| == 1 {
      SplitNowhere(first, '/');
      assert segments == [first] && [first] + [] == [first];
    } else {
      forall s | s in segments[1..] ensures PlainSegment(s) { assert s in segments; }
      SpellGathers(segments[1..], back[1..]);
      if back[0] {
        SpellBack(first, Spell(segments[1..], back[1..]), segments[1..]);
      } else {
        SpellSlash(first, Spell(segments[1..], back[1..]), segments[1..]);
      }
      assert segments == [first] + segments[1..];
    }
  }

  lemma SpellSlash(first: string, rest: string, more: seq<string>)
    requires PlainSegment(first) && Gather(Split(rest, '/')) == Some(more)
    ensures var parts := Split(first + ("/" + rest), '/'); parts[0] == first && Gather(parts) == Some([first] + more)
    ensures AllOk(Split(first, '\\')) == Some([first])
  {
    SplitAt(first, rest, '/');
    SplitNowhere(first, '\\');
    assert ([first] + Split(rest, '/'))[1..] == Split(rest, '/');
  }

  lemma SpellBack(first: string, rest: string, more: seq<string>)
    requires PlainSegment(first) && Gather(Split(rest, '/')) == Some(more)
    requires var p := Split(rest, '/')[0]; p != "" && p != "." && p != ".." && AllOk(Split(p, '\\')).Some?
    ensures var parts := Split(first + ("\\" + rest), '/');
            && Gather(parts) == Some([first] + more) && AllOk(Split(parts[0], '\\')).Some?
            && parts[0] != "" && parts[0] != "." && parts[0] != ".."
  {
    var parts := Split(rest, '/');
    BackParts(first, rest);
    BackHead(first, parts[0]);
    GatherBoth(first, first + ("\\" + parts[0]), parts[0], parts[1..], parts, more);
  }

  /** One more segment in front of the first component. */
  lemma GatherBoth(first: string, head: string, p: string, tail: seq<string>, parts: seq<string>, more: seq<string>)
    requires parts == [p] + tail && Gather(parts) == Some(more)
    requires p != "" && p != "." && p != ".." && AllOk(Split(p, '\\')).Some?
    requires head != "" && head != "." && head != ".." && AllOk(Split(head, '\\')) == Some([first] + AllOk(Split(p, '\\')).value)
    ensures Gather([head] + tail) == Some([first] + more)
  {
    var inner := AllOk(Split(p, '\\')).value;
    GatherFront(p, tail, inner);
    GatherFront(head, tail, [first] + inner);
    ThreeParts([first], inner, Gather(tail).value);
  }

  lemma ThreeParts(a: seq<string>, b: seq<string>, c: seq<string>)
    ensures a + b + c == a + (b + c)
  {}

  lemma BackParts(first: string, rest: string)
    requires PlainSegment(first)
    ensures var parts := Split(rest, '/');
            Split(first + ("\\" + rest), '/') == [first + ("\\" + parts[0])] + parts[1..]
  {
    var joined := first + "\\";
    Assoc(first, "\\", rest);
    SplitBehind(joined, rest, '/');
    Assoc(first, "\\", Split(rest, '/')[0]);
  }

  lemma BackHead(first: string, p: string)
    requires PlainSegment(first) && AllOk(Split(p, '\\')).Some?
    ensures var head := first + ("\\" + p);
            AllOk(Split(head, '\\')) == Some([first] + AllOk(Split(p, '\\')).value) && head != "" && head != "." && head != ".."
  {
    var head := first + ("\\" + p);
    SplitAt(first, p, '\\');
    assert head[|first|] == '\\';
  }

  lemma GatherFront(head: string, tail: seq<string>, segments: seq<string>)
    requires head != "" && head != "." && head != ".." && AllOk(Split(head, '\\')) == Some(segments)
    ensures Gather([head] + tail) == match Gather(tail) case Some(b) => Some(segments + b) case None => None
  {
    assert ([head] + tail)[1..] == tail;
  }

  /** A path is the same file however its separators are spelled. */
  lemma SpellingDoesNotMatter(segments: seq<string>, back: seq<bool>)
    requires segments != [] && |back| == |segments| - 1 && forall s | s in segments :: PlainSegment(s)
    ensures NormalPath(Spell(segments, back)) == Some(JoinWith(segments, "/"))
  {
    SpellGathers(segments, back);
  }

  /** A file of the inventory; its content stands for the digest of its content. */
  datatype Entry = Entry(path: string, content: string)

  function AddEntry(e: Entry, tree: Option<map<string, string>>): Option<map<string, string>> {
    match (NormalPath(e.path), tree)
    case (Some(p), Some(m)) => if p in m then None else Some(m[p := e.content])
    case _ => None
  }

  /** `tree_digest`, before the paths are printed in order and hashed: digests by path. */
  function Tree(entries: seq<Entry>): Option<map<string, string>> {
    if entries == [] then Some(map[]) else AddEntry(entries[|entries| - 1], Tree(entries[..|entries| - 1]))
  }

  method TreeOf(entries: seq<Entry>) returns (r: Option<map<string, string>>)
    ensures r == Tree(entries)
  {
    var paths: map<string, string>, i := map[], 0;
    while i < |entries|
      invariant i <= |entries| && Tree(entries[..i]) == Some(paths)
    {
      assert entries[..i + 1][..i] == entries[..i];
      var path := NormalPath(entries[i].path);
      if path.None? || path.value in paths {
        TreeStuck(entries, i + 1);
        return None;
      }
      paths := paths[path.value := entries[i].content];
      i := i + 1;
    }
    assert entries[..i] == entries;
    return Some(paths);
  }

  lemma {:induction false} TreeStuck(entries: seq<Entry>, i: nat)
    requires i <= |entries| && Tree(entries[..i]) == None
    ensures Tree(entries) == None
    decreases |entries| - i
  {
    if i == |entries| {
      assert entries[..i] == entries;
    } else {
      assert entries[..i + 1][..i] == entries[..i];
      TreeStuck(entries, i + 1);
    }
  }

  lemma AddCommutes(a: Entry, b: Entry, tree: Option<map<string, string>>)
    ensures AddEntry(a, AddEntry(b, tree)) == AddEntry(b, AddEntry(a, tree))
  {
    var p, q := NormalPath(a.path), NormalPath(b.path);
    if p.Some? && q.Some? && tree.Some? && p != q {
      assert tree.value[p.value := a.content][q.value := b.content] == tree.value[q.value := b.content][p.value := a.content];
    }
  }

  /** An entry counts the same wherever it stands. */
  lemma {:induction false} EntryAnywhere(a: seq<Entry>, e: Entry, b: seq<Entry>)
    ensures Tree(a + [e] + b) == AddEntry(e, Tree(a + b))
    decreases |b|
  {
    if b == [] {
      assert a + [e] + b == a + [e] && a + b == a && (a + [e])[..|a|] == a;
    } else {
      var init, last := b[..|b| - 1], b[|b| - 1];
      assert (a + [e] + b)[..|a + [e] + b| - 1] == a + [e] + init && (a + b)[..|a + b| - 1] == a + init;
      EntryAnywhere(a, e, init);
      AddCommutes(last, e, Tree(a + init));
    }
  }

  /** The digest does not depend on the order of the inventory. */
  lemma {:induction false} InventoryOrder(a: seq<Entry>, b: seq<Entry>)
    requires multiset(a) == multiset(b)
    ensures Tree(a) == Tree(b)
    decreases |a|
  {
    assert |a| == |multiset(a)| && |b| == |multiset(b)|;
    if a != [] {
      var x, y := LastElsewhere(a, b);
      EntryAnywhere(x, a[|a| - 1], y);
      InventoryOrder(a[..|a| - 1], x + y);
    } else {
      assert b == [];
    }
  }

  /** Where the last of some entries stands in another order of them. */
  lemma LastElsewhere(a: seq<Entry>, b: seq<Entry>) returns (x: seq<Entry>, y: seq<Entry>)
    requires a != [] && multiset(a) == multiset(b)
    ensures b == x + [a[|a| - 1]] + y && multiset(a[..|a| - 1]) == multiset(x + y)
  {
    var init, last := a[..|a| - 1], a[|a| - 1];
    assert a == init + [last];
    assert last in multiset(b);
    var i :| 0 <= i < |b| && b[i] == last;
    x, y := b[..i], b[i + 1..];
    assert b == x + [last] + y;
    WithoutOne(init, last, []);
    WithoutOne(x, last, y);
    assert init + [] == init && init + [last] + [] == a;
  }

  lemma WithoutOne(x: seq<Entry>, e: Entry, y: seq<Entry>)
    ensures multiset(x + y) == multiset(x + [e] + y) - multiset{e}
  {}

  /** Some entry is the file `p`. */
  ghost predicate Holds(entries: seq<Entry>, p: string) {
    exists i :: 0 <= i < |entries| && NormalPath(entries[i].path) == Some(p)
  }

  ghost predicate AllNormal(entries: seq<Entry>) { forall i | 0 <= i < |entries| :: NormalPath(entries[i].path).Some? }

  ghost predicate AllDifferent(entries: seq<Entry>) {
    forall i, j | 0 <= i < j < |entries| :: NormalPath(entries[i].path) != NormalPath(entries[j].path)
  }

  lemma HoldsStep(init: seq<Entry>, last: Entry, p: string)
    ensures Holds(init + [last], p) <==> Holds(init, p) || NormalPath(last.path) == Some(p)
  {
    var all := init + [last];
    if Holds(init, p) {
      var i :| 0 <= i < |init| && NormalPath(init[i].path) == Some(p);
      assert NormalPath(all[i].path) == Some(p);
    }
    if NormalPath(last.path) == Some(p) { assert NormalPath(all[|init|].path) == Some(p); }
  }

  lemma DifferentStep(init: seq<Entry>, last: Entry)
    requires AllNormal(init + [last]) && NormalPath(last.path).Some?
    ensures AllNormal(init)
    ensures AllDifferent(init + [last]) <==> AllDifferent(init) && !Holds(init, NormalPath(last.path).value)
  {
    var all := init + [last];
    assert forall i | 0 <= i < |init| :: all[i] == init[i];
    assert all[|init|] == last;
  }

  /** An inventory is refused exactly when a path is invalid or two entries are the same file. */
  lemma {:induction false} RefusedWhen(entries: seq<Entry>)
    ensures Tree(entries).Some? <==> AllNormal(entries) && AllDifferent(entries)
    ensures Tree(entries).Some? ==> forall p :: p in Tree(entries).value <==> Holds(entries, p)
    decreases |entries|
  {
    if entries != [] {
      var init, last := entries[..|entries| - 1], entries[|entries| - 1];
      assert entries == init + [last];
      RefusedWhen(init);
      assert AllNormal(entries) <==> AllNormal(init) && NormalPath(last.path).Some? by {
        assert forall i | 0 <= i < |init| :: entries[i] == init[i];
      }
      if AllNormal(entries) { DifferentStep(init, last); }
      forall p ensures Holds(entries, p) <==> Holds(init, p) || NormalPath(last.path) == Some(p) { HoldsStep(init, last, p); }
      if AllDifferent(entries) && AllNormal(entries) { assert Tree(init).Some?; }
    }
  }
}
