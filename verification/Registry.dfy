/** The shared dependency registry of `engine/src/dependency_graph.rs`: how a stored registry is
    read, and what applying a candidate to it does to a later reading. */
module Registry {
  import opened Text
  import opened Sorting
  import CommandLine

  // ---------------------------------------------------------------------------------------
  // Product identities
  // ---------------------------------------------------------------------------------------

  const MAX_PRODUCTS: nat := 100
  const MAX_DEPENDENCIES: nat := 100
  const MAX_EVIDENCE: nat := 100
  const MAX_U64: nat := 0xFFFF_FFFF_FFFF_FFFF

  predicate IsAlnum(c: char) { IsDigit(c) || 'a' <= c <= 'z' || 'A' <= c <= 'Z' }

  predicate OkEcosystem(s: string) {
    s != "" && |s| <= 32 && IsAlnum(s[0]) && forall c | c in s :: IsAlnum(c) || c == '.' || c == '_' || c == '-'
  }

  predicate OkProductName(s: string) {
    s != "" && Utf16Length(s) <= 200 && NoControl(s) && Trim(s) != "" && s[0] != ':'
  }

  /** `normalize_product`. */
  function Normalize(value: string): Option<string> {
    var v := Trim(value);
    var k := ColonAt(v);
    if k == |v| || !OkEcosystem(v[..k]) || !OkProductName(v[k + 1..]) || Utf16Length(v) > 240 then None
    else Some(Product(v[..k], v[k + 1..]))
  }

  function Product(ecosystem: string, name: string): string { CommandLine.Lower(ecosystem) + (":" + Trim(name)) }

  /** The name of a product, once trimmed, starts with a second colon. */
  predicate ColonName(value: string) {
    var v := Trim(value);
    ColonAt(v) < |v| && Trim(v[ColonAt(v) + 1..]) != "" && Trim(v[ColonAt(v) + 1..])[0] == ':'
  }

  lemma {:induction false} Utf16Join(a: string, b: string)
    ensures Utf16Length(a + b) == Utf16Length(a) + Utf16Length(b)
  {
    if a == "" {
      assert a + b == b;
    } else {
      assert (a + b)[0] == a[0] && (a + b)[1..] == a[1..] + b;
      Utf16Join(a[1..], b);
    }
  }

  lemma {:induction false} Utf16Ascii(s: string)
    requires forall c | c in s :: (c as int) < 0x80
    ensures Utf16Length(s) == |s|
  {
    if s != "" {
      assert s[0] in s;
      forall c | c in s[1..] ensures (c as int) < 0x80 { assert c in s; }
      Utf16Ascii(s[1..]);
    }
  }

  lemma {:induction false} TrimStartUtf16(s: string)
    ensures Utf16Length(TrimStart(s)) <= Utf16Length(s) && (forall c | c in TrimStart(s) :: c in s)
    ensures TrimStart(s) == "" || !IsWhitespace(TrimStart(s)[0])
  {
    if s != "" && IsWhitespace(s[0]) { TrimStartUtf16(s[1..]); }
  }

  lemma {:induction false} TrimEndUtf16(s: string)
    ensures Utf16Length(TrimEnd(s)) <= Utf16Length(s) && (forall c | c in TrimEnd(s) :: c in s)
    ensures TrimEnd(s) == "" || (TrimEnd(s)[0] == s[0] && !IsWhitespace(TrimEnd(s)[|TrimEnd(s)| - 1]))
    decreases |s|
  {
    if s != "" && IsWhitespace(s[|s| - 1]) {
      assert s == s[..|s| - 1] + [s[|s| - 1]];
      Utf16Join(s[..|s| - 1], [s[|s| - 1]]);
      TrimEndUtf16(s[..|s| - 1]);
    }
  }

  /** What trimming leaves: no longer, no new characters, visible at both ends. */
  lemma Trimmed(s: string)
    ensures Utf16Length(Trim(s)) <= Utf16Length(s) && forall c | c in Trim(s) :: c in s
    ensures Trim(s) == "" || (!IsWhitespace(Trim(s)[0]) && !IsWhitespace(Trim(s)[|Trim(s)| - 1]))
    ensures Trim(Trim(s)) == Trim(s)
  {
    TrimStartUtf16(s);
    TrimEndUtf16(TrimStart(s));
  }

  lemma LowerEcosystem(e: string)
    requires OkEcosystem(e)
    ensures var l := CommandLine.Lower(e);
            && OkEcosystem(l) && CommandLine.Lower(l) == l && ':' !in l && |l| == |e| && !IsWhitespace(l[0])
            && (forall c | c in l :: (c as int) < 0x80) && (forall c | c in e :: (c as int) < 0x80)
  {
    var l := CommandLine.Lower(e);
    forall c | c in l ensures (IsAlnum(c) || c == '.' || c == '_' || c == '-') && !('A' <= c <= 'Z') {
      var i :| 0 <= i < |l| && l[i] == c;
      assert e[i] in e;
    }
    assert e[0] in e;
  }

  /** A normalized product reads back as itself exactly when its name does not start with a
      colon; otherwise it does not read back at all. */
  lemma NormalizeTwice(value: string)
    requires Normalize(value).Some?
    ensures Normalize(Normalize(value).value) == if ColonName(value) then None else Normalize(value)
  {
    var v := Trim(value);
    var k := ColonAt(v);
    var e, name := v[..k], v[k + 1..];
    var l, n := CommandLine.Lower(e), Trim(name);
    var w := Product(e, name);
    Trimmed(name);
    LowerEcosystem(e);
    assert w == l + (":" + n);
    ProductParts(l, n);
    LengthsFit(v, e, name, l, n) by { assert v == e + ([':'] + name); }
    NormalizeAs(w, |l|);
    Trimmed(value);
  }

  lemma ProductParts(l: string, n: string)
    requires l != "" && ':' !in l && !IsWhitespace(l[0]) && n != "" && !IsWhitespace(n[|n| - 1])
    ensures var w := l + (":" + n); Trim(w) == w && ColonAt(w) == |l| < |w| && w[..|l|] == l && w[|l| + 1..] == n
  {
    ProductTrimmed(l, n);
    ColonFirst(l, n);
  }

  lemma NormalizeAs(v: string, k: nat)
    requires Trim(v) == v && ColonAt(v) == k < |v|
    ensures Normalize(v) ==
            if OkEcosystem(v[..k]) && OkProductName(v[k + 1..]) && Utf16Length(v) <= 240 then Some(Product(v[..k], v[k + 1..])) else None
  {}

  lemma NormalizeParts(e: string, name: string)
    requires OkEcosystem(e) && OkProductName(name) && !IsWhitespace(name[|name| - 1])
    ensures Trim(e + (":" + name)) == e + (":" + name) && ColonAt(e + (":" + name)) == |e|
    ensures Normalize(e + (":" + name)) == Some(Product(e, name))
  {
    var v := e + (":" + name);
    PartsTrimmed(e, name);
    ColonFirst(e, name);
    assert v[..|e|] == e && v[|e| + 1..] == name;
    PartsLength(e, name);
    NormalizeAs(v, |e|);
  }

  lemma PartsTrimmed(e: string, name: string)
    requires OkEcosystem(e) && OkProductName(name) && !IsWhitespace(name[|name| - 1])
    ensures Trim(e + (":" + name)) == e + (":" + name) && ':' !in e
  {
    assert e[0] in e;
    ProductTrimmed(e, name);
  }

  lemma PartsLength(e: string, name: string)
    requires OkEcosystem(e) && OkProductName(name)
    ensures Utf16Length(e + (":" + name)) <= 233
  {
    Utf16Join(e, ":" + name);
    Utf16Join(":", name);
    Utf16Ascii(e);
  }

  /** The same letters, in lower case. */
  predicate Lowered(e: string, l: string) {
    |l| == |e| && forall i | 0 <= i < |e| :: l[i] == if 'A' <= e[i] <= 'Z' then (e[i] as int + 32) as char else e[i]
  }

  /** What a product is made of: an ecosystem ahead of the first colon and a name behind it. */
  predicate MadeOf(v: string, e: string, name: string) { v == e + (":" + name) && ':' !in e }

  lemma {:induction false} ColonSplits(v: string)
    requires ColonAt(v) < |v|
    ensures MadeOf(v, v[..ColonAt(v)], v[ColonAt(v) + 1..])
  {
    assert v == v[..ColonAt(v)] + ([v[ColonAt(v)]] + v[ColonAt(v) + 1..]);
  }

  /** A product is accepted exactly if it is made of an ecosystem and a name and not too long, and then
      it is the ecosystem in lower case and the name without blanks around it. */
  lemma NormalizeIs(value: string, e: string, name: string)
    requires MadeOf(Trim(value), e, name)
    ensures Normalize(value).Some? <==> OkEcosystem(e) && OkProductName(name) && Utf16Length(Trim(value)) <= 240
    ensures Normalize(value).Some? ==>
              exists l :: Lowered(e, l) && Normalize(value).value == l + (":" + Trim(name))
  {
    ColonFirst(e, name);
    var v := Trim(value);
    assert v[..|e|] == e && v[|e| + 1..] == name;
    if Normalize(value).Some? { assert Lowered(e, CommandLine.Lower(e)); }
  }

  /** Without a colon there is no product. */
  lemma NoColonNoProduct(value: string)
    requires ':' !in Trim(value)
    ensures Normalize(value) == None
  {}

  /** Such products exist: this one is accepted, and what it becomes is refused. */
  lemma ColonNameAccepted()
    ensures ColonName("cargo" + (":" + " :x")) && Normalize("cargo" + (":" + " :x")) == Some(Product("cargo", " :x"))
    ensures Normalize(Product("cargo", " :x")) == None
  {
    var v := "cargo" + (":" + " :x");
    TrimColonX();
    NormalizeParts("cargo", " :x");
    assert v[|"cargo"| + 1..] == " :x";
    NormalizeTwice(v);
  }

  lemma TrimColonX()
    ensures Trim(" :x") == ":x" && OkProductName(" :x") && OkEcosystem("cargo")
  {
    assert " :x"[1..] == ":x";
    Utf16Ascii(" :x");
  }

  lemma ProductTrimmed(l: string, n: string)
    requires l != "" && !IsWhitespace(l[0]) && n != "" && !IsWhitespace(n[|n| - 1])
    ensures Trim(l + (":" + n)) == l + (":" + n)
  {
    var w := l + (":" + n);
    assert w[0] == l[0] && w[|w| - 1] == n[|n| - 1];
  }

  lemma LengthsFit(v: string, e: string, name: string, l: string, n: string)
    requires v == e + ([':'] + name) && Utf16Length(n) <= Utf16Length(name) && |l| == |e|
    requires (forall c | c in l :: (c as int) < 0x80) && (forall c | c in e :: (c as int) < 0x80)
    ensures Utf16Length(l + (":" + n)) <= Utf16Length(v)
  {
    Utf16Join(e, [':'] + name);
    Utf16Join([':'], name);
    Utf16Join(l, ":" + n);
    Utf16Join(":", n);
    Utf16Ascii(e);
    Utf16Ascii(l);
  }

  // ---------------------------------------------------------------------------------------
  // Lists
  // ---------------------------------------------------------------------------------------

  /** Every element mapped, if all can be. */
  function NormalizeAll(values: seq<string>): Option<seq<string>> {
    if values == [] then Some([])
    else
      match (Normalize(values[0]), NormalizeAll(values[1..]))
      case (Some(p), Some(more)) => Some([p] + more)
      case _ => None
  }

  /** `product_list`. */
  function Products(values: seq<string>): Option<seq<string>> {
    if |values| > MAX_PRODUCTS then None
    else match NormalizeAll(values) case Some(ps) => Some(ToSet(ps)) case None => None
  }

  predicate OkEvidence(value: string) { Trim(value) != "" && Utf8Length(Trim(value)) <= 500 && NoControl(Trim(value)) }

  function TrimAll(values: seq<string>): seq<string> { if values == [] then [] else [Trim(values[0])] + TrimAll(values[1..]) }

  /** `evidence_list`. */
  function Evidence(values: seq<string>): Option<seq<string>> {
    if |values| > MAX_EVIDENCE || exists v | v in values :: !OkEvidence(v) then None else Some(ToSet(TrimAll(values)))
  }

  lemma {:induction false} SetNotLarger(x: string, s: seq<string>)
    ensures |InsertSet(x, s)| <= |s| + 1
  {
    if s != [] && x != s[0] && !StringLe(x, s[0]) { SetNotLarger(x, s[1..]); }
  }

  lemma {:induction false} ToSetNotLarger(s: seq<string>)
    ensures |ToSet(s)| <= |s|
  {
    if s != [] {
      ToSetNotLarger(s[1..]);
      SetNotLarger(s[0], ToSet(s[1..]));
    }
  }

  lemma {:induction false} NormalizedElements(values: seq<string>)
    requires NormalizeAll(values).Some?
    ensures |NormalizeAll(values).value| == |values|
    ensures forall p | p in NormalizeAll(values).value :: exists v :: v in values && Normalize(v) == Some(p)
    ensures forall v | v in values :: Normalize(v).Some? && Normalize(v).value in NormalizeAll(values).value
  {
    if values != [] {
      NormalizedElements(values[1..]);
      assert values == [values[0]] + values[1..];
      assert Normalize(values[0]) == Some(NormalizeAll(values).value[0]) && values[0] in values;
    }
  }

  lemma {:induction false} NormalizeFixed(ps: seq<string>)
    requires forall p | p in ps :: Normalize(p) == Some(p)
    ensures NormalizeAll(ps) == Some(ps)
  {
    if ps != [] {
      NormalizeFixed(ps[1..]);
      assert ps == [ps[0]] + ps[1..];
    }
  }

  lemma {:induction false} NormalizeStuck(ps: seq<string>, p: string)
    requires p in ps && Normalize(p) == None
    ensures NormalizeAll(ps) == None
  {
    if p != ps[0] { NormalizeStuck(ps[1..], p); }
  }

  predicate AnyColonName(values: seq<string>) { exists v :: v in values && ColonName(v) }

  /** A stored product list reads back as itself exactly when no name starts with a colon. */
  lemma ProductsTwice(values: seq<string>)
    requires Products(values).Some?
    ensures Products(Products(values).value) == if AnyColonName(values) then None else Products(values)
  {
    var ps := NormalizeAll(values).value;
    var set_ := ToSet(ps);
    NormalizedElements(values);
    ToSetRising(ps);
    ToSetNotLarger(ps);
    ToSetOfSet(set_);
    if AnyColonName(values) {
      var v :| v in values && ColonName(v);
      NormalizeTwice(v);
      NormalizeStuck(set_, Normalize(v).value);
    } else {
      forall p | p in set_ ensures Normalize(p) == Some(p) {
        var v :| v in values && Normalize(v) == Some(p);
        NormalizeTwice(v);
      }
      NormalizeFixed(set_);
    }
  }

  lemma {:induction false} TrimmedElements(values: seq<string>)
    ensures |TrimAll(values)| == |values| && forall t | t in TrimAll(values) :: exists v :: v in values && Trim(v) == t
  {
    if values != [] {
      TrimmedElements(values[1..]);
      assert values == [values[0]] + values[1..];
      assert Trim(values[0]) == TrimAll(values)[0] && values[0] in values;
    }
  }

  lemma {:induction false} TrimFixed(ts: seq<string>)
    requires forall t | t in ts :: Trim(t) == t
    ensures TrimAll(ts) == ts
  {
    if ts != [] {
      TrimFixed(ts[1..]);
      assert ts == [ts[0]] + ts[1..];
    }
  }

  /** Stored evidence reads back as itself. */
  lemma EvidenceTwice(values: seq<string>)
    requires Evidence(values).Some?
    ensures Evidence(Evidence(values).value) == Evidence(values)
  {
    var ts := TrimAll(values);
    TrimmedElements(values);
    ToSetRising(ts);
    ToSetNotLarger(ts);
    ToSetOfSet(ToSet(ts));
    forall t | t in ToSet(ts) ensures Trim(t) == t && OkEvidence(t) {
      var v :| v in values && Trim(v) == t;
      Trimmed(v);
    }
    TrimFixed(ToSet(ts));
  }

  /** A product list is the set of its products, in order. */
  lemma ProductsAre(values: seq<string>)
    ensures Products(values).Some? <==> |values| <= MAX_PRODUCTS && forall v | v in values :: Normalize(v).Some?
    ensures Products(values).Some? ==>
              && Rising(Products(values).value)
              && forall p :: p in Products(values).value <==> exists v :: v in values && Normalize(v) == Some(p)
  {
    if NormalizeAll(values).Some? {
      NormalizedElements(values);
      ToSetRising(NormalizeAll(values).value);
    } else {
      SomeStuck(values);
    }
  }

  /** Evidence is the set of its trimmed texts, in order. */
  lemma EvidenceIs(values: seq<string>)
    ensures Evidence(values).Some? <==> |values| <= MAX_EVIDENCE && forall v | v in values :: OkEvidence(v)
    ensures Evidence(values).Some? ==>
              && Rising(Evidence(values).value)
              && forall t :: t in Evidence(values).value <==> exists v :: v in values && Trim(v) == t
  {
    TrimmedElements(values);
    AllTrimmed(values);
    ToSetRising(TrimAll(values));
  }

  lemma {:induction false} SomeStuck(values: seq<string>)
    requires NormalizeAll(values) == None
    ensures exists v :: v in values && Normalize(v) == None
  {
    assert values == [values[0]] + values[1..];
    if Normalize(values[0]).Some? {
      SomeStuck(values[1..]);
      var v :| v in values[1..] && Normalize(v) == None;
      assert v in values;
    } else {
      assert values[0] in values;
    }
  }

  lemma {:induction false} AllTrimmed(values: seq<string>)
    ensures forall v | v in values :: Trim(v) in TrimAll(values)
  {
    if values != [] {
      AllTrimmed(values[1..]);
      assert values == [values[0]] + values[1..] && TrimAll(values) == [Trim(values[0])] + TrimAll(values[1..]);
    }
  }

  // ---------------------------------------------------------------------------------------
  // Dependencies
  // ---------------------------------------------------------------------------------------

  /** A dependency as stored, and as read. */
  datatype Dependency = Dependency(upstream: string, products: seq<string>, evidence: seq<string>)

  /** `valid_project_id`. */
  predicate ValidId(id: string) {
    |id| == 25 && id[..5] == "repo-" && forall c | c in id[5..] :: IsDigit(c) || 'a' <= c <= 'f'
  }

  function ReadDependency(d: Dependency): Option<Dependency> {
    match (Products(d.products), Evidence(d.evidence))
    case (Some(ps), Some(es)) => if ValidId(d.upstream) then Some(Dependency(d.upstream, ps, es)) else None
    case _ => None
  }

  function ReadAll(ds: seq<Dependency>): Option<seq<Dependency>> {
    if ds == [] then Some([])
    else match (ReadDependency(ds[0]), ReadAll(ds[1..])) case (Some(d), Some(more)) => Some([d] + more) case _ => None
  }

  function InsertDependency(d: Dependency, ds: seq<Dependency>): seq<Dependency> {
    if ds == [] || StringLe(d.upstream, ds[0].upstream) then [d] + ds else [ds[0]] + InsertDependency(d, ds[1..])
  }

  function SortDependencies(ds: seq<Dependency>): seq<Dependency> {
    if ds == [] then [] else InsertDependency(ds[0], SortDependencies(ds[1..]))
  }

  /** `dependency_list`. */
  function Dependencies(ds: seq<Dependency>): Option<seq<Dependency>> {
    if |ds| > MAX_DEPENDENCIES then None
    else match ReadAll(ds) case Some(rs) => Some(SortDependencies(rs)) case None => None
  }

  ghost predicate ByUpstream(ds: seq<Dependency>) { forall i, j | 0 <= i < j < |ds| :: StringLe(ds[i].upstream, ds[j].upstream) }

  lemma {:induction false} InsertByUpstream(d: Dependency, ds: seq<Dependency>)
    requires ByUpstream(ds)
    ensures var r := InsertDependency(d, ds);
            ByUpstream(r) && |r| == |ds| + 1 && forall x :: x in r <==> x == d || x in ds
  {
    if ds == [] {
    } else if StringLe(d.upstream, ds[0].upstream) {
      forall j | 0 <= j < |ds| ensures StringLe(d.upstream, ds[j].upstream) {
        if j > 0 { StringLeTransitive(d.upstream, ds[0].upstream, ds[j].upstream); }
      }
    } else {
      InsertByUpstream(d, ds[1..]);
      StringLeTotal(d.upstream, ds[0].upstream);
      assert ds == [ds[0]] + ds[1..];
      var rest := InsertDependency(d, ds[1..]);
      forall j | 0 <= j < |rest| ensures StringLe(ds[0].upstream, rest[j].upstream) {
        if rest[j] != d { assert rest[j] in ds[1..]; }
      }
    }
  }

  lemma {:induction false} SortedByUpstream(ds: seq<Dependency>)
    ensures var r := SortDependencies(ds); ByUpstream(r) && |r| == |ds| && forall x :: x in r <==> x in ds
  {
    if ds != [] {
      SortedByUpstream(ds[1..]);
      InsertByUpstream(ds[0], SortDependencies(ds[1..]));
      assert ds == [ds[0]] + ds[1..];
    }
  }

  lemma {:induction false} SortOfSorted(ds: seq<Dependency>)
    requires ByUpstream(ds)
    ensures SortDependencies(ds) == ds
  {
    if ds != [] {
      SortOfSorted(ds[1..]);
      if |ds| > 1 { assert StringLe(ds[0].upstream, ds[1].upstream); }
      assert ds == [ds[0]] + ds[1..];
    }
  }

  predicate NoColonNames(ds: seq<Dependency>) { forall d | d in ds :: !AnyColonName(d.products) }

  lemma {:induction false} ReadElements(ds: seq<Dependency>)
    requires ReadAll(ds).Some?
    ensures |ReadAll(ds).value| == |ds|
    ensures forall r | r in ReadAll(ds).value :: exists d :: d in ds && ReadDependency(d) == Some(r)
    ensures forall d | d in ds :: ReadDependency(d).Some? && ReadDependency(d).value in ReadAll(ds).value
  {
    if ds != [] {
      ReadElements(ds[1..]);
      assert ds == [ds[0]] + ds[1..];
      assert ReadDependency(ds[0]) == Some(ReadAll(ds).value[0]) && ds[0] in ds;
    }
  }

  lemma {:induction false} ReadFixed(rs: seq<Dependency>)
    requires forall r | r in rs :: ReadDependency(r) == Some(r)
    ensures ReadAll(rs) == Some(rs)
  {
    if rs != [] {
      ReadFixed(rs[1..]);
      assert rs == [rs[0]] + rs[1..];
    }
  }

  lemma {:induction false} ReadStuck(rs: seq<Dependency>, r: Dependency)
    requires r in rs && ReadDependency(r) == None
    ensures ReadAll(rs) == None
  {
    if r != rs[0] { ReadStuck(rs[1..], r); }
  }

  lemma DependencyTwice(d: Dependency)
    requires ReadDependency(d).Some?
    ensures ReadDependency(ReadDependency(d).value) == if AnyColonName(d.products) then None else ReadDependency(d)
  {
    ProductsTwice(d.products);
    EvidenceTwice(d.evidence);
  }

  /** A stored dependency list reads back as itself exactly when none of its products has a name
      that starts with a colon. */
  lemma DependenciesTwice(ds: seq<Dependency>)
    requires Dependencies(ds).Some?
    ensures Dependencies(Dependencies(ds).value) == if NoColonNames(ds) then Dependencies(ds) else None
  {
    var rs := ReadAll(ds).value;
    var sorted := SortDependencies(rs);
    ReadElements(ds);
    SortedByUpstream(rs);
    SortOfSorted(sorted);
    if NoColonNames(ds) {
      forall r | r in sorted ensures ReadDependency(r) == Some(r) {
        var d :| d in ds && ReadDependency(d) == Some(r);
        DependencyTwice(d);
      }
      ReadFixed(sorted);
    } else {
      var d :| d in ds && AnyColonName(d.products);
      DependencyTwice(d);
      ReadStuck(sorted, ReadDependency(d).value);
    }
  }

  // ---------------------------------------------------------------------------------------
  // Projects and the registry
  // ---------------------------------------------------------------------------------------

  /** A project as stored. */
  datatype Stored = Stored(id: string, name: string, products: seq<string>, dependencies: seq<Dependency>, generation: nat, updatedAt: string)

  /** A project as read: the slice the engine works with. */
  datatype Slice = Slice(name: string, products: seq<string>, dependencies: seq<Dependency>, generation: nat)

  datatype File = File(generation: nat, updatedAt: string, projects: seq<Stored>)

  predicate OkName(name: string) { name != "" && Utf8Length(name) <= 120 && NoControl(name) }

  function ReadProject(p: Stored): Option<Slice> {
    match (Products(p.products), Dependencies(p.dependencies))
    case (Some(ps), Some(ds)) => if ValidId(p.id) && OkName(p.name) then Some(Slice(p.name, ps, ds, p.generation)) else None
    case _ => None
  }

  function IdsOf(ps: seq<Stored>): set<string> { set p | p in ps :: p.id }

  /** Projects by id, unless one cannot be read or an id stands twice. */
  function ReadProjects(ps: seq<Stored>): Option<map<string, Slice>> {
    if ps == [] then Some(map[])
    else
      match (ReadProject(ps[0]), ReadProjects(ps[1..]))
      case (Some(s), Some(more)) => if ps[0].id in more then None else Some(more[ps[0].id := s])
      case _ => None
  }

  /** Edges lead to other known projects, at most one to each. */
  predicate OkEdges(id: string, ds: seq<Dependency>, known: set<string>) {
    && (forall d | d in ds :: d.upstream != id && d.upstream in known)
    && forall i, j | 0 <= i < j < |ds| :: ds[i].upstream != ds[j].upstream
  }

  /** `parse_registry`. */
  function Read(f: File): Option<map<string, Slice>> {
    match ReadProjects(f.projects)
    case None => None
    case Some(m) => if forall id | id in m :: OkEdges(id, m[id].dependencies, m.Keys) then Some(m) else None
  }

  predicate Before(a: Stored, b: Stored) {
    if a.name == b.name then StringLe(a.id, b.id) else StringLe(a.name, b.name)
  }

  function InsertProject(p: Stored, ps: seq<Stored>): seq<Stored> {
    if ps == [] || Before(p, ps[0]) then [p] + ps else [ps[0]] + InsertProject(p, ps[1..])
  }

  function SortProjects(ps: seq<Stored>): seq<Stored> {
    if ps == [] then [] else InsertProject(ps[0], SortProjects(ps[1..]))
  }

  /** Adding one project reads the same wherever it is put. */
  function Added(p: Stored, m: Option<map<string, Slice>>): Option<map<string, Slice>> {
    match (ReadProject(p), m) case (Some(s), Some(more)) => if p.id in more then None else Some(more[p.id := s]) case _ => None
  }

  lemma AddedCommutes(p: Stored, q: Stored, m: Option<map<string, Slice>>)
    ensures Added(p, Added(q, m)) == Added(q, Added(p, m))
  {
    if ReadProject(p).Some? && ReadProject(q).Some? && m.Some? && p.id != q.id && p.id !in m.value && q.id !in m.value {
      var sp, sq := ReadProject(p).value, ReadProject(q).value;
      assert m.value[q.id := sq][p.id := sp] == m.value[p.id := sp][q.id := sq];
    }
  }

  lemma {:induction false} InsertReads(p: Stored, ps: seq<Stored>)
    ensures ReadProjects(InsertProject(p, ps)) == Added(p, ReadProjects(ps)) && |InsertProject(p, ps)| == |ps| + 1
  {
    if ps == [] || Before(p, ps[0]) {
      assert ([p] + ps)[1..] == ps;
    } else {
      InsertReads(p, ps[1..]);
      assert ([ps[0]] + InsertProject(p, ps[1..]))[1..] == InsertProject(p, ps[1..]);
      AddedCommutes(ps[0], p, ReadProjects(ps[1..]));
    }
  }

  /** The order in which projects are stored does not matter to a reader. */
  lemma {:induction false} SortReads(ps: seq<Stored>)
    ensures ReadProjects(SortProjects(ps)) == ReadProjects(ps) && |SortProjects(ps)| == |ps|
  {
    if ps != [] {
      SortReads(ps[1..]);
      InsertReads(ps[0], SortProjects(ps[1..]));
    }
  }

  /** A registry can be read exactly if every project can, no id stands twice, and all edges lead to
      other projects of it; and then it reads as its projects by id. */
  lemma ReadIs(f: File)
    ensures Read(f).Some? <==>
              && AllRead(f.projects) && NoIdTwice(f.projects)
              && forall p | p in f.projects :: OkEdges(p.id, ReadProject(p).value.dependencies, IdsOf(f.projects))
    ensures Read(f).Some? ==>
              && Read(f).value.Keys == IdsOf(f.projects)
              && forall p | p in f.projects :: ReadProject(p) == Some(Read(f).value[p.id])
  {
    var ps := f.projects;
    ProjectsRead(ps);
    if ReadProjects(ps).Some? {
      var m := ReadProjects(ps).value;
      forall p | p in ps ensures p.id in m && ReadProject(p) == Some(m[p.id]) {
        var i :| 0 <= i < |ps| && ps[i] == p;
        ReadLookup(ps, i);
      }
      forall id | id in m ensures exists p :: p in ps && p.id == id { assert id in IdsOf(ps); }
    }
  }

  predicate AllRead(ps: seq<Stored>) { forall p | p in ps :: ReadProject(p).Some? }

  ghost predicate NoIdTwice(ps: seq<Stored>) { forall i, j | 0 <= i < j < |ps| :: ps[i].id != ps[j].id }

  lemma IdsOfFirst(first: Stored, rest: seq<Stored>)
    ensures IdsOf([first] + rest) == {first.id} + IdsOf(rest)
    ensures AllRead([first] + rest) <==> AllRead(rest) && ReadProject(first).Some?
  {
    assert first in [first] + rest && forall p | p in rest :: p in [first] + rest;
  }

  lemma IdAmong(rest: seq<Stored>, id: string)
    ensures id in IdsOf(rest) <==> exists j :: 0 <= j < |rest| && rest[j].id == id
  {
    if id in IdsOf(rest) {
      var p :| p in rest && p.id == id;
      var k :| 0 <= k < |rest| && rest[k] == p;
    }
  }

  lemma FirstIdOnce(first: Stored, rest: seq<Stored>)
    ensures NoIdTwice([first] + rest) <==> NoIdTwice(rest) && first.id !in IdsOf(rest)
  {
    var ps := [first] + rest;
    IdAmong(rest, first.id);
    assert ps[0] == first && forall j | 0 <= j < |rest| :: ps[j + 1] == rest[j];
    if NoIdTwice(ps) {
      forall i, j | 0 <= i < j < |rest| ensures rest[i].id != rest[j].id { assert ps[i + 1].id != ps[j + 1].id; }
    }
  }

  lemma {:induction false} ProjectsRead(ps: seq<Stored>)
    ensures ReadProjects(ps).Some? <==> AllRead(ps) && NoIdTwice(ps)
    ensures ReadProjects(ps).Some? ==> ReadProjects(ps).value.Keys == IdsOf(ps)
  {
    if ps != [] {
      ProjectsRead(ps[1..]);
      IdsOfFirst(ps[0], ps[1..]);
      FirstIdOnce(ps[0], ps[1..]);
      assert ps == [ps[0]] + ps[1..];
      ReadStep(ps);
    }
  }

  ghost predicate InOrder(ps: seq<Stored>) { forall i, j | 0 <= i < j < |ps| :: Before(ps[i], ps[j]) }

  lemma BeforeOrders(a: Stored, b: Stored, c: Stored)
    ensures Before(a, b) || Before(b, a)
    ensures Before(a, b) && Before(b, c) ==> Before(a, c)
  {
    StringLeTotal(a.name, b.name);
    StringLeTotal(a.id, b.id);
    if Before(a, b) && Before(b, c) {
      if a.name == b.name == c.name {
        StringLeTransitive(a.id, b.id, c.id);
      } else if a.name == c.name {
        StringLeAntisymmetric(a.name, b.name);
      } else if a.name != b.name && b.name != c.name {
        StringLeTransitive(a.name, b.name, c.name);
      }
    }
  }

  lemma {:induction false} InsertInOrder(p: Stored, ps: seq<Stored>)
    requires InOrder(ps)
    ensures InOrder(InsertProject(p, ps)) && multiset(InsertProject(p, ps)) == multiset{p} + multiset(ps)
  {
    if ps == [] {
    } else if Before(p, ps[0]) {
      forall j | 0 <= j < |ps| ensures Before(p, ps[j]) { BeforeOrders(p, ps[0], ps[j]); }
    } else {
      var rest := InsertProject(p, ps[1..]);
      InsertInOrder(p, ps[1..]);
      assert ps == [ps[0]] + ps[1..];
      BeforeOrders(p, ps[0], p);
      forall j | 0 <= j < |rest| ensures Before(ps[0], rest[j]) {
        assert rest[j] in multiset(rest);
        if rest[j] != p { assert rest[j] in ps[1..]; }
      }
    }
  }

  /** Projects are stored by name, and by id where names are alike. */
  lemma {:induction false} SortInOrder(ps: seq<Stored>)
    ensures InOrder(SortProjects(ps)) && multiset(SortProjects(ps)) == multiset(ps)
  {
    if ps != [] {
      SortInOrder(ps[1..]);
      InsertInOrder(ps[0], SortProjects(ps[1..]));
      assert ps == [ps[0]] + ps[1..];
    }
  }

  // ---------------------------------------------------------------------------------------
  // Applying a candidate
  // ---------------------------------------------------------------------------------------

  /** A candidate file. */
  datatype Candidate = Candidate(base: nat, products: seq<string>, dependencies: seq<Dependency>)

  /** `apply_snapshot`: the project at one index is rewritten, the projects are sorted, and both
      generations go up; `None` when the registry's own generation would overflow. */
  function Apply(f: File, index: nat, products: seq<string>, dependencies: seq<Dependency>, at: string): Option<File>
    requires index < |f.projects|
  {
    if f.generation == MAX_U64 then None
    else
      Some(File(f.generation + 1, at, SortProjects(f.projects[index := WithCandidate(f.projects[index], products, dependencies, at)])))
  }

  function WithCandidate(p: Stored, products: seq<string>, dependencies: seq<Dependency>, at: string): Stored {
    Stored(p.id, p.name, products, dependencies, p.generation + 1, at)
  }

  /** The project's record with the new lists, one generation on; all else is kept. */
  predicate Advanced(p: Stored, q: Stored, products: seq<string>, dependencies: seq<Dependency>, at: string) {
    && q.id == p.id && q.name == p.name && q.products == products && q.dependencies == dependencies
    && q.generation == p.generation + 1 && q.updatedAt == at
  }

  /** What is written: the registry one generation on, with one record advanced, in order. It is
      refused only where the registry's own generation has no next. */
  lemma AppliedIs(f: File, index: nat, products: seq<string>, dependencies: seq<Dependency>, at: string)
    requires index < |f.projects|
    ensures Apply(f, index, products, dependencies, at) == None <==> f.generation == MAX_U64
    ensures f.generation != MAX_U64 ==>
              var t := Apply(f, index, products, dependencies, at).value;
              && t.generation == f.generation + 1 && t.updatedAt == at && InOrder(t.projects)
              && exists q :: Advanced(f.projects[index], q, products, dependencies, at) && multiset(t.projects) == multiset(f.projects[index := q])
  {
    var q := WithCandidate(f.projects[index], products, dependencies, at);
    assert Advanced(f.projects[index], q, products, dependencies, at);
    SortInOrder(f.projects[index := q]);
  }

  lemma {:induction false} ReadLookup(ps: seq<Stored>, i: nat)
    requires ReadProjects(ps).Some? && i < |ps|
    ensures ps[i].id in ReadProjects(ps).value && ReadProject(ps[i]) == Some(ReadProjects(ps).value[ps[i].id])
  {
    ReadStep(ps);
    if i > 0 {
      ReadLookup(ps[1..], i - 1);
      AddedKeeps(ps[0], ReadProjects(ps[1..]).value, ps[i].id);
    }
  }

  lemma AddedKeeps(p: Stored, m: map<string, Slice>, id: string)
    requires Added(p, Some(m)).Some? && id in m
    ensures id in Added(p, Some(m)).value && Added(p, Some(m)).value[id] == m[id]
  {}

  /** The map with one slice replaced, if the new slice can be read. */
  function Replaced(m: map<string, Slice>, id: string, slice: Option<Slice>): Option<map<string, Slice>> {
    match slice case Some(s) => Some(m[id := s]) case None => None
  }

  lemma ReadStep(ps: seq<Stored>)
    requires ps != []
    ensures ReadProjects(ps) == Added(ps[0], ReadProjects(ps[1..]))
  {}

  lemma ReplacedFirst(p: Stored, updated: Stored, m: Option<map<string, Slice>>)
    requires Added(p, m).Some? && updated.id == p.id
    ensures Added(updated, m) == Replaced(Added(p, m).value, p.id, ReadProject(updated))
  {
    if ReadProject(updated).Some? {
      var old_, new_ := ReadProject(p).value, ReadProject(updated).value;
      assert m.value[p.id := old_][p.id := new_] == m.value[p.id := new_];
    }
  }

  lemma ReplacedLater(p: Stored, id: string, slice: Option<Slice>, m: map<string, Slice>)
    requires Added(p, Some(m)).Some? && id in m
    ensures Added(p, Replaced(m, id, slice)) == Replaced(Added(p, Some(m)).value, id, slice)
  {
    if slice.Some? {
      var own := ReadProject(p).value;
      assert m[id := slice.value][p.id := own] == m[p.id := own][id := slice.value];
    }
  }

  /** Rewriting one project changes its own slice and no other. */
  lemma {:induction false} ReadUpdated(ps: seq<Stored>, i: nat, updated: Stored)
    requires ReadProjects(ps).Some? && i < |ps| && updated.id == ps[i].id
    ensures ReadProjects(ps[i := updated]) == Replaced(ReadProjects(ps).value, updated.id, ReadProject(updated))
  {
    var changed := ps[i := updated];
    ReadStep(ps);
    ReadStep(changed);
    if i == 0 {
      assert changed[1..] == ps[1..];
      ReplacedFirst(ps[0], updated, ReadProjects(ps[1..]));
    } else {
      assert changed[1..] == ps[1..][i - 1 := updated] && changed[0] == ps[0];
      ReadUpdated(ps[1..], i - 1, updated);
      ReadLookup(ps[1..], i - 1);
      ReplacedLater(ps[0], updated.id, ReadProject(updated), ReadProjects(ps[1..]).value);
    }
  }

  /** A registry with a candidate applied reads back as the old one with the project's slice
      replaced and its generation one higher, exactly when no product of the candidate has a
      name that starts with a colon; otherwise the whole registry becomes unreadable. */
  lemma AppliedReads(f: File, index: nat, c: Candidate, at: string, ps: seq<string>, ds: seq<Dependency>, t: File)
    requires Read(f).Some? && index < |f.projects|
    requires Products(c.products) == Some(ps) && Dependencies(c.dependencies) == Some(ds)
    requires OkEdges(f.projects[index].id, c.dependencies, Read(f).value.Keys)
    requires Apply(f, index, ps, ds, at) == Some(t)
    ensures var p := f.projects[index];
            && t.generation == f.generation + 1
            && p.id in Read(f).value && Read(f).value[p.id].name == p.name && Read(f).value[p.id].generation == p.generation
            && Read(t) == Replaced(Read(f).value, p.id, ReadBack(p, c, ps, ds))
  {
    var p := f.projects[index];
    ProjectRead(f, index);
    EdgesKept(c.dependencies, p.id, Read(f).value.Keys);
    StoredTwice(p, c, ps, ds, at);
    WrittenReads(f, index, WithCandidate(p, ps, ds, at), t);
  }

  /** What a project reads back as once a candidate is stored in it. */
  function ReadBack(p: Stored, c: Candidate, ps: seq<string>, ds: seq<Dependency>): Option<Slice> {
    if AnyColonName(c.products) || !NoColonNames(c.dependencies) then None else Some(Slice(p.name, ps, ds, p.generation + 1))
  }

  lemma ProjectRead(f: File, index: nat)
    requires Read(f).Some? && index < |f.projects|
    ensures var p, m := f.projects[index], Read(f).value;
            ReadProject(p).Some? && p.id in m && m[p.id].name == p.name && m[p.id].generation == p.generation
  {
    ReadLookup(f.projects, index);
    NamesKept(f.projects[index]);
  }

  lemma WrittenReads(f: File, index: nat, updated: Stored, t: File)
    requires Read(f).Some? && index < |f.projects| && updated.id == f.projects[index].id
    requires t.projects == SortProjects(f.projects[index := updated])
    requires ReadProject(updated).Some? ==> OkEdges(updated.id, ReadProject(updated).value.dependencies, Read(f).value.Keys)
    ensures Read(t) == Replaced(Read(f).value, updated.id, ReadProject(updated))
  {
    ReadLookup(f.projects, index);
    ReadUpdated(f.projects, index, updated);
    SortReads(f.projects[index := updated]);
    ReadReplaced(f, t, updated.id, ReadProject(updated));
  }

  lemma NamesKept(p: Stored)
    requires ReadProject(p).Some?
    ensures ReadProject(p).value.name == p.name && ReadProject(p).value.generation == p.generation
  {}

  /** What is written into a project reads back as it was meant, or not at all. */
  lemma StoredTwice(p: Stored, c: Candidate, ps: seq<string>, ds: seq<Dependency>, at: string)
    requires ReadProject(p).Some? && Products(c.products) == Some(ps) && Dependencies(c.dependencies) == Some(ds)
    ensures ReadProject(WithCandidate(p, ps, ds, at)) == ReadBack(p, c, ps, ds)
  {
    ProductsTwice(c.products);
    DependenciesTwice(c.dependencies);
    ReadAs(WithCandidate(p, ps, ds, at));
    ReadAs(p);
  }

  /** Reading a project is reading its parts. */
  lemma ReadAs(p: Stored)
    ensures ReadProject(p) ==
            if Products(p.products).Some? && Dependencies(p.dependencies).Some? && ValidId(p.id) && OkName(p.name)
            then Some(Slice(p.name, Products(p.products).value, Dependencies(p.dependencies).value, p.generation)) else None
  {}

  lemma ReadReplaced(f: File, t: File, id: string, slice: Option<Slice>)
    requires Read(f).Some? && id in Read(f).value
    requires ReadProjects(t.projects) == Replaced(Read(f).value, id, slice)
    requires slice.Some? ==> OkEdges(id, slice.value.dependencies, Read(f).value.Keys)
    ensures Read(t) == Replaced(Read(f).value, id, slice)
  {
    if slice.Some? {
      var m := Read(f).value;
      assert m[id := slice.value].Keys == m.Keys;
    }
  }

  /** Normalizing and sorting a candidate's dependencies keeps its edges legal. */
  lemma EdgesKept(ds: seq<Dependency>, id: string, known: set<string>)
    requires Dependencies(ds).Some? && OkEdges(id, ds, known)
    ensures OkEdges(id, Dependencies(ds).value, known)
  {
    ReadUpstreams(ds);
    SortEdges(ReadAll(ds).value, id, known);
  }

  lemma {:induction false} ReadUpstreams(ds: seq<Dependency>)
    requires ReadAll(ds).Some?
    ensures |ReadAll(ds).value| == |ds| && forall i | 0 <= i < |ds| :: ReadAll(ds).value[i].upstream == ds[i].upstream
  {
    if ds != [] { ReadUpstreams(ds[1..]); }
  }

  lemma {:induction false} SortEdges(ds: seq<Dependency>, id: string, known: set<string>)
    requires OkEdges(id, ds, known)
    ensures OkEdges(id, SortDependencies(ds), known)
  {
    if ds != [] {
      assert ds == [ds[0]] + ds[1..];
      forall d | d in ds[1..] ensures d in ds && d.upstream != ds[0].upstream {
        var i :| 0 <= i < |ds[1..]| && ds[1..][i] == d;
        assert ds[i + 1] == d;
      }
      SortEdges(ds[1..], id, known);
      SortedByUpstream(ds[1..]);
      InsertEdges(ds[0], SortDependencies(ds[1..]), id, known);
    }
  }

  lemma {:induction false} InsertEdges(d: Dependency, ds: seq<Dependency>, id: string, known: set<string>)
    requires OkEdges(id, ds, known) && d.upstream != id && d.upstream in known && forall x | x in ds :: x.upstream != d.upstream
    ensures OkEdges(id, InsertDependency(d, ds), known)
    ensures forall x | x in InsertDependency(d, ds) :: x == d || x in ds
  {
    if ds != [] && !StringLe(d.upstream, ds[0].upstream) {
      assert ds == [ds[0]] + ds[1..];
      InsertEdges(d, ds[1..], id, known);
      forall x | x in ds[1..] ensures x.upstream != ds[0].upstream {
        var i :| 0 <= i < |ds[1..]| && ds[1..][i] == x;
        assert ds[i + 1] == x;
      }
    }
  }
}
