/** The order of Rust strings, and sorted sequences of them. */
module Sorting {

  /** The order of `String`: UTF-8 bytes compare as the code points they encode. */
  predicate StringLe(a: string, b: string) {
    a == "" || (b != "" && (a[0] < b[0] || (a[0] == b[0] && StringLe(a[1..], b[1..]))))
  }

  lemma {:induction false} StringLeTotal(a: string, b: string)
    ensures StringLe(a, b) || StringLe(b, a)
  {
    if a != "" && b != "" && a[0] == b[0] { StringLeTotal(a[1..], b[1..]); }
  }

  lemma {:induction false} StringLeAntisymmetric(a: string, b: string)
    requires StringLe(a, b) && StringLe(b, a)
    ensures a == b
  {
    if a != "" && b != "" {
      StringLeAntisymmetric(a[1..], b[1..]);
      assert a == a[..1] + a[1..] && b == b[..1] + b[1..];
    }
  }

  lemma {:induction false} StringLeTransitive(a: string, b: string, c: string)
    requires StringLe(a, b) && StringLe(b, c)
    ensures StringLe(a, c)
  {
    if a != "" && a[0] == b[0] && b[0] == c[0] { StringLeTransitive(a[1..], b[1..], c[1..]); }
  }

  /** Rising without repetition, as a `BTreeSet<String>` iterates. */
  ghost predicate Rising(s: seq<string>) { forall i, j | 0 <= i < j < |s| :: StringLe(s[i], s[j]) && s[i] != s[j] }

  function InsertSet(x: string, s: seq<string>): seq<string> {
    if s == [] then [x] else if x == s[0] then s else if StringLe(x, s[0]) then [x] + s else [s[0]] + InsertSet(x, s[1..])
  }

  /** The elements of a sequence, in order and once each. */
  function ToSet(s: seq<string>): seq<string> { if s == [] then [] else InsertSet(s[0], ToSet(s[1..])) }

  lemma {:induction false} InsertRising(x: string, s: seq<string>)
    requires Rising(s)
    ensures Rising(InsertSet(x, s)) && forall y :: y in InsertSet(x, s) <==> y == x || y in s
  {
    if s == [] || x == s[0] {
    } else if StringLe(x, s[0]) {
      forall j | 0 <= j < |s| ensures StringLe(x, s[j]) && x != s[j] {
        if j > 0 {
          StringLeTransitive(x, s[0], s[j]);
          if x == s[j] { StringLeAntisymmetric(x, s[0]); }
        }
      }
    } else {
      var rest := InsertSet(x, s[1..]);
      InsertRising(x, s[1..]);
      StringLeTotal(x, s[0]);
      assert s == [s[0]] + s[1..];
      forall j | 0 <= j < |rest| ensures StringLe(s[0], rest[j]) && s[0] != rest[j] {
        if rest[j] != x { assert rest[j] in s[1..]; }
      }
    }
  }

  lemma {:induction false} ToSetRising(s: seq<string>)
    ensures Rising(ToSet(s)) && forall y :: y in ToSet(s) <==> y in s
  {
    if s != [] {
      ToSetRising(s[1..]);
      InsertRising(s[0], ToSet(s[1..]));
      assert s == [s[0]] + s[1..];
    }
  }

  /** Collecting what is already a set changes nothing. */
  lemma {:induction false} ToSetOfSet(s: seq<string>)
    requires Rising(s)
    ensures ToSet(s) == s
  {
    if s != [] {
      ToSetOfSet(s[1..]);
      if |s| > 1 { assert StringLe(s[0], s[1]) && s[1..][0] == s[1]; }
      assert s == [s[0]] + s[1..];
    }
  }

  /** Stable insertion sort. */
  function InsertString(x: string, s: seq<string>): seq<string> {
    if s == [] || StringLe(x, s[0]) then [x] + s else [s[0]] + InsertString(x, s[1..])
  }

  function SortStrings(s: seq<string>): seq<string> { if s == [] then [] else InsertString(s[0], SortStrings(s[1..])) }

  ghost predicate Rises(s: seq<string>) { forall i, j | 0 <= i < j < |s| :: StringLe(s[i], s[j]) }

  lemma {:induction false} InsertRises(x: string, s: seq<string>)
    requires Rises(s)
    ensures Rises(InsertString(x, s)) && multiset(InsertString(x, s)) == multiset{x} + multiset(s)
  {
    if s == [] {
    } else if StringLe(x, s[0]) {
      forall j | 0 <= j < |s| ensures StringLe(x, s[j]) {
        if j > 0 { StringLeTransitive(x, s[0], s[j]); }
      }
    } else {
      var rest := InsertString(x, s[1..]);
      InsertRises(x, s[1..]);
      StringLeTotal(x, s[0]);
      assert s == [s[0]] + s[1..];
      forall j | 0 <= j < |rest| ensures StringLe(s[0], rest[j]) {
        assert rest[j] in multiset(rest);
        if rest[j] != x { assert rest[j] in s[1..]; }
      }
    }
  }

  lemma {:induction false} SortRises(s: seq<string>)
    ensures Rises(SortStrings(s)) && multiset(SortStrings(s)) == multiset(s)
  {
    if s != [] {
      SortRises(s[1..]);
      InsertRises(s[0], SortStrings(s[1..]));
      assert s == [s[0]] + s[1..];
    }
  }

  /** Two sorted lists of the same strings are the same list. */
  lemma {:induction false} SortedIsUnique(a: seq<string>, b: seq<string>)
    requires Rises(a) && Rises(b) && multiset(a) == multiset(b)
    ensures a == b
  {
    assert |a| == |multiset(a)| && |b| == |multiset(b)|;
    if a != [] {
      assert a[0] in multiset(b) && b[0] in multiset(a);
      SameLeast(a, b);
      assert a == [a[0]] + a[1..] && b == [b[0]] + b[1..];
      assert multiset(a[1..]) == multiset(a) - multiset{a[0]};
      assert multiset(b[1..]) == multiset(b) - multiset{b[0]};
      SortedIsUnique(a[1..], b[1..]);
    }
  }

  lemma SameLeast(a: seq<string>, b: seq<string>)
    requires Rises(a) && Rises(b) && a != [] && b != [] && a[0] in b && b[0] in a
    ensures a[0] == b[0]
  {
    var i :| 0 <= i < |b| && b[i] == a[0];
    var j :| 0 <= j < |a| && a[j] == b[0];
    if i > 0 && j > 0 { StringLeAntisymmetric(a[0], b[0]); }
  }
}
