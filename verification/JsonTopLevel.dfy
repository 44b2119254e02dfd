/** `top_level`, `skip_value` and `read_value` of `engine/src/jsonline.rs`, and what they return on
    every JSON object of RFC 8259. */
module JsonTopLevel {
  import opened Text
  import opened JsonLine

  /** The scalars the scanner returns; a number keeps its token, not its floating-point value. */
  datatype Scalar = StrValue(text: string) | BoolValue(b: bool) | NumValue(token: string) | NullValue

  predicate IsOpen(c: char) { c == '{' || c == '[' }
  predicate IsClose(c: char) { c == '}' || c == ']' }
  predicate IsNumeric(c: char) { IsDigit(c) || c == '-' || c == '+' || c == '.' || c == 'e' || c == 'E' }
  predicate EndsScalar(c: char) { c == ',' || IsClose(c) }

  // ---------------------------------------------------------------------------------------
  // The scanner
  // ---------------------------------------------------------------------------------------

  /** The first index from `i` on whose character `stops`, or the end of the line. */
  function Until(s: string, i: nat, stops: char -> bool): (j: nat)
    requires i <= |s|
    ensures i <= j <= |s| && (j < |s| ==> stops(s[j]))
    decreases |s| - i
  {
    if i < |s| && !stops(s[i]) then Until(s, i + 1, stops) else i
  }

  const NOT_BLANK: char -> bool := c => !IsWhitespace(c)
  const NOT_NUMERIC: char -> bool := c => !IsNumeric(c)
  const NOT_DIGIT: char -> bool := c => !IsDigit(c)
  const SCALAR_END: char -> bool := c => EndsScalar(c)

  method ScanUntil(s: string, start: nat, stops: char -> bool) returns (j: nat)
    requires start <= |s|
    ensures j == Until(s, start, stops)
  {
    j := start;
    while j < |s| && !stops(s[j])
      invariant start <= j <= |s|
      invariant Until(s, start, stops) == Until(s, j, stops)
    {
      j := j + 1;
    }
  }

  /** What Rust's `f64` parser accepts among the tokens made of numeric characters. */
  predicate F64Accepts(t: string) {
    F64Unsigned(t, if t != "" && (t[0] == '+' || t[0] == '-') then 1 else 0)
  }

  predicate F64Unsigned(t: string, a0: nat)
    requires a0 <= |t|
  {
    var a := Until(t, a0, NOT_DIGIT);
    var dot := a < |t| && t[a] == '.';
    var b := if dot then Until(t, a + 1, NOT_DIGIT) else a;
    && (a > a0 || (dot && b > a + 1))
    && (b == |t| || ((t[b] == 'e' || t[b] == 'E') && F64Exponent(t, b + 1)))
  }

  predicate F64Exponent(t: string, i: nat)
    requires i <= |t|
  {
    var c := if i < |t| && (t[i] == '+' || t[i] == '-') then i + 1 else i;
    c < |t| && Until(t, c, NOT_DIGIT) == |t|
  }

  /** `match_lit`. */
  method MatchLit(chars: string, start: nat, lit: string) returns (ok: bool)
    ensures ok <==> At(chars, start, lit)
  {
    if start + |lit| > |chars| { return false; }
    var k := 0;
    while k < |lit|
      invariant k <= |lit|
      invariant forall m {:trigger lit[m]} | 0 <= m < k :: chars[start + m] == lit[m]
    {
      if chars[start + k] != lit[k] { return false; }
      k := k + 1;
    }
    return true;
  }

  /** The scalar at index `i`. */
  function ScalarAt(s: string, i: nat): Option<Scalar> {
    if i >= |s| then None
    else if s[i] == '"' then
      match ScanString(s, i + 1) case None => None case Some((text, _)) => Some(StrValue(text))
    else if s[i] == 't' then (if At(s, i, "true") then Some(BoolValue(true)) else None)
    else if s[i] == 'f' then (if At(s, i, "false") then Some(BoolValue(false)) else None)
    else if s[i] == 'n' then (if At(s, i, "null") then Some(NullValue) else None)
    else if s[i] == '-' || IsDigit(s[i]) then
      var token := s[i..Until(s, i, NOT_NUMERIC)];
      if F64Accepts(token) then Some(NumValue(token)) else None
    else None
  }

  /** `read_value`. */
  method ReadValue(chars: string, start: nat) returns (r: Option<Scalar>)
    ensures r == ScalarAt(chars, start)
  {
    if start >= |chars| { return None; }
    var c := chars[start];
    if c == '"' {
      var text := ReadString(chars, start);
      return match text case None => None case Some((t, _)) => Some(StrValue(t));
    } else if c == 't' {
      var ok := MatchLit(chars, start, "true");
      return if ok then Some(BoolValue(true)) else None;
    } else if c == 'f' {
      var ok := MatchLit(chars, start, "false");
      return if ok then Some(BoolValue(false)) else None;
    } else if c == 'n' {
      var ok := MatchLit(chars, start, "null");
      return if ok then Some(NullValue) else None;
    } else if c == '-' || IsDigit(c) {
      var j := ScanUntil(chars, start, NOT_NUMERIC);
      var token := chars[start..j];
      return if F64Accepts(token) then Some(NumValue(token)) else None;
    }
    return None;
  }

  /** The end of the compound value being scanned at index `i`, `depth` brackets deep. */
  function SkipFrom(s: string, i: nat, depth: int): (r: Option<nat>)
    ensures r.Some? ==> i < r.value <= |s|
    decreases |s| - i
  {
    if i >= |s| then None
    else if s[i] == '"' then
      match ScanString(s, i + 1) case None => None case Some((_, next)) => SkipFrom(s, next, depth)
    else if IsOpen(s[i]) then SkipFrom(s, i + 1, depth + 1)
    else if IsClose(s[i]) then (if depth - 1 == 0 then Some(i + 1) else SkipFrom(s, i + 1, depth - 1))
    else SkipFrom(s, i + 1, depth)
  }

  /** The index just past the value at index `i`. */
  function ValueEnd(s: string, i: nat): (r: Option<nat>)
    ensures r.Some? ==> i <= r.value <= |s|
  {
    if i >= |s| then None
    else if s[i] == '"' then
      match ScanString(s, i + 1) case None => None case Some((_, next)) => Some(next)
    else if IsOpen(s[i]) then SkipFrom(s, i, 0)
    else Some(Until(s, i, SCALAR_END))
  }

  /** `skip_value`. */
  method SkipValue(chars: string, start: nat) returns (r: Option<nat>)
    ensures r == ValueEnd(chars, start)
  {
    var n := |chars|;
    if start >= n { return None; }
    if chars[start] == '"' {
      var text := ReadString(chars, start);
      return match text case None => None case Some((_, next)) => Some(next);
    }
    if !IsOpen(chars[start]) {
      var end := ScanUntil(chars, start, SCALAR_END);
      return Some(end);
    }
    var depth := 0;
    var i := start;
    while i < n
      invariant start <= i
      invariant SkipFrom(chars, start, 0) == SkipFrom(chars, i, depth)
      decreases n - i
    {
      if chars[i] == '"' {
        var text := ReadString(chars, i);
        if text.None? { return None; }
        i := text.value.1;
        continue;
      } else if IsOpen(chars[i]) {
        depth := depth + 1;
      } else if IsClose(chars[i]) {
        depth := depth - 1;
        if depth == 0 { return Some(i + 1); }
      }
      i := i + 1;
    }
    return None;
  }

  /** What scanning a root object from index `i`, `depth` brackets deep, returns for `key`. */
  function TopFrom(s: string, i: nat, depth: int, key: string): Option<Scalar>
    decreases |s| - i
  {
    if i >= |s| then None
    else if s[i] == '"' then
      match ScanString(s, i + 1)
      case None => None
      case Some((name, next)) =>
        var j := Until(s, next, NOT_BLANK);
        if depth == 1 && j < |s| && s[j] == ':' then
          var v := Until(s, j + 1, NOT_BLANK);
          if name == key then ScalarAt(s, v)
          else match ValueEnd(s, v) case None => None case Some(end) => TopFrom(s, end, depth, key)
        else TopFrom(s, next + 1, depth, key)
    else if IsOpen(s[i]) then TopFrom(s, i + 1, depth + 1, key)
    else if IsClose(s[i]) then (if depth - 1 <= 0 then None else TopFrom(s, i + 1, depth - 1, key))
    else TopFrom(s, i + 1, depth, key)
  }

  function TopLevelOf(line: string, key: string): Option<Scalar> {
    var s := Trim(line);
    if s == "" || s[0] != '{' then None else TopFrom(s, 1, 1, key)
  }

  /** `top_level`. */
  method TopLevel(line: string, key: string) returns (r: Option<Scalar>)
    ensures r == TopLevelOf(line, key)
  {
    var chars := Trim(line);
    var n := |chars|;
    if n == 0 || chars[0] != '{' { return None; }
    ghost var whole := TopFrom(chars, 1, 1, key);
    var i := 1;
    var depth := 1;
    while i < n
      invariant 1 <= i && whole == TopFrom(chars, i, depth, key)
      decreases n - i
    {
      var c := chars[i];
      if c == '"' {
        var text := ReadString(chars, i);
        if text.None? { return None; }
        i := text.value.1;
        if depth == 1 {
          var j := ScanUntil(chars, i, NOT_BLANK);
          if j < n && chars[j] == ':' {
            j := ScanUntil(chars, j + 1, NOT_BLANK);
            if text.value.0 == key {
              r := ReadValue(chars, j);
              return;
            }
            var end := SkipValue(chars, j);
            if end.None? { return None; }
            i := end.value;
            continue;
          }
        }
      } else if IsOpen(c) {
        depth := depth + 1;
      } else if IsClose(c) {
        depth := depth - 1;
        if depth <= 0 { break; }
      }
      i := i + 1;
    }
    return None;
  }

  // ---------------------------------------------------------------------------------------
  // JSON values as they are written (RFC 8259 sections 2 to 6)
  // ---------------------------------------------------------------------------------------

  datatype Exponent = Exponent(mark: char, sign: string, digits: string)

  datatype Number = Number(sign: string, whole: string, fraction: string, exponent: Option<Exponent>)

  datatype Value =
    | Str(p: Spelling)
    | True
    | False
    | Null
    | Num(n: Number)
    | Arr(lead: string, elems: Elems)
    | Obj(lead: string, members: Members)

  /** Elements and members carry the white space written around them. */
  datatype Elems = NoElems | Elem(w0: string, v: Value, w1: string, rest: Elems)

  datatype Members =
    | NoMembers
    | Member(w0: string, name: Spelling, w1: string, w2: string, v: Value, w3: string, rest: Members)

  predicate Digits(t: string) { forall c | c in t :: IsDigit(c) }

  predicate WellExponent(e: Exponent) {
    && (e.mark == 'e' || e.mark == 'E')
    && (e.sign == "" || e.sign == "+" || e.sign == "-")
    && e.digits != "" && Digits(e.digits)
  }

  /** Section 6, except that leading zeros are also allowed. */
  predicate WellNumber(n: Number) {
    && (n.sign == "" || n.sign == "-")
    && n.whole != "" && Digits(n.whole)
    && Digits(n.fraction)
    && (n.exponent.Some? ==> WellExponent(n.exponent.value))
  }

  predicate Well(v: Value) {
    match v
    case Str(p) => WellSpelled(p)
    case Num(n) => WellNumber(n)
    case Arr(lead, elems) => Blank(lead) && WellElems(elems)
    case Obj(lead, members) => Blank(lead) && WellMembers(members)
    case _ => true
  }

  predicate WellElems(es: Elems) {
    match es
    case NoElems => true
    case Elem(w0, v, w1, rest) => Blank(w0) && Well(v) && Blank(w1) && WellElems(rest)
  }

  predicate WellMembers(ms: Members) {
    match ms
    case NoMembers => true
    case Member(w0, name, w1, w2, v, w3, rest) =>
      Blank(w0) && WellSpelled(name) && Blank(w1) && Blank(w2) && Well(v) && Blank(w3) && WellMembers(rest)
  }

  function PrintExponent(e: Option<Exponent>): string {
    match e case None => "" case Some(x) => [x.mark] + (x.sign + x.digits)
  }

  function PrintFraction(f: string): string { if f == "" then "" else "." + f }

  function PrintNumber(n: Number): string {
    n.sign + (n.whole + (PrintFraction(n.fraction) + PrintExponent(n.exponent)))
  }

  function Print(v: Value): string
    decreases v, 0
  {
    match v
    case Str(p) => "\"" + Body(p)
    case True => "true"
    case False => "false"
    case Null => "null"
    case Num(n) => PrintNumber(n)
    case Arr(lead, elems) => "[" + (lead + PrintElems(elems))
    case Obj(lead, members) => "{" + (lead + PrintMembers(members))
  }

  /** The elements and the closing bracket. */
  function PrintElems(es: Elems): string
    decreases es, 0
  {
    match es
    case NoElems => "]"
    case Elem(w0, v, w1, rest) =>
      w0 + (Print(v) + (w1 + (if rest.NoElems? then "]" else "," + PrintElems(rest))))
  }

  /** The members and the closing brace. */
  function PrintMembers(ms: Members): string
    decreases ms, 0
  {
    match ms
    case NoMembers => "}"
    case Member(w0, name, w1, w2, v, w3, rest) =>
      w0 + ("\"" + (Body(name) + (w1 + (":" + (w2 + (Print(v) + (w3 + MoreMembers(rest))))))))
  }

  function MoreMembers(ms: Members): string
    decreases ms, 1
  {
    if ms.NoMembers? then "}" else "," + PrintMembers(ms)
  }

  /** What the scanner is asked for: the first member of that name, when it is a scalar. */
  function Lookup(ms: Members, key: string): Option<Scalar>
    requires WellMembers(ms)
  {
    match ms
    case NoMembers => None
    case Member(_, name, _, _, v, _, rest) => if Meaning(name) == key then ScalarOf(v) else Lookup(rest, key)
  }

  function ScalarOf(v: Value): Option<Scalar>
    requires Well(v)
  {
    match v
    case Str(p) => Some(StrValue(Meaning(p)))
    case True => Some(BoolValue(true))
    case False => Some(BoolValue(false))
    case Null => Some(NullValue)
    case Num(n) => Some(NumValue(PrintNumber(n)))
    case Arr(_, _) => None
    case Obj(_, _) => None
  }

  // ---------------------------------------------------------------------------------------
  // Skipping stops exactly at the end of any value
  // ---------------------------------------------------------------------------------------

  /** Text without quotes or brackets, which no scanning depends on. */
  predicate Inert(w: string) { forall c | c in w :: c != '"' && !IsOpen(c) && !IsClose(c) }

  lemma {:induction false} SkipInert(s: string, i: nat, w: string, depth: int)
    requires At(s, i, w) && Inert(w)
    ensures SkipFrom(s, i, depth) == SkipFrom(s, i + |w|, depth)
    decreases |w|
  {
    if w != "" {
      AtTail(s, i, w);
      SkipInert(s, i + 1, w[1..], depth);
    }
  }

  lemma SkipBlank(s: string, i: nat, w: string, depth: int)
    requires At(s, i, w) && Blank(w)
    ensures SkipFrom(s, i, depth) == SkipFrom(s, i + |w|, depth)
  {
    SkipInert(s, i, w, depth);
  }

  function AfterClose(s: string, i: nat, depth: int): Option<nat> {
    if depth == 0 then Some(i) else SkipFrom(s, i, depth)
  }

  lemma At1(s: string, i: nat, c: char, rest: string)
    requires At(s, i, [c] + rest)
    ensures i < |s| && s[i] == c && At(s, i + 1, rest)
  {
    AtConcat(s, i, [c], rest);
    assert [c][0] == s[i];
  }

  lemma NumberChars(n: Number)
    requires WellNumber(n)
    ensures PrintNumber(n) != "" && Inert(PrintNumber(n))
    ensures forall c | c in PrintNumber(n) :: IsNumeric(c)
    ensures PrintNumber(n)[0] == '-' || IsDigit(PrintNumber(n)[0])
  {
    assert n.whole[0] in n.whole;
  }

  lemma {:induction false} PassScalar(s: string, i: nat, v: Value, depth: int)
    requires Well(v) && !v.Arr? && !v.Obj? && At(s, i, Print(v))
    ensures SkipFrom(s, i, depth) == SkipFrom(s, i + |Print(v)|, depth)
  {
    match v
    case Str(p) =>
      At1(s, i, '"', Body(p));
      ScanReadsMeaning(s, i + 1, p);
    case Num(n) =>
      NumberChars(n);
      SkipInert(s, i, Print(v), depth);
    case _ =>
      SkipInert(s, i, Print(v), depth);
  }

  /** A bracketed value opens one level and closes it again at its own end. */
  lemma {:induction false} PassCompound(s: string, i: nat, v: Value, depth: nat)
    requires Well(v) && (v.Arr? || v.Obj?) && At(s, i, Print(v))
    ensures SkipFrom(s, i, depth) == AfterClose(s, i + |Print(v)|, depth)
    decreases v, 1
  {
    match v
    case Arr(lead, elems) =>
      At1(s, i, '[', lead + PrintElems(elems));
      AtConcat(s, i + 1, lead, PrintElems(elems));
      SkipBlank(s, i + 1, lead, depth + 1);
      PassElems(s, i + 1 + |lead|, elems, depth + 1);
    case Obj(lead, members) =>
      At1(s, i, '{', lead + PrintMembers(members));
      AtConcat(s, i + 1, lead, PrintMembers(members));
      SkipBlank(s, i + 1, lead, depth + 1);
      PassMembers(s, i + 1 + |lead|, members, depth + 1);
  }

  lemma {:induction false} PassValue(s: string, i: nat, v: Value, depth: nat)
    requires Well(v) && At(s, i, Print(v)) && depth > 0
    ensures SkipFrom(s, i, depth) == SkipFrom(s, i + |Print(v)|, depth)
    decreases v, 2
  {
    if v.Arr? || v.Obj? {
      PassCompound(s, i, v, depth);
    } else {
      PassScalar(s, i, v, depth);
    }
  }

  lemma {:induction false} PassElems(s: string, i: nat, es: Elems, depth: nat)
    requires WellElems(es) && At(s, i, PrintElems(es)) && depth > 0
    ensures SkipFrom(s, i, depth) == AfterClose(s, i + |PrintElems(es)|, depth - 1)
    decreases es, 0
  {
    match es
    case NoElems =>
      assert PrintElems(es)[0] == s[i];
    case Elem(w0, v, w1, rest) =>
      var i1, i2, i3 := ElemAt(s, i, es);
      SkipBlank(s, i, w0, depth);
      PassValue(s, i1, v, depth);
      SkipBlank(s, i2, w1, depth);
      if !rest.NoElems? { PassElems(s, i3 + 1, rest, depth); }
  }

  /** Where the parts of an element lie. */
  lemma ElemAt(s: string, i: nat, es: Elems) returns (i1: nat, i2: nat, i3: nat)
    requires es.Elem? && WellElems(es) && At(s, i, PrintElems(es))
    ensures i1 == i + |es.w0| && At(s, i, es.w0) && i2 == i1 + |Print(es.v)| && At(s, i1, Print(es.v)) && i3 == i2 + |es.w1| && At(s, i2, es.w1)
    ensures i3 < |s| && s[i3] == (if es.rest.NoElems? then ']' else ',')
    ensures if es.rest.NoElems? then i3 + 1 == i + |PrintElems(es)|
            else At(s, i3 + 1, PrintElems(es.rest)) && i3 + 1 + |PrintElems(es.rest)| == i + |PrintElems(es)|
  {
    var more := if es.rest.NoElems? then "]" else "," + PrintElems(es.rest);
    i1, i2, i3 := i + |es.w0|, i + |es.w0| + |Print(es.v)|, i + |es.w0| + |Print(es.v)| + |es.w1|;
    ElemParts(s, i, es, more);
    if es.rest.NoElems? {
      OneChar(s, i3, ']');
    } else {
      At1(s, i3, ',', PrintElems(es.rest));
    }
  }

  lemma ElemParts(s: string, i: nat, es: Elems, more: string)
    requires es.Elem? && WellElems(es) && At(s, i, PrintElems(es)) && more == if es.rest.NoElems? then "]" else "," + PrintElems(es.rest)
    ensures At(s, i, es.w0) && At(s, i + |es.w0|, Print(es.v)) && At(s, i + |es.w0| + |Print(es.v)|, es.w1)
    ensures At(s, i + |es.w0| + |Print(es.v)| + |es.w1|, more)
    ensures |PrintElems(es)| == |es.w0| + |Print(es.v)| + |es.w1| + |more|
  {
    ThreeParts(s, i, es.w0, Print(es.v), es.w1, more);
  }

  lemma ThreeParts(s: string, i: nat, a: string, b: string, c: string, more: string)
    requires At(s, i, a + (b + (c + more)))
    ensures At(s, i, a) && At(s, i + |a|, b) && At(s, i + |a| + |b|, c) && At(s, i + |a| + |b| + |c|, more)
  {
    AtConcat(s, i, a, b + (c + more));
    AtConcat(s, i + |a|, b, c + more);
    AtConcat(s, i + |a| + |b|, c, more);
  }

  lemma {:induction false} PassMembers(s: string, i: nat, ms: Members, depth: nat)
    requires WellMembers(ms) && At(s, i, PrintMembers(ms)) && depth > 0
    ensures SkipFrom(s, i, depth) == AfterClose(s, i + |PrintMembers(ms)|, depth - 1)
    decreases ms, 0
  {
    match ms
    case NoMembers =>
      assert PrintMembers(ms)[0] == s[i];
    case Member(w0, name, w1, w2, v, w3, rest) =>
      var m := MemberAt(s, i, ms);
      PassName(s, i, ms, m, depth);
      PassValue(s, m.value, v, depth);
      SkipBlank(s, m.tail, w3, depth);
      MoreStarts(s, m.next, rest);
      SkipNext(s, m.next, depth);
      if rest.NoMembers? {
        assert m.next + 1 == i + |PrintMembers(ms)|;
      } else {
        PassMembers(s, m.next + 1, rest, depth);
        assert m.next + 1 + |PrintMembers(rest)| == i + |PrintMembers(ms)|;
      }
  }

  lemma SkipNext(s: string, i: nat, depth: nat)
    requires i < |s| && (s[i] == '}' || s[i] == ',') && depth > 0
    ensures SkipFrom(s, i, depth) == if s[i] == '}' then AfterClose(s, i + 1, depth - 1) else SkipFrom(s, i + 1, depth)
  {}

  lemma {:induction false} PassName(s: string, i: nat, ms: Members, m: Layout, depth: nat)
    requires ms.Member? && WellMembers(ms) && LaidOut(s, i, ms, m)
    ensures SkipFrom(s, i, depth) == SkipFrom(s, m.value, depth)
  {
    SkipBlank(s, i, ms.w0, depth);
    NameSkips(s, i, ms, m, depth);
    SkipBlank(s, m.gap, ms.w1, depth);
    ColonSkips(s, m.colon, depth);
    SkipBlank(s, m.colon + 1, ms.w2, depth);
  }

  lemma NameSkips(s: string, i: nat, ms: Members, m: Layout, depth: nat)
    requires ms.Member? && WellMembers(ms) && LaidOut(s, i, ms, m)
    ensures SkipFrom(s, m.name - 1, depth) == SkipFrom(s, m.gap, depth)
  {
    ScanReadsMeaning(s, m.name, ms.name);
  }

  lemma ColonSkips(s: string, i: nat, depth: nat)
    requires i < |s| && s[i] == ':'
    ensures SkipFrom(s, i, depth) == SkipFrom(s, i + 1, depth)
  {}

  /** Where the parts of a printed member lie. */
  datatype Layout = Layout(name: nat, gap: nat, colon: nat, value: nat, tail: nat, next: nat)

  predicate LaidOut(s: string, i: nat, ms: Members, m: Layout)
    requires ms.Member?
  {
    && At(s, i, ms.w0) && m.name == i + |ms.w0| + 1
    && m.name - 1 < |s| && s[m.name - 1] == '"' && At(s, m.name, Body(ms.name))
    && m.gap == m.name + |Body(ms.name)| && At(s, m.gap, ms.w1)
    && m.colon == m.gap + |ms.w1| && m.colon < |s| && s[m.colon] == ':'
    && At(s, m.colon + 1, ms.w2) && m.value == m.colon + 1 + |ms.w2| && At(s, m.value, Print(ms.v))
    && m.tail == m.value + |Print(ms.v)| && At(s, m.tail, ms.w3)
    && m.next == m.tail + |ms.w3| && At(s, m.next, MoreMembers(ms.rest))
  }

  lemma {:induction false} MemberAt(s: string, i: nat, ms: Members) returns (m: Layout)
    requires ms.Member? && At(s, i, PrintMembers(ms))
    ensures LaidOut(s, i, ms, m)
    ensures i + |PrintMembers(ms)| == m.next + |MoreMembers(ms.rest)|
  {
    var Member(w0, name, w1, w2, v, w3, rest) := ms;
    var t4 := w3 + MoreMembers(rest);
    var t3 := w2 + (Print(v) + t4);
    var t2 := w1 + (":" + t3);
    var t1 := Body(name) + t2;
    AtConcat(s, i, w0, "\"" + t1);
    At1(s, i + |w0|, '"', t1);
    var a := i + |w0| + 1;
    AtConcat(s, a, Body(name), t2);
    var b := a + |Body(name)|;
    AtConcat(s, b, w1, ":" + t3);
    var c := b + |w1|;
    At1(s, c, ':', t3);
    AtConcat(s, c + 1, w2, Print(v) + t4);
    var d := c + 1 + |w2|;
    AtConcat(s, d, Print(v), t4);
    var e := d + |Print(v)|;
    AtConcat(s, e, w3, MoreMembers(rest));
    m := Layout(a, b, c, d, e, e + |w3|);
  }

  // ---------------------------------------------------------------------------------------
  // Reading and skipping one value
  // ---------------------------------------------------------------------------------------

  lemma {:induction false} UntilPasses(s: string, i: nat, w: string, stops: char -> bool)
    requires At(s, i, w) && forall c | c in w :: !stops(c)
    ensures Until(s, i, stops) == Until(s, i + |w|, stops)
    decreases |w|
  {
    if w != "" {
      AtTail(s, i, w);
      UntilPasses(s, i + 1, w[1..], stops);
    }
  }

  /** Rust parses every number RFC 8259 allows. */
  lemma NumberParses(n: Number)
    requires WellNumber(n)
    ensures F64Accepts(PrintNumber(n))
  {
    var t := PrintNumber(n);
    var more := PrintFraction(n.fraction) + PrintExponent(n.exponent);
    AtConcat(t, 0, n.sign, n.whole + more);
    assert IsDigit(n.whole[0]) && (n.sign == "" ==> t[0] == n.whole[0]) by { AtTail(n.whole, 0, n.whole); }
    UnsignedParses(t, |n.sign|, n);
  }

  lemma UnsignedParses(t: string, a0: nat, n: Number)
    requires WellNumber(n)
    requires At(t, a0, n.whole + (PrintFraction(n.fraction) + PrintExponent(n.exponent)))
    requires a0 + |n.whole| + |PrintFraction(n.fraction)| + |PrintExponent(n.exponent)| == |t|
    ensures F64Unsigned(t, a0)
  {
    AtConcat(t, a0, n.whole, PrintFraction(n.fraction) + PrintExponent(n.exponent));
    WholeParses(t, a0, n.whole);
    FractionParses(t, a0 + |n.whole|, n);
  }

  lemma WholeParses(t: string, a0: nat, whole: string)
    requires whole != "" && Digits(whole) && At(t, a0, whole)
    ensures Until(t, a0, NOT_DIGIT) == Until(t, a0 + |whole|, NOT_DIGIT)
    ensures a0 < |t| && IsDigit(t[a0])
  {
    AtTail(t, a0, whole);
    UntilPasses(t, a0, whole, NOT_DIGIT);
  }

  lemma FractionParses(t: string, a: nat, n: Number)
    requires WellNumber(n)
    requires At(t, a, PrintFraction(n.fraction) + PrintExponent(n.exponent))
    requires a + |PrintFraction(n.fraction)| + |PrintExponent(n.exponent)| == |t|
    ensures Until(t, a, NOT_DIGIT) == a
    ensures var dot := a < |t| && t[a] == '.';
            var b := if dot then Until(t, a + 1, NOT_DIGIT) else a;
            b == |t| || ((t[b] == 'e' || t[b] == 'E') && F64Exponent(t, b + 1))
  {
    AtConcat(t, a, PrintFraction(n.fraction), PrintExponent(n.exponent));
    var b := a + |PrintFraction(n.fraction)|;
    if n.exponent.Some? {
      ExponentParses(t, b, n.exponent.value);
    }
    if n.fraction != "" {
      At1(t, a, '.', n.fraction);
      UntilPasses(t, a + 1, n.fraction, NOT_DIGIT);
    }
  }

  lemma ExponentParses(t: string, b: nat, e: Exponent)
    requires WellExponent(e) && At(t, b, PrintExponent(Some(e))) && b + |PrintExponent(Some(e))| == |t|
    ensures b < |t| && t[b] == e.mark && F64Exponent(t, b + 1)
  {
    At1(t, b, e.mark, e.sign + e.digits);
    AtConcat(t, b + 1, e.sign, e.digits);
    var c := b + 1 + |e.sign|;
    assert e.digits[0] in e.digits && e.digits[0] == t[c];
    if e.sign != "" { assert e.sign[0] == t[b + 1]; }
    UntilPasses(t, c, e.digits, NOT_DIGIT);
  }

  /** What follows a value in an object: white space, then a comma or the closing brace. */
  predicate Delimited(s: string, i: nat, w: string) {
    At(s, i, w) && Blank(w) && i + |w| < |s| && EndsScalar(s[i + |w|])
  }

  lemma {:induction false} NumberAt(s: string, i: nat, n: Number, w: string)
    requires WellNumber(n) && At(s, i, PrintNumber(n)) && Delimited(s, i + |PrintNumber(n)|, w)
    ensures ScalarAt(s, i) == Some(NumValue(PrintNumber(n)))
  {
    var t := PrintNumber(n);
    NumberEnds(s, i, n, w);
    assert s[i..i + |t|] == t;
    NumberFirst(s, i, n);
    NumberParses(n);
  }

  lemma NumberEnds(s: string, i: nat, n: Number, w: string)
    requires WellNumber(n) && At(s, i, PrintNumber(n)) && Delimited(s, i + |PrintNumber(n)|, w)
    ensures Until(s, i, NOT_NUMERIC) == i + |PrintNumber(n)|
  {
    var t := PrintNumber(n);
    NumberChars(n);
    UntilPasses(s, i, t, NOT_NUMERIC);
    if w != "" { AtTail(s, i + |t|, w); }
  }

  lemma NumberFirst(s: string, i: nat, n: Number)
    requires WellNumber(n) && At(s, i, PrintNumber(n))
    ensures PrintNumber(n) != "" && i < |s| && (s[i] == '-' || IsDigit(s[i]))
  {
    NumberChars(n);
    AtTail(s, i, PrintNumber(n));
  }

  /** `read_value` returns the value when it is a scalar and nothing when it is not. */
  lemma {:induction false} ReadsScalar(s: string, i: nat, v: Value, w: string)
    requires Well(v) && At(s, i, Print(v)) && Delimited(s, i + |Print(v)|, w)
    ensures ScalarAt(s, i) == ScalarOf(v)
  {
    match v
    case Str(p) =>
      At1(s, i, '"', Body(p));
      ScanReadsMeaning(s, i + 1, p);
    case Num(n) => NumberAt(s, i, n, w);
    case True => assert "true"[0] == s[i];
    case False => assert "false"[0] == s[i];
    case Null => assert "null"[0] == s[i];
    case Arr(lead, elems) => At1(s, i, '[', lead + PrintElems(elems));
    case Obj(lead, members) => At1(s, i, '{', lead + PrintMembers(members));
  }

  predicate BareToken(t: string) {
    t != "" && t[0] != '"' && !IsOpen(t[0]) && forall c | c in t :: !EndsScalar(c)
  }

  lemma {:induction false} SkipsBare(s: string, i: nat, t: string, w: string)
    requires BareToken(t) && At(s, i, t) && Delimited(s, i + |t|, w)
    ensures ValueEnd(s, i) == Some(i + |t| + |w|)
  {
    assert t[0] == s[i];
    UntilPasses(s, i, t, SCALAR_END);
    UntilPasses(s, i + |t|, w, SCALAR_END);
  }

  /** `skip_value` stops at the end of the value, or of the white space after a bare scalar. */
  lemma {:induction false} SkipsValue(s: string, i: nat, v: Value, w: string)
    requires Well(v) && At(s, i, Print(v)) && Delimited(s, i + |Print(v)|, w)
    ensures var end := i + |Print(v)|; ValueEnd(s, i) == Some(end) || ValueEnd(s, i) == Some(end + |w|)
  {
    match v
    case Str(p) => SkipsString(s, i, p);
    case Arr(_, _) => SkipsCompound(s, i, v);
    case Obj(_, _) => SkipsCompound(s, i, v);
    case Num(n) =>
      NumberChars(n);
      SkipsBare(s, i, Print(v), w);
    case _ => SkipsBare(s, i, Print(v), w);
  }

  lemma SkipsString(s: string, i: nat, p: Spelling)
    requires Well(Str(p)) && At(s, i, Print(Str(p)))
    ensures ValueEnd(s, i) == Some(i + |Print(Str(p))|)
  {
    At1(s, i, '"', Body(p));
    ScanReadsMeaning(s, i + 1, p);
  }

  lemma SkipsCompound(s: string, i: nat, v: Value)
    requires Well(v) && (v.Arr? || v.Obj?) && At(s, i, Print(v))
    ensures ValueEnd(s, i) == Some(i + |Print(v)|)
  {
    PassCompound(s, i, v, 0);
    match v
    case Arr(lead, elems) => At1(s, i, '[', lead + PrintElems(elems));
    case Obj(lead, members) => At1(s, i, '{', lead + PrintMembers(members));
  }

  // ---------------------------------------------------------------------------------------
  // Looking a key up in the root object
  // ---------------------------------------------------------------------------------------

  lemma {:induction false} TopInert(s: string, i: nat, w: string, key: string)
    requires At(s, i, w) && Inert(w)
    ensures TopFrom(s, i, 1, key) == TopFrom(s, i + |w|, 1, key)
    decreases |w|
  {
    if w != "" {
      AtTail(s, i, w);
      TopInert(s, i + 1, w[1..], key);
    }
  }

  lemma {:induction false} UntilStops(s: string, i: nat, w: string)
    requires At(s, i, w) && Blank(w) && i + |w| < |s| && !IsWhitespace(s[i + |w|])
    ensures Until(s, i, NOT_BLANK) == i + |w|
  {
    UntilPasses(s, i, w, NOT_BLANK);
  }

  /** Standing at the opening quote of a member's name. */
  lemma {:induction false} TopName(s: string, i: nat, ms: Members, m: Layout, key: string)
    requires ms.Member? && WellMembers(ms) && LaidOut(s, i, ms, m)
    ensures TopFrom(s, m.name - 1, 1, key) ==
            if Meaning(ms.name) == key then ScalarAt(s, m.value)
            else match ValueEnd(s, m.value) case None => None case Some(end) => TopFrom(s, end, 1, key)
  {
    NameLies(s, i, ms, m);
  }

  /** Where the name of a member ends, its colon stands and its value starts. */
  lemma NameLies(s: string, i: nat, ms: Members, m: Layout)
    requires ms.Member? && WellMembers(ms) && LaidOut(s, i, ms, m)
    ensures ScanString(s, m.name) == Some((Meaning(ms.name), m.gap))
    ensures Until(s, m.gap, NOT_BLANK) == m.colon && Until(s, m.colon + 1, NOT_BLANK) == m.value
  {
    ScanReadsMeaning(s, m.name, ms.name);
    UntilStops(s, m.gap, ms.w1);
    ValueStarts(s, m.value, ms.v);
    UntilStops(s, m.colon + 1, ms.w2);
  }

  lemma {:induction false} ValueStarts(s: string, i: nat, v: Value)
    requires Well(v) && At(s, i, Print(v))
    ensures Print(v) != "" && i < |s| && !IsWhitespace(s[i])
  {
    if v.Num? { NumberChars(v.n); }
    assert Print(v)[0] == s[i];
  }

  lemma {:induction false} TopMembers(s: string, i: nat, ms: Members, key: string)
    requires WellMembers(ms) && At(s, i, PrintMembers(ms))
    ensures TopFrom(s, i, 1, key) == Lookup(ms, key)
    decreases ms
  {
    match ms
    case NoMembers =>
      assert PrintMembers(ms)[0] == s[i];
    case Member(w0, name, w1, w2, v, w3, rest) =>
      var m := MemberAt(s, i, ms);
      TopMember(s, i, ms, m, key);
      if Meaning(name) != key && !rest.NoMembers? {
        TopMembers(s, m.next + 1, rest, key);
      }
  }

  lemma {:induction false} TopMember(s: string, i: nat, ms: Members, m: Layout, key: string)
    requires ms.Member? && WellMembers(ms) && LaidOut(s, i, ms, m)
    ensures TopFrom(s, i, 1, key) ==
            if Meaning(ms.name) == key then ScalarOf(ms.v)
            else if ms.rest.NoMembers? then None
            else TopFrom(s, m.next + 1, 1, key)
    ensures !ms.rest.NoMembers? ==> At(s, m.next + 1, PrintMembers(ms.rest))
  {
    TopInert(s, i, ms.w0, key);
    MoreStarts(s, m.next, ms.rest);
    if Meaning(ms.name) == key {
      TopHits(s, i, ms, m, key);
    } else {
      TopSkips(s, i, ms, m, key);
      TopNext(s, m.next, key);
    }
  }

  lemma TopNext(s: string, i: nat, key: string)
    requires i < |s| && (s[i] == '}' || s[i] == ',')
    ensures TopFrom(s, i, 1, key) == if s[i] == '}' then None else TopFrom(s, i + 1, 1, key)
  {}

  lemma {:induction false} TopHits(s: string, i: nat, ms: Members, m: Layout, key: string)
    requires ms.Member? && WellMembers(ms) && LaidOut(s, i, ms, m) && Meaning(ms.name) == key
    ensures TopFrom(s, m.name - 1, 1, key) == ScalarOf(ms.v)
  {
    TopName(s, i, ms, m, key);
    ValueIsScalar(s, i, ms, m);
  }

  lemma ValueIsScalar(s: string, i: nat, ms: Members, m: Layout)
    requires ms.Member? && WellMembers(ms) && LaidOut(s, i, ms, m)
    ensures ScalarAt(s, m.value) == ScalarOf(ms.v)
  {
    MoreStarts(s, m.next, ms.rest);
    ReadsScalar(s, m.value, ms.v, ms.w3);
  }

  lemma {:induction false} TopSkips(s: string, i: nat, ms: Members, m: Layout, key: string)
    requires ms.Member? && WellMembers(ms) && LaidOut(s, i, ms, m) && Meaning(ms.name) != key
    ensures TopFrom(s, m.name - 1, 1, key) == TopFrom(s, m.next, 1, key)
  {
    TopName(s, i, ms, m, key);
    ValueIsSkipped(s, i, ms, m);
    TopInert(s, m.tail, ms.w3, key);
  }

  lemma ValueIsSkipped(s: string, i: nat, ms: Members, m: Layout)
    requires ms.Member? && WellMembers(ms) && LaidOut(s, i, ms, m)
    ensures ValueEnd(s, m.value) == Some(m.tail) || ValueEnd(s, m.value) == Some(m.next)
  {
    MoreStarts(s, m.next, ms.rest);
    SkipsValue(s, m.value, ms.v, ms.w3);
  }

  lemma MoreStarts(s: string, i: nat, ms: Members)
    requires At(s, i, MoreMembers(ms))
    ensures i < |s| && s[i] == if ms.NoMembers? then '}' else ','
    ensures !ms.NoMembers? ==> At(s, i + 1, PrintMembers(ms))
    ensures |MoreMembers(ms)| == if ms.NoMembers? then 1 else 1 + |PrintMembers(ms)|
  {
    if ms.NoMembers? {
      assert MoreMembers(ms)[0] == s[i];
    } else {
      At1(s, i, ',', PrintMembers(ms));
    }
  }

  lemma {:induction false} MembersEnd(ms: Members)
    ensures PrintMembers(ms) != "" && PrintMembers(ms)[|PrintMembers(ms)| - 1] == '}'
  {
    if ms.Member? {
      MembersEnd(ms.rest);
    }
  }

  /** On every JSON object, however it is spelled and spaced and whatever follows it on the line,
      `top_level` returns the first member with that name when it is a scalar, and nothing when
      that member is an object or an array or when there is none: no nested key, and no brace,
      bracket or quote inside a string, is ever taken for part of the root object. */
  lemma TopLevelReadsRoot(lead: string, root: Value, after: string, key: string)
    requires Blank(lead) && root.Obj? && Well(root)
    ensures TopLevelOf(lead + Print(root) + after, key) == Lookup(root.members, key)
  {
    TrimmedObject(lead, root, after);
    RootReads(Print(root) + TrimEnd(after), root, key);
  }

  lemma RootReads(s: string, root: Value, key: string)
    requires root.Obj? && Well(root) && At(s, 0, Print(root))
    ensures s != "" && s[0] == '{' && TopFrom(s, 1, 1, key) == Lookup(root.members, key)
  {
    At1(s, 0, '{', root.lead + PrintMembers(root.members));
    AtConcat(s, 1, root.lead, PrintMembers(root.members));
    TopInert(s, 1, root.lead, key);
    TopMembers(s, 1 + |root.lead|, root.members, key);
  }

  lemma {:induction false} TrimmedObject(lead: string, root: Value, after: string)
    requires Blank(lead) && root.Obj?
    ensures Trim(lead + Print(root) + after) == Print(root) + TrimEnd(after)
    ensures At(Print(root) + TrimEnd(after), 0, Print(root))
  {
    var text := Print(root);
    assert text[0] == '{' && text[|text| - 1] == '}' by { MembersEnd(root.members); }
    Assoc(lead, text, after);
    TrimStartBlank(lead, text + after);
    TrimEndKeeps(text, after);
  }
}
