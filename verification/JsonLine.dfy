/** The single-line JSON scanner of `engine/src/jsonline.rs`.

    The scanner is modelled as the source writes it, as loops over an index into the characters of
    the line; each loop is proved against a recursive function of the line and the index. What
    the scanner is for is then proved of those functions, against the grammar of RFC 8259. */
module JsonLine {
  import opened Text

  // ---------------------------------------------------------------------------------------
  // Escapes
  // ---------------------------------------------------------------------------------------

  const REPLACEMENT: char := '\U{FFFD}'

  function HexDigit(c: char): (d: int)
    ensures -1 <= d <= 15
  {
    if '0' <= c <= '9' then c as int - '0' as int
    else if 'a' <= c <= 'f' then c as int - 'a' as int + 10
    else if 'A' <= c <= 'F' then c as int - 'A' as int + 10
    else -1
  }

  /** `u32::from_str_radix(h, 16)` on four characters; Rust accepts a leading plus sign. */
  function FromHex(a: char, b: char, c: char, d: char): (r: Option<nat>)
    ensures r.Some? ==> r.value < 0x1_0000
  {
    var d0 := if a == '+' then 0 else HexDigit(a);
    var d1, d2, d3 := HexDigit(b), HexDigit(c), HexDigit(d);
    if d0 >= 0 && d1 >= 0 && d2 >= 0 && d3 >= 0 then Some(d0 * 4096 + d1 * 256 + d2 * 16 + d3) else None
  }

  predicate IsHigh(u: nat) { 0xD800 <= u <= 0xDBFF }
  predicate IsLow(u: nat) { 0xDC00 <= u <= 0xDFFF }

  /** `char::from_u32(u).unwrap_or('\u{FFFD}')` for one UTF-16 code unit. */
  function UnitChar(u: nat): char
    requires u < 0x1_0000
  {
    if u < 0xD800 || 0xE000 <= u then u as char else REPLACEMENT
  }

  function PairChar(high: nat, low: nat): char
    requires IsHigh(high) && IsLow(low)
  {
    (0x1_0000 + (high - 0xD800) * 0x400 + (low - 0xDC00)) as char
  }

  function ShortEscape(c: char): char {
    match c
    case 'n' => '\n'
    case 't' => '\t'
    case 'r' => '\r'
    case 'b' => '\U{08}'
    case 'f' => '\U{0C}'
    case _ => c
  }

  /** The low surrogate spelled by the escape at index `j`, if there is one. */
  function LowAt(s: string, j: nat): (r: Option<nat>)
    ensures r.Some? ==> IsLow(r.value) && j + 6 <= |s|
  {
    if j + 5 < |s| && s[j] == '\\' && s[j + 1] == 'u' then
      match FromHex(s[j + 2], s[j + 3], s[j + 4], s[j + 5])
      case Some(u) => if IsLow(u) then Some(u) else None
      case None => None
    else None
  }

  /** The escape whose backslash is `s[i]`: its character and the index just past it. */
  function ReadEscape(s: string, i: nat): (r: Option<(char, nat)>)
    requires i < |s|
    ensures r.Some? ==> i < r.value.1 <= |s|
  {
    if i + 1 >= |s| then None
    else if s[i + 1] != 'u' then Some((ShortEscape(s[i + 1]), i + 2))
    else if i + 5 >= |s| then None
    else
      match FromHex(s[i + 2], s[i + 3], s[i + 4], s[i + 5])
      case None => None
      case Some(u) =>
        if IsHigh(u) && LowAt(s, i + 6).Some?
        then Some((PairChar(u, LowAt(s, i + 6).value), i + 12))
        else Some((UnitChar(u), i + 6))
  }

  type Scanned = Option<(string, nat)>

  function Prepend(text: string, r: Scanned): Scanned {
    match r
    case None => None
    case Some((t, j)) => Some((text + t, j))
  }

  lemma PrependLaws(a: string, b: string, r: Scanned)
    ensures Prepend("", r) == r
    ensures Prepend(a, Prepend(b, r)) == Prepend(a + b, r)
    ensures forall j: nat :: Prepend(a, Some(("", j))) == Some((a, j))
  {
    assert a + "" == a;
    if r.Some? {
      assert "" + r.value.0 == r.value.0;
      assert a + (b + r.value.0) == a + b + r.value.0;
    }
  }

  /** The string body that starts at index `i`: its characters and the index past its closing quote. */
  function ScanString(s: string, i: nat): (r: Scanned)
    ensures r.Some? ==> i < r.value.1 <= |s|
    decreases |s| - i
  {
    if i >= |s| then None
    else if s[i] == '"' then Some(("", i + 1))
    else if s[i] == '\\' then
      match ReadEscape(s, i)
      case None => None
      case Some((c, j)) => Prepend([c], ScanString(s, j))
    else Prepend([s[i]], ScanString(s, i + 1))
  }

  /** The `\u` branch of `read_string`, from the index of the `u`: the character pushed and the
      index of the escape's last digit. */
  method ReadUnicodeEscape(chars: string, start: nat) returns (r: Option<(char, nat)>)
    requires 0 < start < |chars| && chars[start - 1] == '\\' && chars[start] == 'u'
    ensures r == match ReadEscape(chars, start - 1) case None => None case Some((c, j)) => Some((c, (j - 1) as nat))
  {
    var i, n := start, |chars|;
    if i + 4 >= n { return None; }
    var cp := FromHex(chars[i + 1], chars[i + 2], chars[i + 3], chars[i + 4]);
    if cp.None? { return None; }
    i := i + 4;
    if !IsHigh(cp.value) { return Some((UnitChar(cp.value), i)); }
    var combined: Option<char> := None;
    if i + 6 < n && chars[i + 1] == '\\' && chars[i + 2] == 'u' {
      var low := FromHex(chars[i + 3], chars[i + 4], chars[i + 5], chars[i + 6]);
      if low.Some? && IsLow(low.value) {
        combined := Some(PairChar(cp.value, low.value));
        i := i + 6;
      }
    }
    return Some((if combined.Some? then combined.value else REPLACEMENT, i));
  }

  /** `read_string`. */
  method ReadString(chars: string, start: nat) returns (r: Scanned)
    requires start < |chars| && chars[start] == '"'
    ensures r == ScanString(chars, start + 1)
  {
    var n := |chars|;
    var i := start + 1;
    var out := "";
    PrependLaws("", "", ScanString(chars, i));
    while i < n
      invariant start + 1 <= i
      invariant ScanString(chars, start + 1) == Prepend(out, ScanString(chars, i))
    {
      var c := chars[i];
      if c == '"' {
        PrependLaws(out, "", None);
        return Some((out, i + 1));
      } else if c == '\\' {
        i := i + 1;
        if i >= n { return None; }
        if chars[i] == 'u' {
          var escape := ReadUnicodeEscape(chars, i);
          if escape.None? { return None; }
          c, i := escape.value.0, escape.value.1;
        } else {
          c := ShortEscape(chars[i]);
        }
      }
      PrependLaws(out, [c], ScanString(chars, i + 1));
      out := out + [c];
      i := i + 1;
    }
    return None;
  }

  // ---------------------------------------------------------------------------------------
  // Strings: what every spelling means
  // ---------------------------------------------------------------------------------------

  /** A JSON string body as it is spelled (RFC 8259 section 7), up to its closing quote: a
      character written as itself, a two-character escape, or a `\u` escape naming one UTF-16
      code unit by four digits. */
  datatype Spelling =
    | End
    | Raw(c: char, rest: Spelling)
    | Short(c: char, rest: Spelling)
    | Unit(h0: char, h1: char, h2: char, h3: char, rest: Spelling)

  function UnitOf(p: Spelling): Option<nat>
    requires p.Unit?
  {
    FromHex(p.h0, p.h1, p.h2, p.h3)
  }

  predicate WellSpelled(p: Spelling) {
    match p
    case End => true
    case Raw(c, rest) => c != '"' && c != '\\' && WellSpelled(rest)
    case Short(c, rest) => c != 'u' && WellSpelled(rest)
    case Unit(_, _, _, _, rest) => UnitOf(p).Some? && WellSpelled(rest)
  }

  /** The body and its closing quote. */
  function Body(p: Spelling): string {
    match p
    case End => "\""
    case Raw(c, rest) => [c] + Body(rest)
    case Short(c, rest) => ['\\', c] + Body(rest)
    case Unit(a, b, c, d, rest) => ['\\', 'u', a, b, c, d] + Body(rest)
  }

  predicate StartsLow(p: Spelling)
    requires WellSpelled(p)
  {
    p.Unit? && IsLow(UnitOf(p).value)
  }

  /** The first character a spelling stands for and what is spelled after it: code units are
      paired as UTF-16, and a surrogate with no partner stands for U+FFFD on its own. */
  function First(p: Spelling): (r: (char, Spelling))
    requires p != End && WellSpelled(p)
    ensures WellSpelled(r.1) && r.1 < p
  {
    match p
    case Raw(c, rest) => (c, rest)
    case Short(c, rest) => (ShortEscape(c), rest)
    case Unit(_, _, _, _, rest) =>
      var u := UnitOf(p).value;
      if IsHigh(u) && StartsLow(rest) then (PairChar(u, UnitOf(rest).value), rest.rest) else (UnitChar(u), rest)
  }

  /** The text a spelling stands for. */
  function Meaning(p: Spelling): string
    requires WellSpelled(p)
    decreases p
  {
    if p == End then "" else [First(p).0] + Meaning(First(p).1)
  }

  lemma AtUnit(s: string, i: nat, p: Spelling)
    requires p.Unit? && At(s, i, Body(p))
    ensures i + 5 < |s| && s[i] == '\\' && s[i + 1] == 'u'
    ensures s[i + 2] == p.h0 && s[i + 3] == p.h1 && s[i + 4] == p.h2 && s[i + 5] == p.h3
    ensures At(s, i + 6, Body(p.rest))
  {
    var x := ['\\', 'u', p.h0, p.h1, p.h2, p.h3];
    AtConcat(s, i, x, Body(p.rest));
    assert x[0] == s[i] && x[1] == s[i + 1] && x[2] == s[i + 2] && x[3] == s[i + 3] && x[4] == s[i + 4] && x[5] == s[i + 5];
  }

  lemma AtShort(s: string, i: nat, p: Spelling)
    requires p.Short? && At(s, i, Body(p))
    ensures i + 1 < |s| && s[i] == '\\' && s[i + 1] == p.c && At(s, i + 2, Body(p.rest))
  {
    var x := ['\\', p.c];
    AtConcat(s, i, x, Body(p.rest));
    assert x[0] == s[i] && x[1] == s[i + 1];
  }

  lemma AtRaw(s: string, i: nat, p: Spelling)
    requires p.Raw? && At(s, i, Body(p))
    ensures i < |s| && s[i] == p.c && At(s, i + 1, Body(p.rest))
  {
    AtConcat(s, i, [p.c], Body(p.rest));
    assert [p.c][0] == s[i];
  }

  lemma AtEnd(s: string, i: nat)
    requires At(s, i, Body(End))
    ensures i < |s| && s[i] == '"'
  {
    assert Body(End)[0] == s[i];
  }

  /** Whether the escape at `i` reads as a low surrogate is decided by the spelling there. */
  lemma {:induction false} LowAtSpelling(s: string, i: nat, p: Spelling)
    requires WellSpelled(p) && At(s, i, Body(p))
    ensures LowAt(s, i) == if StartsLow(p) then Some(UnitOf(p).value) else None
  {
    match p
    case End => AtEnd(s, i);
    case Raw(_, _) => AtRaw(s, i, p);
    case Short(_, _) => AtShort(s, i, p);
    case Unit(_, _, _, _, _) => AtUnit(s, i, p);
  }

  lemma {:induction false} ScanUnit(s: string, i: nat, p: Spelling)
    requires p.Unit? && WellSpelled(p) && At(s, i, Body(p))
    ensures var (c, rest) := First(p);
            var j := i + |Body(p)| - |Body(rest)|;
            i < j && At(s, j, Body(rest)) && ScanString(s, i) == Prepend([c], ScanString(s, j))
  {
    AtUnit(s, i, p);
    LowAtSpelling(s, i + 6, p.rest);
    if IsHigh(UnitOf(p).value) && StartsLow(p.rest) {
      AtUnit(s, i + 6, p.rest);
    }
  }

  lemma {:induction false} ScanFirst(s: string, i: nat, p: Spelling)
    requires p != End && WellSpelled(p) && At(s, i, Body(p))
    ensures var (c, rest) := First(p);
            var j := i + |Body(p)| - |Body(rest)|;
            i < j && At(s, j, Body(rest)) && ScanString(s, i) == Prepend([c], ScanString(s, j))
  {
    match p
    case Raw(_, _) => AtRaw(s, i, p);
    case Short(_, _) => AtShort(s, i, p);
    case Unit(_, _, _, _, _) => ScanUnit(s, i, p);
  }

  /** Scanning undoes every spelling: it reads back exactly the meaning and stops just past the
      closing quote, whatever stands before or after the string. */
  lemma {:induction false} ScanReadsMeaning(s: string, i: nat, p: Spelling)
    requires WellSpelled(p) && At(s, i, Body(p))
    ensures ScanString(s, i) == Some((Meaning(p), i + |Body(p)|))
    decreases p
  {
    if p == End {
      AtEnd(s, i);
    } else {
      ScanFirst(s, i, p);
      ScanReadsMeaning(s, i + |Body(p)| - |Body(First(p).1)|, First(p).1);
    }
  }

  lemma AtUnitInv(s: string, i: nat, p: Spelling)
    requires p.Unit? && i + 5 < |s| && s[i] == '\\' && s[i + 1] == 'u'
    requires s[i + 2] == p.h0 && s[i + 3] == p.h1 && s[i + 4] == p.h2 && s[i + 5] == p.h3
    requires At(s, i + 6, Body(p.rest))
    ensures At(s, i, Body(p))
  {
    var x := ['\\', 'u', p.h0, p.h1, p.h2, p.h3];
    assert At(s, i, x);
    AtJoin(s, i, x, Body(p.rest));
  }

  /** Conversely, whatever scanning accepts is a spelling, and it returned that spelling's meaning. */
  lemma {:induction false} ScannedIsSpelling(s: string, i: nat) returns (p: Spelling)
    requires i <= |s| && ScanString(s, i).Some?
    ensures WellSpelled(p) && At(s, i, Body(p))
    ensures ScanString(s, i) == Some((Meaning(p), i + |Body(p)|))
    decreases |s| - i
  {
    if s[i] == '"' {
      p := End;
    } else if s[i] != '\\' {
      var rest := ScannedIsSpelling(s, i + 1);
      p := Raw(s[i], rest);
      AtJoin(s, i, [s[i]], Body(rest));
    } else if s[i + 1] != 'u' {
      var rest := ScannedIsSpelling(s, i + 2);
      p := Short(s[i + 1], rest);
      AtJoin(s, i, ['\\', s[i + 1]], Body(rest));
    } else {
      var u := FromHex(s[i + 2], s[i + 3], s[i + 4], s[i + 5]).value;
      var rest;
      if IsHigh(u) && LowAt(s, i + 6).Some? {
        var rest2 := ScannedIsSpelling(s, i + 12);
        rest := Unit(s[i + 8], s[i + 9], s[i + 10], s[i + 11], rest2);
        AtUnitInv(s, i + 6, rest);
      } else {
        rest := ScannedIsSpelling(s, i + 6);
      }
      p := Unit(s[i + 2], s[i + 3], s[i + 4], s[i + 5], rest);
      AtUnitInv(s, i, p);
    }
    ScanReadsMeaning(s, i, p);
  }

  // ---------------------------------------------------------------------------------------
  // The JSON escaper and its inverse
  // ---------------------------------------------------------------------------------------

  function HexChar(d: nat): (c: char)
    requires d < 16
    ensures HexDigit(c) == d && c != '+'
  {
    if d < 10 then (d + '0' as int) as char else (d - 10 + 'a' as int) as char
  }

  function SpellUnit(u: nat, rest: Spelling): (p: Spelling)
    requires u < 0x1_0000
    ensures p.Unit? && p.rest == rest && UnitOf(p) == Some(u)
  {
    var (q, d) := (u / 16, u % 16);
    var (r, c) := (q / 16, q % 16);
    var (a, b) := (r / 16, r % 16);
    Unit(HexChar(a), HexChar(b), HexChar(c), HexChar(d), rest)
  }

  datatype Style = Plainly | AsUnits

  /** One character escaped the way RFC 8259 section 7 allows: written as itself (a quote or a
      backslash behind a backslash), or as one code unit, or as a surrogate pair. */
  function SpellChar(c: char, style: Style, rest: Spelling): Spelling {
    var n := c as int;
    if style == Plainly then (if c == '"' || c == '\\' then Short(c, rest) else Raw(c, rest))
    else if n < 0x1_0000 then SpellUnit(n, rest)
    else
      var m := n - 0x1_0000;
      SpellUnit(0xD800 + m / 0x400, SpellUnit(0xDC00 + m % 0x400, rest))
  }

  function SpellText(text: string, styles: seq<Style>): Spelling
    requires |styles| == |text|
  {
    if text == "" then End else SpellChar(text[0], styles[0], SpellText(text[1..], styles[1..]))
  }

  lemma SpellCharMeans(c: char, style: Style, rest: Spelling)
    requires WellSpelled(rest)
    ensures WellSpelled(SpellChar(c, style, rest))
    ensures First(SpellChar(c, style, rest)) == (c, rest)
  {
    if style == AsUnits && c as int >= 0x1_0000 {
      PairOf(c);
    }
  }

  lemma PairOf(c: char)
    requires c as int >= 0x1_0000
    ensures var m := c as int - 0x1_0000;
            IsHigh(0xD800 + m / 0x400) && IsLow(0xDC00 + m % 0x400)
            && PairChar(0xD800 + m / 0x400, 0xDC00 + m % 0x400) == c
  {
    var m := c as int - 0x1_0000;
    assert m / 0x400 * 0x400 + m % 0x400 == m;
  }

  /** Escaping is meaning-preserving however each character is escaped. */
  lemma {:induction false} SpellTextMeans(text: string, styles: seq<Style>)
    requires |styles| == |text|
    ensures WellSpelled(SpellText(text, styles)) && Meaning(SpellText(text, styles)) == text
  {
    if text != "" {
      SpellTextMeans(text[1..], styles[1..]);
      SpellCharMeans(text[0], styles[0], SpellText(text[1..], styles[1..]));
      assert [text[0]] + text[1..] == text;
    }
  }

  /** `read_string` undoes the JSON escaper: for every text, every choice of escapes and every
      surrounding line, scanning returns the text and the index just past the closing quote. */
  lemma EscapeRoundTrip(before: string, text: string, styles: seq<Style>, after: string)
    requires |styles| == |text|
    ensures var body := Body(SpellText(text, styles));
            ScanString(before + "\"" + body + after, |before| + 1) == Some((text, |before| + 1 + |body|))
  {
    var p := SpellText(text, styles);
    SpellTextMeans(text, styles);
    var s := before + "\"" + Body(p) + after;
    assert At(s, |before| + 1, Body(p));
    ScanReadsMeaning(s, |before| + 1, p);
  }

  /** An escape naming a surrogate with no partner reads as U+FFFD and consumes only itself. */
  lemma {:induction false} UnpairedSurrogate(s: string, i: nat, p: Spelling)
    requires p.Unit? && WellSpelled(p) && At(s, i, Body(p))
    requires IsLow(UnitOf(p).value) || (IsHigh(UnitOf(p).value) && !StartsLow(p.rest))
    ensures ScanString(s, i) == Prepend([REPLACEMENT], ScanString(s, i + 6))
    ensures ScanString(s, i + 6) == Some((Meaning(p.rest), i + |Body(p)|))
  {
    assert First(p) == (REPLACEMENT, p.rest);
    assert |Body(p)| == 6 + |Body(p.rest)|;
    assert ScanString(s, i) == Prepend([REPLACEMENT], ScanString(s, i + 6)) && At(s, i + 6, Body(p.rest)) by {
      ScanUnit(s, i, p);
    }
    ScanReadsMeaning(s, i + 6, p.rest);
  }
}
